/** Rings of cards: when a ring without side branches comes to rest, and a run that closes one which never does. */
module Cycles {
  import opened Text
  import opened Forest
  import opened RollUp
  import opened ClosedForm
  import opened Rounds
  import opened Arrivals
  import opened Rests
  import opened TaskEdits
  import opened Sorting
  import opened Schedules

  /** x is on the way to p and is read before it is visited. */
  ghost predicate Stale(g: Loop, x: string, p: string)
  {
    var up := LinksOf(g.index);
    x in g.index && x in up && Lag(g.parents, x, up[x]) && exists k: nat :: k > 0 && Up(up, x, k) == Some(p)
  }

  /** Only the cards of p's ring lead to p. */
  ghost predicate PureRing(g: Loop, p: string, l: nat)
  {
    && Turn(LinksOf(g.index), p, l)
    && forall x, k: nat :: Up(LinksOf(g.index), x, k) == Some(p) ==> OnTurn(g, p, l, x)
  }

  ghost predicate OnTurn(g: Loop, p: string, l: nat, x: string)
  {
    exists j: nat :: j < l && Up(LinksOf(g.index), p, j) == Some(x)
  }

  ghost predicate StaleAgree(g: Loop, p: string)
  {
    forall x, y :: Stale(g, x, p) && Stale(g, y, p) ==> Rank(g.index[x].status) == Rank(g.index[y].status)
  }

  lemma TurnIsRing(g: Loop, p: string, l: nat, x: string)
    requires Turn(LinksOf(g.index), p, l) && OnTurn(g, p, l, x)
    ensures x in g.parents && x in g.index && x in LinksOf(g.index)
    ensures Up(LinksOf(g.index), x, l) == Some(x)
    ensures forall ps :: Delay(LinksOf(g.index), ps, x, l) == Delay(LinksOf(g.index), ps, p, l)
  {
    var up := LinksOf(g.index);
    var j: nat :| j < l && Up(up, p, j) == Some(x);
    UpSplit(up, p, j, l);
    UpSplit(up, p, l, j);
    assert Up(up, x, l) == Some(x);
    forall ps ensures Delay(up, ps, x, l) == Delay(up, ps, p, l) {
      DelaySplit(up, ps, p, j, l);
      DelaySplit(up, ps, p, l, j);
    }
    ParentIff(g, x);
    var _ := ThroughChild(g.order, g.index, x, x, l);
  }

  lemma {:induction false} NoShift(a: nat, b: nat, d: nat)
    requires 0 < a < d
    ensures Remainder(a + b, d) != Remainder(b, d)
    decreases b
  {
    if b >= d { NoShift(a, b - d, d); }
  }

  lemma StaleDelays(g: Loop, x: string, k: nat)
    requires k > 0 && x in LinksOf(g.index) && Lag(g.parents, x, LinksOf(g.index)[x])
    ensures Delay(LinksOf(g.index), g.parents, x, k) > 0
  {
  }

  /** Two cards of a ring that are read before they are visited feed it in different rounds. */
  lemma DifferentRounds(up: Links, ps: seq<string>, x: string, y: string, p: string, l: nat, d: nat, m: nat, k: nat)
    requires 0 < m < l && Up(up, x, m) == Some(y) && Up(up, y, k) == Some(p) && Delay(up, ps, x, l) == d
    requires Delay(up, ps, x, m) > 0 && Delay(up, ps, y, l - m) > 0
    ensures d > 0 && Up(up, x, m + k) == Some(p)
    ensures Remainder(Delay(up, ps, x, m + k), d) != Remainder(Delay(up, ps, y, k), d)
  {
    UpSplit(up, x, m, k);
    DelaySplit(up, ps, x, m, k);
    DelaySplit(up, ps, x, m, l - m);
    NoShift(Delay(up, ps, x, m), Delay(up, ps, y, k), d);
  }

  /** On a ring the card y that lies ahead of x is reached from it in less than a turn. */
  lemma Ahead(g: Loop, p: string, l: nat, x: string, y: string) returns (m: nat)
    requires Turn(LinksOf(g.index), p, l) && OnTurn(g, p, l, x) && OnTurn(g, p, l, y) && x != y
    ensures 0 < m < l && Up(LinksOf(g.index), x, m) == Some(y)
  {
    var up := LinksOf(g.index);
    var i: nat :| i < l && Up(up, p, i) == Some(x);
    var j: nat :| j < l && Up(up, p, j) == Some(y);
    if i < j {
      m := j - i;
      UpSplit(up, p, i, m);
    } else {
      m := l - i + j;
      UpSplit(up, p, i, l - i);
      UpSplit(up, x, l - i, j);
    }
  }

  /** What makes x one of the cards of p's ring that feed it, over i links. */
  ghost predicate RingFeeder(g: Loop, p: string, l: nat, x: string, i: nat)
  {
    OnTurn(g, p, l, x) && Stale(g, x, p) && Up(LinksOf(g.index), x, i) == Some(p)
  }

  lemma StaleGap(g: Loop, p: string, l: nat, x: string, y: string, m: nat)
    requires Turn(LinksOf(g.index), p, l) && OnTurn(g, p, l, x) && Stale(g, x, p) && Stale(g, y, p) && 0 < m < l
    ensures Delay(LinksOf(g.index), g.parents, x, m) > 0 && Delay(LinksOf(g.index), g.parents, y, l - m) > 0
    ensures Delay(LinksOf(g.index), g.parents, x, l) == Delay(LinksOf(g.index), g.parents, p, l)
  {
    TurnIsRing(g, p, l, x);
    StaleDelays(g, x, m);
    StaleDelays(g, y, l - m);
  }

  lemma DelaysApart(up: Links, ps: seq<string>, x: string, y: string, p: string, l: nat, d: nat, m: nat, i: nat, k: nat)
    requires Turn(up, p, l) && d > 0 && Delay(up, ps, p, l) == d && Delay(up, ps, x, l) == d
    requires 0 < m < l && Up(up, x, m) == Some(y) && Up(up, y, k) == Some(p) && Up(up, x, i) == Some(p)
    requires Delay(up, ps, x, m) > 0 && Delay(up, ps, y, l - m) > 0
    ensures Remainder(Delay(up, ps, x, i), d) != Remainder(Delay(up, ps, y, k), d)
  {
    DifferentRounds(up, ps, x, y, p, l, d, m, k);
    EitherWay(up, ps, x, p, l, d, i, m + k);
  }

  lemma FeedersApart(g: Loop, p: string, l: nat, d: nat, x: string, y: string, i: nat, k: nat)
    requires Turn(LinksOf(g.index), p, l) && d > 0 && Delay(LinksOf(g.index), g.parents, p, l) == d
    requires RingFeeder(g, p, l, x, i) && RingFeeder(g, p, l, y, k) && x != y
    ensures Remainder(Delay(LinksOf(g.index), g.parents, x, i), d) != Remainder(Delay(LinksOf(g.index), g.parents, y, k), d)
  {
    var m := Ahead(g, p, l, x, y);
    StaleGap(g, p, l, x, y, m);
    DelaysApart(LinksOf(g.index), g.parents, x, y, p, l, d, m, i, k);
  }

  /** Two cards of a ring that feed it in the same rounds are one. */
  lemma SameRoundsSameCard(g: Loop, p: string, l: nat, d: nat, r: nat, x: string, y: string)
    requires PureRing(g, p, l) && d > 0 && Delay(LinksOf(g.index), g.parents, p, l) == d
    requires x in g.index && y in g.index && Feeds(g, x, p, d, r) && Feeds(g, y, p, d, r)
    ensures x == y
  {
    var i := FeederIsStale(g, x, p, l, d, r);
    var k := FeederIsStale(g, y, p, l, d, r);
    TurnIsRing(g, p, l, x);
    TurnIsRing(g, p, l, y);
    if x != y { FeedersApart(g, p, l, d, x, y, i, k); }
  }

  lemma EitherWay(up: Links, ps: seq<string>, x: string, p: string, l: nat, d: nat, i: nat, k: nat)
    requires Turn(up, p, l) && d > 0 && Delay(up, ps, p, l) == d
    requires Up(up, x, i) == Some(p) && Up(up, x, k) == Some(p)
    ensures Remainder(Delay(up, ps, x, k), d) == Remainder(Delay(up, ps, x, i), d)
  {
    if i <= k { WaysAlike(up, ps, x, p, l, d, i, k); } else { WaysAlike(up, ps, x, p, l, d, k, i); }
  }

  /** A card read before it is visited feeds the ring in the rounds of its delay. */
  lemma StaleFeeds(g: Loop, x: string, p: string, d: nat, k: nat)
    requires d > 0 && Stale(g, x, p) && k > 0 && Up(LinksOf(g.index), x, k) == Some(p)
    ensures Feeds(g, x, p, d, Delay(LinksOf(g.index), g.parents, x, k))
  {
    assert FeedsOver(g, x, p, d, Delay(LinksOf(g.index), g.parents, x, k), k);
  }

  lemma FeederIsStale(g: Loop, x: string, p: string, l: nat, d: nat, r: nat) returns (k: nat)
    requires PureRing(g, p, l) && d > 0 && x in g.index && Feeds(g, x, p, d, r)
    ensures Stale(g, x, p) && OnTurn(g, p, l, x) && FeedsOver(g, x, p, d, r, k)
  {
    k :| FeedsOver(g, x, p, d, r, k);
    assert OnTurn(g, p, l, x);
    TurnIsRing(g, p, l, x);
  }

  lemma StaleAgreeing(g: Loop, p: string, l: nat, d: nat, r: nat) returns (x: string)
    requires PureRing(g, p, l) && p in g.index && d > 0 && Delay(LinksOf(g.index), g.parents, p, l) == d && StaleAgree(g, p)
    ensures Stale(g, x, p) && TopFed(g, p, d, r, Rank(g.index[x].status))
  {
    var m := LateRound(g, d, r, 0);
    LateTop(g, p, l, d, m);
    var t := RankAt(g, m, p);
    TopFedAlike(g, p, d, r, m, t);
    x :| x in g.index && Feeds(g, x, p, d, r) && Rank(g.index[x].status) == t;
    var _ := FeederIsStale(g, x, p, l, d, r);
  }

  lemma AgreeingStale(g: Loop, p: string, l: nat, d: nat, t: nat, x: string)
    requires PureRing(g, p, l) && d > 0 && Delay(LinksOf(g.index), g.parents, p, l) == d && AlwaysTop(g, p, d, t) && Stale(g, x, p)
    ensures Rank(g.index[x].status) == t
  {
    var k: nat :| k > 0 && Up(LinksOf(g.index), x, k) == Some(p);
    var r := Delay(LinksOf(g.index), g.parents, x, k);
    StaleFeeds(g, x, p, d, k);
    assert TopFed(g, p, d, r, t);
    var y :| y in g.index && Feeds(g, y, p, d, r) && Rank(g.index[y].status) == t;
    SameRoundsSameCard(g, p, l, d, r, x, y);
  }

  /** A ring without side branches, of any length and visited in any order, agrees exactly when the cards that are
      read before they are visited rank alike. */
  lemma PureRingAgreesIff(g: Loop, p: string, l: nat)
    requires PureRing(g, p, l) && p in g.index
    ensures RingAgrees(g, p, l) <==> StaleAgree(g, p)
  {
    var d := Delay(LinksOf(g.index), g.parents, p, l);
    RingDelays(LinksOf(g.index), g.parents, p, l);
    if RingAgrees(g, p, l) {
      var t: nat :| AlwaysTop(g, p, d, t);
      forall x, y | Stale(g, x, p) && Stale(g, y, p) ensures Rank(g.index[x].status) == Rank(g.index[y].status) {
        AgreeingStale(g, p, l, d, t, x);
        AgreeingStale(g, p, l, d, t, y);
      }
    }
    if StaleAgree(g, p) {
      var x := StaleAgreeing(g, p, l, d, 0);
      forall r: nat ensures TopFed(g, p, d, r, Rank(g.index[x].status)) {
        var y := StaleAgreeing(g, p, l, d, r);
      }
      assert AlwaysTop(g, p, d, Rank(g.index[x].status));
    }
  }

  // ---- three cards ----

  /** Three different ids. */
  predicate Apart(a: string, b: string, c: string)
  {
    {a, b, c} !! {""} && a != b && b != c && a != c
  }

  ghost function RingLinks(a: string, b: string, c: string): Links
  {
    map[b := a, c := b, a := c]
  }

  /** Of three cards b depends on a, c on b and a on c. */
  ghost predicate IsRing(index: Index, a: string, b: string, c: string)
  {
    Apart(a, b, c) && index.Keys == {a, b, c} && LinksOf(index) == RingLinks(a, b, c)
  }

  lemma RingOf(index: Index, a: string, b: string, c: string)
    requires Apart(a, b, c) && index.Keys == {a, b, c}
    requires index[b].dependsOn == Some(a) && index[c].dependsOn == Some(b) && index[a].dependsOn == Some(c)
    ensures IsRing(index, a, b, c)
  {
  }

  lemma RingTurn(up: Links, p: string, q: string, r: string)
    requires p != q && q != r && p != r && p in up && q in up && r in up && up[p] == q && up[q] == r && up[r] == p
    ensures Turn(up, p, 3) && Up(up, p, 0) == Some(p) && Up(up, p, 1) == Some(q) && Up(up, p, 2) == Some(r)
  {
    assert Up(up, p, 3) == Up(up, q, 2) == Up(up, r, 1) == Up(up, p, 0);
    assert Up(up, p, 2) == Up(up, q, 1) == Up(up, r, 0);
    assert Up(up, p, 1) == Up(up, q, 0);
  }

  lemma RingCard(g: Loop, p: string, q: string, r: string)
    requires p != q && q != r && p != r && LinksOf(g.index).Keys == {p, q, r}
    requires LinksOf(g.index)[p] == q && LinksOf(g.index)[q] == r && LinksOf(g.index)[r] == p
    ensures PureRing(g, p, 3)
    ensures forall x :: Stale(g, x, p) <==> x in {p, q, r} && x in g.index && Lag(g.parents, x, LinksOf(g.index)[x])
  {
    var up := LinksOf(g.index);
    RingTurn(up, p, q, r);
    RingTurn(up, q, r, p);
    RingTurn(up, r, p, q);
    forall x, k: nat | Up(up, x, k) == Some(p) ensures OnTurn(g, p, 3, x) {
      assert x in up || k == 0;
      assert Up(up, p, if x == p then 0 else if x == q then 1 else 2) == Some(x);
    }
    assert Up(up, p, 3) == Some(p) && Up(up, q, 2) == Some(p) && Up(up, r, 1) == Some(p);
  }

  lemma OneTurn(up: Links, p: string, l: nat, m: nat)
    requires Turn(up, p, l) && Turn(up, p, m)
    ensures l == m
  {
  }

  /** x is one of the three cards and is read before it is visited. */
  ghost predicate StaleOf(g: Loop, x: string, a: string, b: string, c: string)
    requires IsRing(g.index, a, b, c)
  {
    x in {a, b, c} && Lag(g.parents, x, RingLinks(a, b, c)[x])
  }

  ghost predicate StaleOfAgree(g: Loop, a: string, b: string, c: string)
    requires IsRing(g.index, a, b, c)
  {
    forall x, y :: StaleOf(g, x, a, b, c) && StaleOf(g, y, a, b, c) ==> Rank(g.index[x].status) == Rank(g.index[y].status)
  }

  lemma RingCards(g: Loop, a: string, b: string, c: string, p: string)
    requires IsRing(g.index, a, b, c) && p in {a, b, c}
    ensures PureRing(g, p, 3) && forall x :: Stale(g, x, p) <==> StaleOf(g, x, a, b, c)
  {
    if p == a { RingCard(g, a, c, b); } else if p == b { RingCard(g, b, a, c); } else { RingCard(g, c, b, a); }
  }

  lemma RingCardAgreesIff(g: Loop, a: string, b: string, c: string, p: string)
    requires IsRing(g.index, a, b, c) && p in {a, b, c}
    ensures Turn(LinksOf(g.index), p, 3) && (RingAgrees(g, p, 3) <==> StaleOfAgree(g, a, b, c))
  {
    RingCards(g, a, b, c, p);
    PureRingAgreesIff(g, p, 3);
  }

  lemma ThreeRingAgreesIff(g: Loop, a: string, b: string, c: string)
    requires IsRing(g.index, a, b, c)
    ensures Agreeing(g) <==> StaleOfAgree(g, a, b, c)
  {
    RingCardAgreesIff(g, a, b, c, a);
    if StaleOfAgree(g, a, b, c) {
      forall p, l: nat | p in g.index && Turn(LinksOf(g.index), p, l) ensures RingAgrees(g, p, l) {
        RingCardAgreesIff(g, a, b, c, p);
        OneTurn(LinksOf(g.index), p, l, 3);
      }
    }
  }

  /** Three cards in a ring come to rest exactly when those read before they are visited rank alike. */
  lemma ThreeRingSettlesIff(g: Loop, a: string, b: string, c: string)
    requires IsRing(g.index, a, b, c)
    ensures (exists n: nat :: AtRest(g, n)) <==> StaleOfAgree(g, a, b, c)
  {
    RestsIff(g);
    ThreeRingAgreesIff(g, a, b, c);
  }

  // ---- a run that gets there ----

  /** b depends on a and c on b; the agent working on c is still running. */
  ghost predicate ChainAtWork(book: Book, a: string, b: string, c: string)
  {
    && Apart(a, b, c) && Known(book.order, book.index) && book.index.Keys == {a, b, c}
    && !Given(book.index[a].dependsOn) && book.index[b].dependsOn == Some(a) && book.index[c].dependsOn == Some(b)
    && book.index[b].status == HandoffQueued && book.index[c].status == InProgress
  }

  ghost predicate AllRank(index: Index, t: nat)
  {
    forall x :: x in index ==> Rank(index[x].status) == t
  }

  lemma BackHandoffMakesRing(book: Book, a: string, b: string, c: string, r: Request, source: string)
    requires ChainAtWork(book, a, b, c) && r.taskId == Some(a)
    ensures var out := File(book, r, source, Some(c));
      IsRing(out.index, a, b, c) && out.order == book.order && Known(out.order, out.index) && AllRank(out.index, 2)
  {
    var out := File(book, r, source, Some(c));
    RingOf(out.index, a, b, c);
  }

  /** A board on which all cards rank alike keeps their ranks. */
  lemma AllRankStays(g: Loop, n: nat, t: nat)
    requires AllRank(g.index, t)
    ensures AllRank(After(g, n), t)
  {
    forall x | x in g.index ensures Rank(After(g, n)[x].status) == t { RankIsTop(g, x, n); }
  }

  lemma SameLinks(a: Index, b: Index)
    requires SameShape(a, b)
    ensures LinksOf(a) == LinksOf(b)
  {
  }

  /** The board after the first roll-up, with c's card recording the question. */
  ghost predicate Asked(index: Index, a: string, b: string, c: string)
  {
    && IsRing(index, a, b, c) && Rank(index[a].status) == 2 && Rank(index[b].status) == 2 && Rank(index[c].status) == 3
  }

  lemma BlockedAsks(order: seq<string>, index: Index, a: string, b: string, c: string, agent: string, question: string)
    requires IsRing(index, a, b, c) && Known(order, index) && AllRank(index, 2)
    ensures var out := Finished(Book(order, index), c, agent, (Blocked, question));
      out.order == order && Known(order, out.index) && Asked(out.index, a, b, c)
  {
    var out := Finished(Book(order, index), c, agent, (Blocked, question));
    SameLinks(index, out.index);
  }

  lemma RingParents(g: Loop, a: string, b: string, c: string)
    requires IsRing(g.index, a, b, c)
    ensures a in g.parents && b in g.parents && c in g.parents
  {
    RingCards(g, a, b, c, a);
    RingCards(g, a, b, c, b);
    RingCards(g, a, b, c, c);
    OnRingIsParent(g, a, 3);
    OnRingIsParent(g, b, 3);
    OnRingIsParent(g, c, 3);
  }

  lemma StaleInOrder(g: Loop, a: string, b: string, c: string, x: string)
    requires IsRing(g.index, a, b, c) && Ascending(g.parents) && x in {a, b, c}
    ensures StaleOf(g, x, a, b, c) <==> Less(RingLinks(a, b, c)[x], x)
  {
    RingParents(g, a, b, c);
    var y := RingLinks(a, b, c)[x];
    LagBySort(g.parents, x, y);
    OneOrder(x, y);
  }

  /** c alone ranks higher. */
  lemma AskedDisagrees(g: Loop, a: string, b: string, c: string)
    requires Asked(g.index, a, b, c)
    ensures StaleOfAgree(g, a, b, c) <==> !(StaleOf(g, c, a, b, c) && (StaleOf(g, b, a, b, c) || StaleOf(g, a, a, b, c)))
  {
  }

  lemma AskedAgreesIff(g: Loop, a: string, b: string, c: string)
    requires Asked(g.index, a, b, c) && Ascending(g.parents)
    ensures StaleOfAgree(g, a, b, c) <==> !(Less(b, c) && (Less(a, b) || Less(c, a)))
  {
    AskedDisagrees(g, a, b, c);
    StaleInOrder(g, a, b, c, a);
    StaleInOrder(g, a, b, c, b);
    StaleInOrder(g, a, b, c, c);
  }

  /** With c blocked and the other two active, in sorted order the loop goes on for ever exactly when c and one of
      the others are read before they are visited. */
  lemma AskedSettlesIff(order: seq<string>, index: Index, a: string, b: string, c: string)
    requires Known(order, index) && Asked(index, a, b, c)
    ensures (exists n: nat :: AtRest(LoopOf(order, index), n)) <==> !(Less(b, c) && (Less(a, b) || Less(c, a)))
  {
    var g := LoopOf(order, index);
    ThreeRingSettlesIff(g, a, b, c);
    SortedAscends(ParentsAmong(order, index, order));
    AskedAgreesIff(g, a, b, c);
  }

  lemma OneOrder(a: string, b: string)
    requires a != b
    ensures Less(a, b) <==> !Less(b, a)
  {
    LessTotal(a, b);
    LessIrreflexive(a);
    if Less(a, b) && Less(b, a) { LessTransitive(a, b, a); }
  }

  /** The run of c hands its work back to a and asks the operator a question. Filing the handoff closes a ring that
      the first roll-up still settles. Once the question is recorded the loop goes on for ever exactly when the ids
      sort as a, b, c or as b, c, a. */
  lemma BackHandoffWithQuestionSettlesIff(
    book: Book, a: string, b: string, c: string, r: Request, source: string, question: string)
    requires ChainAtWork(book, a, b, c) && r.taskId == Some(a)
    ensures Settles(book.order, File(book, r, source, Some(c)).index)
    ensures var settled := Rolled(book.order, File(book, r, source, Some(c)).index);
      var asked := Finished(Book(book.order, settled), c, source, Outcome([question], [], ""));
      Known(asked.order, asked.index)
      && ((exists n: nat :: AtRest(LoopOf(asked.order, asked.index), n))
          <==> !((Less(a, b) && Less(b, c)) || (Less(b, c) && Less(c, a))))
  {
    var filed := File(book, r, source, Some(c)).index;
    BackHandoffMakesRing(book, a, b, c, r, source);
    LevelRingSettles(book.order, filed, a, b, c);
    var settled := Rolled(book.order, filed);
    BlockedAsks(book.order, settled, a, b, c, source, question);
    AskedSettlesIff(book.order, Finished(Book(book.order, settled), c, source, (Blocked, question)).index, a, b, c);
  }

  /** A ring of active cards settles and stays one. */
  lemma LevelRingSettles(order: seq<string>, index: Index, a: string, b: string, c: string)
    requires Known(order, index) && IsRing(index, a, b, c) && AllRank(index, 2)
    ensures Settles(order, index)
    ensures Known(order, Rolled(order, index)) && IsRing(Rolled(order, index), a, b, c) && AllRank(Rolled(order, index), 2)
  {
    LevelAgrees(LoopOf(order, index), a, b, c, 2);
    RolledKnown(order, index);
    RingStays(index, Rolled(order, index), a, b, c);
    AllRankStays(LoopOf(order, index), Horizon(LoopOf(order, index)) + 1, 2);
  }

  lemma LevelAgrees(g: Loop, a: string, b: string, c: string, t: nat)
    requires IsRing(g.index, a, b, c) && AllRank(g.index, t)
    ensures Agreeing(g)
  {
    ThreeRingAgreesIff(g, a, b, c);
  }

  lemma RingStays(index: Index, out: Index, a: string, b: string, c: string)
    requires IsRing(index, a, b, c) && SameShape(index, out)
    ensures IsRing(out, a, b, c)
  {
    SameLinks(index, out);
  }
}
