/** When the roll-up loop ends: exactly when every ring of cards is fed the same highest rank in every round. */
module Rests {
  import opened Text
  import opened Forest
  import opened RollUp
  import opened Settling
  import opened ClosedForm
  import opened Rounds
  import opened Arrivals

  // ---- rings ----

  /** p is on a ring of l cards. */
  ghost predicate Turn(up: Links, p: string, l: nat)
  {
    l > 0 && Up(up, p, l) == Some(p) && forall j: nat :: 0 < j < l ==> Up(up, p, j) != Some(p)
  }

  /** p is reached from x over k > 0 links, and not over fewer. */
  ghost predicate FirstReach(up: Links, x: string, p: string, k: nat)
  {
    k > 0 && Up(up, x, k) == Some(p) && forall j: nat :: 0 < j < k ==> Up(up, x, j) != Some(p)
  }

  lemma {:induction false} FirstReachExists(up: Links, x: string, p: string, k: nat) returns (j: nat)
    requires k > 0 && Up(up, x, k) == Some(p)
    ensures j <= k && FirstReach(up, x, p, j)
  {
    if i: nat :| 0 < i < k && Up(up, x, i) == Some(p) {
      j := FirstReachExists(up, x, p, i);
    } else {
      j := k;
    }
  }

  /** No card is passed twice on a shortest way. */
  lemma NoRepeat(up: Links, x: string, p: string, k: nat, i: nat, j: nat)
    requires FirstReach(up, x, p, k) && i < j < k
    ensures Up(up, x, i).Some? && Up(up, x, i) != Up(up, x, j)
  {
    UpSplit(up, x, i, k - i);
    UpSplit(up, x, j, k - j);
    UpSplit(up, x, i, k - j);
    assert Up(up, x, i + (k - j)) != Some(p);
  }

  lemma {:induction false} ShortTrail(up: Links, x: string, p: string, k: nat, m: nat)
    requires FirstReach(up, x, p, k) && m <= k
    ensures |Trail(up, x, m)| == m && Trail(up, x, m) <= up.Keys
  {
    if m > 0 {
      ShortTrail(up, x, p, k, m - 1);
      UpSplit(up, x, m - 1, 1);
      UpSplit(up, x, m, k - m);
      var y := Up(up, x, m - 1).value;
      if y in Trail(up, x, m - 1) {
        TrailMembers(up, x, m - 1, y);
        var i: nat :| i < m - 1 && Up(up, x, i) == Some(y);
        NoRepeat(up, x, p, k, i, m - 1);
      }
    }
  }

  /** A shortest way is no longer than there are links. */
  lemma ShortReach(up: Links, x: string, p: string, k: nat)
    requires FirstReach(up, x, p, k)
    ensures k <= |up|
  {
    ShortTrail(up, x, p, k, k);
    SubsetSize(Trail(up, x, k), up.Keys);
  }

  /** What dividing a by d leaves. */
  function Remainder(a: nat, d: nat): nat
    requires d > 0
  {
    if a < d then a else Remainder(a - d, d)
  }

  lemma {:induction false} AddWhole(a: nat, b: nat, d: nat)
    requires d > 0 && Remainder(b, d) == 0
    ensures Remainder(a + b, d) == Remainder(a, d)
    decreases b
  {
    if b >= d { AddWhole(a, b - d, d); }
  }

  lemma {:induction false} NextAlike(a: nat, b: nat, d: nat)
    requires d > 0 && a < b && Remainder(a, d) == Remainder(b, d)
    ensures a + d <= b
    decreases a
  {
    if a >= d { NextAlike(a - d, b - d, d); }
  }

  /** Every way from p back to p is a number of full turns. */
  lemma {:induction false} ClosedWalk(up: Links, ps: seq<string>, p: string, l: nat, m: nat, d: nat)
    requires Turn(up, p, l) && Up(up, p, m) == Some(p) && d > 0 && Delay(up, ps, p, l) == d
    ensures Remainder(Delay(up, ps, p, m), d) == 0
    decreases m
  {
    if m > 0 {
      assert l <= m;
      UpSplit(up, p, l, m - l);
      DelaySplit(up, ps, p, l, m - l);
      ClosedWalk(up, ps, p, l, m - l, d);
    }
  }

  /** Going round until the delay is n. */
  lemma {:induction false} GoRound(up: Links, ps: seq<string>, x: string, p: string, l: nat, d: nat, i: nat, n: nat) returns (k: nat)
    requires Up(up, p, l) == Some(p) && d > 0 && Delay(up, ps, p, l) == d && Up(up, x, i) == Some(p)
    requires Delay(up, ps, x, i) <= n && Remainder(Delay(up, ps, x, i), d) == Remainder(n, d)
    ensures k >= i && Up(up, x, k) == Some(p) && Delay(up, ps, x, k) == n
    decreases n - Delay(up, ps, x, i)
  {
    if Delay(up, ps, x, i) == n {
      k := i;
    } else {
      NextAlike(Delay(up, ps, x, i), n, d);
      UpSplit(up, x, i, l);
      DelaySplit(up, ps, x, i, l);
      k := GoRound(up, ps, x, p, l, d, i + l, n);
    }
  }

  /** Without a delay each card is visited after the one below it. */
  lemma {:induction false} NoDelayRises(up: Links, ps: seq<string>, x: string, y: string, k: nat)
    requires k > 0 && Up(up, x, k) == Some(y) && Delay(up, ps, x, k) == 0
    ensures x in ps && y in ps && Place(ps, x) < Place(ps, y)
    decreases k
  {
    assert !Lag(ps, x, up[x]);
    if k > 1 { NoDelayRises(up, ps, up[x], y, k - 1); }
  }

  /** Somewhere on a ring a card is read before it is visited. */
  lemma RingDelays(up: Links, ps: seq<string>, p: string, l: nat)
    requires Turn(up, p, l)
    ensures Delay(up, ps, p, l) > 0
  {
    if Delay(up, ps, p, l) == 0 { NoDelayRises(up, ps, p, p, l); }
  }

  // ---- what a ring is fed ----

  /** The status x starts with is read by p, on a ring with delay d, in every round from some round on if x has no
      children, and otherwise in every round that leaves the remainder of r. */
  ghost predicate Feeds(g: Loop, x: string, p: string, d: nat, r: nat)
    requires d > 0
  {
    exists k: nat :: FeedsOver(g, x, p, d, r, k)
  }

  ghost predicate FeedsOver(g: Loop, x: string, p: string, d: nat, r: nat, k: nat)
    requires d > 0
  {
    var up := LinksOf(g.index);
    && k > 0 && Up(up, x, k) == Some(p)
    && (x in g.parents && x in up ==> Lag(g.parents, x, up[x]) && Remainder(Delay(up, g.parents, x, k), d) == Remainder(r, d))
  }

  /** t is the highest rank fed in rounds like r. */
  ghost predicate TopFed(g: Loop, p: string, d: nat, r: nat, t: nat)
    requires d > 0
  {
    && (exists x :: x in g.index && Feeds(g, x, p, d, r) && Rank(g.index[x].status) == t)
    && (forall x :: x in g.index && Feeds(g, x, p, d, r) ==> Rank(g.index[x].status) <= t)
  }

  ghost predicate AlwaysTop(g: Loop, p: string, d: nat, t: nat)
    requires d > 0
  {
    forall r: nat :: TopFed(g, p, d, r, t)
  }

  /** p is fed the same highest rank in every round. */
  ghost predicate EvenlyFed(g: Loop, p: string, d: nat)
    requires d > 0
  {
    exists t: nat :: AlwaysTop(g, p, d, t)
  }

  ghost predicate RingAgrees(g: Loop, p: string, l: nat)
  {
    var d := Delay(LinksOf(g.index), g.parents, p, l);
    d > 0 && EvenlyFed(g, p, d)
  }

  /** Every card on a ring is fed the same highest rank in every round: of the cards read before they are visited,
      and the cards without children, that lead to it. */
  ghost predicate Agreeing(g: Loop)
  {
    forall p, l: nat :: p in g.index && Turn(LinksOf(g.index), p, l) ==> RingAgrees(g, p, l)
  }

  /** From this round on only what goes round comes back. */
  function Horizon(g: Loop): nat
  {
    |g.index| + 1
  }

  lemma LinksFit(index: Index)
    ensures |LinksOf(index)| <= |index|
  {
    SubsetSize(LinksOf(index).Keys, index.Keys);
    assert |LinksOf(index).Keys| == |LinksOf(index)| && |index.Keys| == |index|;
  }

  lemma OnRingIsParent(g: Loop, p: string, l: nat)
    requires Turn(LinksOf(g.index), p, l)
    ensures p in g.parents && p in g.index
  {
    ParentIff(g, p);
    var _ := ThroughChild(g.order, g.index, p, p, l);
  }

  lemma LeafIsNotParent(g: Loop, x: string, p: string, k: nat)
    requires p in g.parents && Up(LinksOf(g.index), x, k) == Some(p) && x !in g.parents
    ensures k > 0
  {
  }

  /** In a late round a ring card gets just what feeds it. */
  lemma ArrivesFeeds(g: Loop, x: string, p: string, n: nat, d: nat)
    requires p in g.parents && n > 0 && d > 0 && Arrives(g, x, p, n)
    ensures Feeds(g, x, p, d, n)
  {
    var k: nat :| Via(g, x, p, n, k);
    assert x in g.parents && k == 0 ==> Delay(LinksOf(g.index), g.parents, x, k) == 0;
    if x !in g.parents { LeafIsNotParent(g, x, p, k); }
    assert FeedsOver(g, x, p, d, n, k);
  }

  lemma ShortWay(g: Loop, x: string, p: string, k: nat) returns (i: nat)
    requires k > 0 && Up(LinksOf(g.index), x, k) == Some(p)
    ensures 0 < i <= k && Up(LinksOf(g.index), x, i) == Some(p) && Delay(LinksOf(g.index), g.parents, x, i) < Horizon(g)
  {
    i := FirstReachExists(LinksOf(g.index), x, p, k);
    ShortReach(LinksOf(g.index), x, p, i);
    LinksFit(g.index);
    DelayBound(LinksOf(g.index), g.parents, x, i);
  }

  /** Two ways from x to p have the same delay, up to full turns. */
  lemma WaysAlike(up: Links, ps: seq<string>, x: string, p: string, l: nat, d: nat, i: nat, k: nat)
    requires Turn(up, p, l) && d > 0 && Delay(up, ps, p, l) == d
    requires i <= k && Up(up, x, i) == Some(p) && Up(up, x, k) == Some(p)
    ensures Remainder(Delay(up, ps, x, k), d) == Remainder(Delay(up, ps, x, i), d)
  {
    UpSplit(up, x, i, k - i);
    DelaySplit(up, ps, x, i, k - i);
    ClosedWalk(up, ps, p, l, k - i, d);
    AddWhole(Delay(up, ps, x, i), Delay(up, ps, p, k - i), d);
  }

  lemma LeafFeeds(g: Loop, x: string, p: string, n: nat, i: nat)
    requires x !in g.parents && Up(LinksOf(g.index), x, i) == Some(p) && Delay(LinksOf(g.index), g.parents, x, i) <= n
    ensures Arrives(g, x, p, n)
  {
    assert Via(g, x, p, n, i);
  }

  lemma ParentFeeds(g: Loop, x: string, p: string, l: nat, d: nat, n: nat, i: nat)
    requires Turn(LinksOf(g.index), p, l) && d > 0 && Delay(LinksOf(g.index), g.parents, p, l) == d
    requires x in g.parents && x in LinksOf(g.index) && Lag(g.parents, x, LinksOf(g.index)[x])
    requires i > 0 && Up(LinksOf(g.index), x, i) == Some(p) && Delay(LinksOf(g.index), g.parents, x, i) <= n
    requires Remainder(Delay(LinksOf(g.index), g.parents, x, i), d) == Remainder(n, d)
    ensures Arrives(g, x, p, n)
  {
    var k := GoRound(LinksOf(g.index), g.parents, x, p, l, d, i, n);
    assert Via(g, x, p, n, k);
  }

  /** What feeds a ring card arrives in every late round of its remainder. */
  lemma FeedsArrives(g: Loop, x: string, p: string, l: nat, d: nat, n: nat)
    requires Turn(LinksOf(g.index), p, l) && d > 0 && Delay(LinksOf(g.index), g.parents, p, l) == d
    requires n >= Horizon(g) && Feeds(g, x, p, d, n)
    ensures Arrives(g, x, p, n)
  {
    var k: nat :| FeedsOver(g, x, p, d, n, k);
    var i := ShortWay(g, x, p, k);
    if x in g.parents {
      WaysAlike(LinksOf(g.index), g.parents, x, p, l, d, i, k);
      ParentFeeds(g, x, p, l, d, n, i);
    } else {
      LeafFeeds(g, x, p, n, i);
    }
  }

  // ---- ranks come to rest ----

  /** From round n on no card changes its rank. */
  ghost predicate RanksRest(g: Loop, n: nat)
  {
    forall m: nat, p :: m >= n && p in g.index ==> RankAt(g, m, p) == RankAt(g, n, p)
  }

  ghost predicate OnRing(g: Loop, p: string)
  {
    exists l: nat :: Turn(LinksOf(g.index), p, l)
  }

  lemma TopsMeet(g: Loop, p: string, n: nat, t: nat, u: nat)
    requires TopAt(g, p, n, t) && TopAt(g, p, n, u)
    ensures t == u
  {
  }

  /** In a late round a ring card ranks as the highest rank that feeds it in rounds of that remainder. */
  lemma LateTop(g: Loop, p: string, l: nat, d: nat, n: nat)
    requires p in g.index && Turn(LinksOf(g.index), p, l) && d > 0 && Delay(LinksOf(g.index), g.parents, p, l) == d
    requires n >= Horizon(g)
    ensures TopFed(g, p, d, n, RankAt(g, n, p))
  {
    RankIsTop(g, p, n);
    OnRingIsParent(g, p, l);
    var t := RankAt(g, n, p);
    var x :| x in g.index && Arrives(g, x, p, n) && Rank(g.index[x].status) == t;
    ArrivesFeeds(g, x, p, n, d);
    forall y | y in g.index && Feeds(g, y, p, d, n) ensures Rank(g.index[y].status) <= t {
      FeedsArrives(g, y, p, l, d, n);
    }
  }

  lemma FedMeet(g: Loop, p: string, d: nat, r: nat, t: nat, u: nat)
    requires d > 0 && TopFed(g, p, d, r, t) && TopFed(g, p, d, r, u)
    ensures t == u
  {
  }

  lemma RingRests(g: Loop, p: string, l: nat, n: nat)
    requires p in g.index && Turn(LinksOf(g.index), p, l) && RingAgrees(g, p, l) && n >= Horizon(g)
    ensures RankAt(g, n, p) == RankAt(g, Horizon(g), p)
  {
    var d := Delay(LinksOf(g.index), g.parents, p, l);
    var t: nat :| AlwaysTop(g, p, d, t);
    LateTop(g, p, l, d, n);
    LateTop(g, p, l, d, Horizon(g));
    assert TopFed(g, p, d, n, t) && TopFed(g, p, d, Horizon(g), t);
    FedMeet(g, p, d, n, t, RankAt(g, n, p));
    FedMeet(g, p, d, Horizon(g), t, RankAt(g, Horizon(g), p));
  }

  /** Off the rings only cards without children arrive in a late round, and then in every late round. */
  lemma OffRingArrival(g: Loop, x: string, p: string, n: nat, m: nat)
    requires p in g.index && !OnRing(g, p) && n >= Horizon(g) && m >= Horizon(g) && Arrives(g, x, p, n)
    ensures Arrives(g, x, p, m)
  {
    var up := LinksOf(g.index);
    var k: nat :| Via(g, x, p, n, k);
    if k > 0 {
      var i := ShortWay(g, x, p, k);
      OneWay(g, x, p, i, k);
    }
    DelayBound(up, g.parents, x, k);
    assert Via(g, x, p, m, k);
  }

  lemma LoopIsRing(g: Loop, p: string, m: nat)
    requires m > 0 && Up(LinksOf(g.index), p, m) == Some(p)
    ensures OnRing(g, p)
  {
    var l := FirstReachExists(LinksOf(g.index), p, p, m);
    assert Turn(LinksOf(g.index), p, l);
  }

  /** There is only one way to a card off the rings. */
  lemma OneWay(g: Loop, x: string, p: string, i: nat, k: nat)
    requires !OnRing(g, p) && i <= k && Up(LinksOf(g.index), x, i) == Some(p) && Up(LinksOf(g.index), x, k) == Some(p)
    ensures i == k
  {
    if i < k {
      UpSplit(LinksOf(g.index), x, i, k - i);
      LoopIsRing(g, p, k - i);
    }
  }

  lemma OffRingRests(g: Loop, p: string, n: nat)
    requires p in g.index && !OnRing(g, p) && n >= Horizon(g)
    ensures RankAt(g, n, p) == RankAt(g, Horizon(g), p)
  {
    var m := Horizon(g);
    RankIsTop(g, p, n);
    RankIsTop(g, p, m);
    forall x ensures Arrives(g, x, p, n) <==> Arrives(g, x, p, m) {
      if Arrives(g, x, p, n) { OffRingArrival(g, x, p, n, m); }
      if Arrives(g, x, p, m) { OffRingArrival(g, x, p, m, n); }
    }
    assert TopAt(g, p, n, RankAt(g, m, p));
    TopsMeet(g, p, n, RankAt(g, n, p), RankAt(g, m, p));
  }

  /** On an agreeing board the ranks rest from the horizon on. */
  lemma AgreeingRests(g: Loop)
    requires Agreeing(g)
    ensures RanksRest(g, Horizon(g))
  {
    forall m: nat, p | m >= Horizon(g) && p in g.index ensures RankAt(g, m, p) == RankAt(g, Horizon(g), p) {
      if l: nat :| Turn(LinksOf(g.index), p, l) {
        RingRests(g, p, l, m);
      } else {
        OffRingRests(g, p, m);
      }
    }
  }

  /** A late round with the remainder of r. */
  lemma LateRound(g: Loop, d: nat, r: nat, n: nat) returns (m: nat)
    requires d > 0
    ensures m >= n && m >= Horizon(g) && Remainder(m, d) == Remainder(r, d)
  {
    m := Later(r, d, n + Horizon(g));
  }

  lemma {:induction false} Later(r: nat, d: nat, n: nat) returns (m: nat)
    requires d > 0
    ensures m >= n && Remainder(m, d) == Remainder(r, d)
  {
    m := r;
    while m < n
      invariant Remainder(m, d) == Remainder(r, d)
    {
      m := m + d;
    }
  }

  lemma FeedsAlike(g: Loop, x: string, p: string, d: nat, r: nat, m: nat)
    requires d > 0 && Remainder(m, d) == Remainder(r, d) && Feeds(g, x, p, d, r)
    ensures Feeds(g, x, p, d, m)
  {
    var k: nat :| FeedsOver(g, x, p, d, r, k);
    assert FeedsOver(g, x, p, d, m, k);
  }

  lemma TopFedAlike(g: Loop, p: string, d: nat, r: nat, m: nat, t: nat)
    requires d > 0 && Remainder(m, d) == Remainder(r, d) && TopFed(g, p, d, m, t)
    ensures TopFed(g, p, d, r, t)
  {
    var x :| x in g.index && Feeds(g, x, p, d, m) && Rank(g.index[x].status) == t;
    FeedsAlike(g, x, p, d, m, r);
    forall y | y in g.index && Feeds(g, y, p, d, r) ensures Rank(g.index[y].status) <= t { FeedsAlike(g, y, p, d, r, m); }
  }

  lemma RestingRing(g: Loop, n: nat, p: string, l: nat)
    requires RanksRest(g, n) && p in g.index && Turn(LinksOf(g.index), p, l)
    ensures RingAgrees(g, p, l)
  {
    var d, t := Delay(LinksOf(g.index), g.parents, p, l), RankAt(g, n, p);
    RingDelays(LinksOf(g.index), g.parents, p, l);
    forall r: nat ensures TopFed(g, p, d, r, t) {
      var m := LateRound(g, d, r, n);
      LateTop(g, p, l, d, m);
      assert RankAt(g, m, p) == t;
      TopFedAlike(g, p, d, r, m, t);
    }
    assert AlwaysTop(g, p, d, t);
  }

  /** The ranks come to rest exactly when every ring agrees, and then by the horizon. */
  lemma RanksRestIff(g: Loop)
    ensures (exists n: nat :: RanksRest(g, n)) <==> Agreeing(g)
    ensures Agreeing(g) ==> RanksRest(g, Horizon(g))
  {
    if n: nat :| RanksRest(g, n) {
      forall p, l: nat | p in g.index && Turn(LinksOf(g.index), p, l) ensures RingAgrees(g, p, l) {
        RestingRing(g, n, p, l);
      }
    }
    if Agreeing(g) { AgreeingRests(g); }
  }

  // ---- the board comes to rest ----

  lemma VisitReworks(roll: Rule, order: seq<string>, index: Index, cur: Index, p: string)
    requires Reworked(index, cur)
    ensures Reworked(index, Visit(roll, order, cur, p))
  {
  }

  lemma {:induction false} SweepReworks(roll: Rule, order: seq<string>, index: Index, cur: Index, ps: seq<string>)
    requires Reworked(index, cur)
    ensures Reworked(index, Sweep(roll, order, cur, ps))
  {
    if |ps| > 0 {
      SweepReworks(roll, order, index, cur, ps[..|ps| - 1]);
      VisitReworks(roll, order, index, Sweep(roll, order, cur, ps[..|ps| - 1]), ps[|ps| - 1]);
    }
  }

  lemma {:induction false} AfterReworks(g: Loop, n: nat)
    ensures Reworked(g.index, After(g, n))
  {
    if n > 0 {
      AfterReworks(g, n - 1);
      SweepReworks(g.roll, g.order, g.index, After(g, n - 1), g.parents);
    }
  }

  lemma ShowsRank(g: Loop, n: nat, p: string)
    requires n > 0 && p in g.parents && p in g.index
    ensures After(g, n)[p].status == ShownRank(RankAt(g, n, p))
  {
    RankShown(g, n - 1, n, p);
  }

  lemma StatusRests(g: Loop, n: nat, m: nat, p: string)
    requires RanksRest(g, n) && m >= n > 0 && p in g.index
    ensures After(g, m)[p].status == After(g, n)[p].status
  {
    if p in g.parents {
      ShowsRank(g, m, p);
      ShowsRank(g, n, p);
    } else {
      LeafStays(g, m, p);
      LeafStays(g, n, p);
    }
  }

  lemma ReadRests(g: Loop, n: nat, m: nat, p: string, c: string)
    requires RanksRest(g, n) && m >= n > 0 && c in g.index
    ensures Read(g, m, p, c).status == After(g, n)[c].status
  {
    if Lag(g.parents, c, p) { StatusRests(g, n, m, c); } else { StatusRests(g, n, m + 1, c); }
  }

  lemma SeenRests(g: Loop, n: nat, m: nat, p: string)
    requires RanksRest(g, n) && m >= n > 0
    ensures Seen(g, m, p) == StatusesOf(After(g, n))
  {
    forall c | c in g.index ensures Seen(g, m, p)[c] == StatusesOf(After(g, n))[c] { ReadRests(g, n, m, p, c); }
  }

  /** What parent p holds after a round, once the ranks rest. */
  lemma HeldAtRest(g: Loop, n: nat, m: nat, next: nat, p: string)
    requires RanksRest(g, n) && m >= n > 0 && next == m + 1 && p in g.parents && p in g.index
    ensures Held(g, next, p) == g.roll(Held(g, m, p), Kids(g.order, g.index, p), StatusesOf(After(g, n)))
  {
    RoundHeld(g, m, next, p);
    SeenRests(g, n, m, p);
  }

  lemma RestListed(g: Loop, n: nat, p: string)
    requires RanksRest(g, n) && n > 0
    ensures Agreed(Kids(g.order, g.index, p), StatusesOf(After(g, n)))
  {
    SeenListed(g, n, p);
    SeenRests(g, n, n, p);
  }

  lemma SameRolled(g: Loop, own: (Status, string), own': (Status, string), kids: seq<string>, st: Statuses)
    requires kids != [] && Agreed(kids, st)
    ensures g.roll(own, kids, st) == g.roll(own', kids, st)
  {
    RollSame(g.roll, own, own', kids, st, st);
  }

  lemma ParentRests(g: Loop, n: nat, m: nat, a: nat, b: nat, p: string)
    requires RanksRest(g, n) && m >= n > 0 && a == m + 1 && b == a + 1 && p in g.parents && p in g.index
    ensures Held(g, b, p) == Held(g, a, p)
  {
    HeldAtRest(g, n, m, a, p);
    HeldAtRest(g, n, a, b, p);
    RestListed(g, n, p);
    ParentInIndex(g, p);
    SameRolled(g, Held(g, m, p), Held(g, a, p), Kids(g.order, g.index, p), StatusesOf(After(g, n)));
  }

  lemma CardRests(g: Loop, n: nat, m: nat, next: nat, p: string)
    requires RanksRest(g, n) && m > n > 0 && next == m + 1 && p in g.index
    ensures Held(g, next, p) == Held(g, m, p)
  {
    if p in g.parents {
      ParentRests(g, n, m - 1, m, next, p);
    } else {
      LeafStays(g, m, p);
      LeafStays(g, next, p);
    }
  }

  /** Where an agreeing board has come to rest. */
  function Stop(g: Loop): (r: Index)
    ensures r.Keys == g.index.Keys
  {
    After(g, Horizon(g) + 1)
  }

  /** A round changes nothing. */
  ghost predicate AtRest(g: Loop, n: nat)
  {
    After(g, n + 1) == After(g, n)
  }

  lemma SameCard(g: Loop, m: nat, next: nat, p: string)
    requires Reworked(g.index, After(g, m)) && Reworked(g.index, After(g, next)) && p in g.index
    requires Held(g, next, p) == Held(g, m, p)
    ensures After(g, next)[p] == After(g, m)[p]
  {
  }

  lemma RoundRests(g: Loop, n: nat, m: nat, next: nat)
    requires RanksRest(g, n) && m > n > 0 && next == m + 1
    ensures After(g, next) == After(g, m)
  {
    AfterReworks(g, m);
    AfterReworks(g, next);
    forall p | p in g.index ensures After(g, next)[p] == After(g, m)[p] {
      CardRests(g, n, m, next, p);
      SameCard(g, m, next, p);
    }
  }

  lemma BoardRests(g: Loop, n: nat, m: nat)
    requires RanksRest(g, n) && m > n > 0
    ensures AtRest(g, m)
  {
    RoundRests(g, n, m, m + 1);
  }

  lemma {:induction false} StaysAtRest(g: Loop, n: nat, m: nat)
    requires AtRest(g, n) && m >= n
    ensures After(g, m) == After(g, n)
    decreases m
  {
    if m > n { StaysAtRest(g, n, m - 1); }
  }

  /** The loop ends, at a board that a further round leaves alone, exactly when every ring agrees; and then
      within one round more than there are cards, and two. */
  lemma RestsIff(g: Loop)
    ensures (exists n: nat :: AtRest(g, n)) <==> Agreeing(g)
    ensures Agreeing(g) ==> forall n: nat :: n > Horizon(g) ==> AtRest(g, n)
  {
    RanksRestIff(g);
    if n: nat :| AtRest(g, n) {
      forall m: nat, p | m >= n && p in g.index ensures RankAt(g, m, p) == RankAt(g, n, p) { StaysAtRest(g, n, m); }
      assert RanksRest(g, n);
    }
    if Agreeing(g) {
      forall n: nat | n > Horizon(g) ensures AtRest(g, n) { BoardRests(g, Horizon(g), n); }
      assert AtRest(g, Horizon(g) + 1);
    }
  }

  /** On any board, settled or not, a ring card ranks alike in late rounds with the same remainder: its ranks
      come back after as many rounds as the ring has delays. */
  lemma RanksComeBack(g: Loop, p: string, l: nat, d: nat, n: nat, m: nat)
    requires p in g.index && Turn(LinksOf(g.index), p, l) && d > 0 && Delay(LinksOf(g.index), g.parents, p, l) == d
    requires n >= Horizon(g) && m >= Horizon(g) && Remainder(m, d) == Remainder(n, d)
    ensures RankAt(g, m, p) == RankAt(g, n, p)
  {
    LateTop(g, p, l, d, n);
    LateTop(g, p, l, d, m);
    AlikeTops(g, p, d, n, m, RankAt(g, n, p), RankAt(g, m, p));
  }

  lemma AlikeTops(g: Loop, p: string, d: nat, r: nat, m: nat, t: nat, u: nat)
    requires d > 0 && Remainder(m, d) == Remainder(r, d) && TopFed(g, p, d, r, t) && TopFed(g, p, d, m, u)
    ensures t == u
  {
    TopFedAlike(g, p, d, r, m, u);
    FedMeet(g, p, d, r, t, u);
  }

  // ---- rings that always agree ----

  lemma {:induction false} RemainderOfOne(a: nat)
    ensures Remainder(a, 1) == 0
  {
    if a > 0 { RemainderOfOne(a - 1); }
  }

  /** A ring on which only one card is read before it is visited agrees, whatever the statuses. */
  lemma OneDelayAgrees(g: Loop, p: string, l: nat)
    requires p in g.index && Turn(LinksOf(g.index), p, l) && Delay(LinksOf(g.index), g.parents, p, l) == 1
    ensures RingAgrees(g, p, l)
  {
    var m := Horizon(g);
    LateTop(g, p, l, 1, m);
    forall r: nat ensures TopFed(g, p, 1, r, RankAt(g, m, p)) {
      RemainderOfOne(r);
      RemainderOfOne(m);
      TopFedAlike(g, p, 1, r, m, RankAt(g, m, p));
    }
    assert AlwaysTop(g, p, 1, RankAt(g, m, p));
  }

  /** Rings of one or two cards have one delay. */
  lemma SmallRingDelay(g: Loop, p: string, l: nat)
    requires Turn(LinksOf(g.index), p, l) && l <= 2
    ensures Delay(LinksOf(g.index), g.parents, p, l) == 1
  {
    var up := LinksOf(g.index);
    RingDelays(up, g.parents, p, l);
    DelayBound(up, g.parents, p, l);
    if l == 2 {
      DelaySplit(up, g.parents, p, 1, 1);
      OneStep(up, g.parents, p);
      OneStep(up, g.parents, up[p]);
      assert Up(up, p, 1) == Some(up[p]) && Up(up, up[p], 1) == Some(p);
      OnRingIsParent(g, p, l);
      assert Up(up, up[p], 2) == Up(up, p, 1);
      OtherOnRing(g, p);
      assert Place(g.parents, p) != Place(g.parents, up[p]);
    }
  }

  lemma OtherOnRing(g: Loop, p: string)
    requires p in LinksOf(g.index) && p in g.index
    ensures LinksOf(g.index)[p] in g.parents
  {
    var q := LinksOf(g.index)[p];
    ParentIff(g, q);
    assert p in Kids(g.order, g.index, q);
  }

  ghost predicate SmallRings(index: Index)
  {
    forall p, l: nat :: Turn(LinksOf(index), p, l) ==> l <= 2
  }

  /** A board whose rings have at most two cards always comes to rest: a card that depends on itself, or two
      that depend on each other. */
  lemma SmallRingsAgree(g: Loop)
    requires SmallRings(g.index)
    ensures Agreeing(g)
  {
    forall p, l: nat | p in g.index && Turn(LinksOf(g.index), p, l) ensures RingAgrees(g, p, l) {
      SmallRingDelay(g, p, l);
      OneDelayAgrees(g, p, l);
    }
  }

  lemma AcyclicHasNoRings(index: Index)
    requires Acyclic(LinksOf(index))
    ensures SmallRings(index)
  {
  }
}
