/** What a board that has come to rest says, with or without rings: where the rank that a parent shows comes from. */
module FinalRanks {
  import opened Text
  import opened Forest
  import opened RollUp
  import opened ClosedForm
  import opened Rounds
  import opened Arrivals
  import opened Rests

  /** The status x starts with bears on p: x lies below p and has no children, or p is on a ring and x is read before
      it is visited. */
  ghost predicate Bears(g: Loop, x: string, p: string)
  {
    exists k: nat :: BearsOver(g, x, p, k)
  }

  ghost predicate BearsOver(g: Loop, x: string, p: string, k: nat)
  {
    var up := LinksOf(g.index);
    && k > 0 && Up(up, x, k) == Some(p)
    && (x in g.parents && x in up ==> Lag(g.parents, x, up[x]) && OnRing(g, p))
  }

  /** r is the highest rank among the first statuses that bear on p. */
  ghost predicate TopBearing(g: Loop, p: string, r: nat)
  {
    && (exists x :: x in g.index && Bears(g, x, p) && Rank(g.index[x].status) == r)
    && (forall x :: x in g.index && Bears(g, x, p) ==> Rank(g.index[x].status) <= r)
  }

  // ---- on a ring ----

  lemma FeedsBears(g: Loop, x: string, p: string, d: nat, r: nat)
    requires d > 0 && OnRing(g, p) && Feeds(g, x, p, d, r)
    ensures Bears(g, x, p)
  {
    var k: nat :| FeedsOver(g, x, p, d, r, k);
    assert BearsOver(g, x, p, k);
  }

  /** What bears on a ring card feeds it in some rounds. */
  lemma BearsFeeds(g: Loop, x: string, p: string, d: nat) returns (r: nat)
    requires d > 0 && Bears(g, x, p)
    ensures Feeds(g, x, p, d, r)
  {
    var k: nat :| BearsOver(g, x, p, k);
    r := Delay(LinksOf(g.index), g.parents, x, k);
    assert FeedsOver(g, x, p, d, r, k);
  }

  lemma AlwaysTopBears(g: Loop, p: string, d: nat, t: nat)
    requires d > 0 && OnRing(g, p) && AlwaysTop(g, p, d, t)
    ensures TopBearing(g, p, t)
  {
    assert TopFed(g, p, d, 0, t);
    var x :| x in g.index && Feeds(g, x, p, d, 0) && Rank(g.index[x].status) == t;
    FeedsBears(g, x, p, d, 0);
    forall y | y in g.index && Bears(g, y, p) ensures Rank(g.index[y].status) <= t {
      var r := BearsFeeds(g, y, p, d);
      assert TopFed(g, p, d, r, t);
    }
  }

  lemma RingTop(g: Loop, p: string, l: nat, n: nat)
    requires Agreeing(g) && p in g.index && Turn(LinksOf(g.index), p, l) && n >= Horizon(g)
    ensures TopBearing(g, p, RankAt(g, n, p))
  {
    assert RingAgrees(g, p, l);
    var d := Delay(LinksOf(g.index), g.parents, p, l);
    var t: nat :| AlwaysTop(g, p, d, t);
    LateTop(g, p, l, d, n);
    assert TopFed(g, p, d, n, t);
    FedMeet(g, p, d, n, t, RankAt(g, n, p));
    AlwaysTopBears(g, p, d, t);
  }

  // ---- off the rings ----

  /** No parent's first status is still on its way to a card off the rings. */
  lemma LateIsLeaf(g: Loop, x: string, p: string, n: nat, k: nat)
    requires p in g.parents && !OnRing(g, p) && n >= Horizon(g) && Via(g, x, p, n, k)
    ensures k > 0 && x !in g.parents
  {
    if k > 0 {
      var i := ShortWay(g, x, p, k);
      OneWay(g, x, p, i, k);
    }
  }

  lemma ArrivesBears(g: Loop, x: string, p: string, n: nat)
    requires p in g.parents && !OnRing(g, p) && n >= Horizon(g)
    ensures Arrives(g, x, p, n) <==> Bears(g, x, p)
  {
    if k: nat :| Via(g, x, p, n, k) {
      LateIsLeaf(g, x, p, n, k);
      assert BearsOver(g, x, p, k);
    }
    if k: nat :| BearsOver(g, x, p, k) {
      var i := ShortWay(g, x, p, k);
      assert x !in g.parents;
      LeafFeeds(g, x, p, n, i);
    }
  }

  lemma TreeTop(g: Loop, p: string, n: nat)
    requires p in g.parents && p in g.index && !OnRing(g, p) && n >= Horizon(g)
    ensures TopBearing(g, p, RankAt(g, n, p))
  {
    RankIsTop(g, p, n);
    forall x ensures Arrives(g, x, p, n) <==> Bears(g, x, p) { ArrivesBears(g, x, p, n); }
  }

  // ---- the status shown ----

  lemma SettledTop(g: Loop, p: string, n: nat)
    requires Agreeing(g) && p in g.parents && p in g.index && n >= Horizon(g)
    ensures TopBearing(g, p, RankAt(g, n, p))
  {
    if l: nat :| Turn(LinksOf(g.index), p, l) { RingTop(g, p, l, n); } else { TreeTop(g, p, n); }
  }

  lemma ShownOnce(g: Loop, p: string, t: nat, r: nat)
    requires TopBearing(g, p, t) && t <= 3 && r <= 3
    ensures ShownRank(t) == ShownRank(r) <==> TopBearing(g, p, r)
  {
  }

  lemma RankBound(st: Status)
    ensures Rank(st) <= 3
  {
  }

  /** On every board on which the loop ends, a parent ends with a status exactly when that shows the highest rank among
      the first statuses that bear on it. */
  lemma StopsShowing(g: Loop, p: string, r: nat)
    requires Agreeing(g) && p in g.parents && p in g.index && r <= 3
    ensures Stop(g)[p].status == ShownRank(r) <==> TopBearing(g, p, r)
  {
    var n := Horizon(g) + 1;
    SettledTop(g, p, n);
    ShowsRank(g, n, p);
    RankBound(After(g, n)[p].status);
    ShownOnce(g, p, RankAt(g, n, p), r);
  }

  // ---- without cycles ----

  /** l has no children and p is reached from it by following links up. */
  ghost predicate LeafUnder(order: seq<string>, index: Index, l: string, p: string)
  {
    l in index && Kids(order, index, l) == [] && Reaches(LinksOf(index), l, p)
  }

  /** Without cycles only the cards below it that have no children bear on a parent. */
  lemma AcyclicBears(g: Loop, x: string, p: string)
    requires Acyclic(LinksOf(g.index)) && p in g.parents && x in g.index
    ensures Bears(g, x, p) <==> LeafUnder(g.order, g.index, x, p)
  {
    ParentIff(g, x);
    if k: nat :| BearsOver(g, x, p, k) { assert !OnRing(g, p); }
    if LeafUnder(g.order, g.index, x, p) {
      var k: nat :| Up(LinksOf(g.index), x, k) == Some(p);
      LeafIsNotParent(g, x, p, k);
      assert BearsOver(g, x, p, k);
    }
  }

  ghost predicate TopLeaf(order: seq<string>, index: Index, p: string, r: nat)
  {
    && (exists l :: LeafUnder(order, index, l, p) && Rank(index[l].status) == r)
    && (forall l :: LeafUnder(order, index, l, p) ==> Rank(index[l].status) <= r)
  }

  lemma AcyclicTop(g: Loop, p: string, r: nat)
    requires Acyclic(LinksOf(g.index)) && p in g.parents
    ensures TopBearing(g, p, r) <==> TopLeaf(g.order, g.index, p, r)
  {
    forall x | x in g.index ensures Bears(g, x, p) <==> LeafUnder(g.order, g.index, x, p) { AcyclicBears(g, x, p); }
  }
}
