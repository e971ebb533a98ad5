/** The loop as the workspace runs it: the roll-up rule, and the parents in sorted order. */
module Schedules {
  import opened Forest
  import opened RollUp
  import opened Settling
  import opened Rounds
  import opened Rests
  import opened Sorting

  /** The ids that some card depends on, among ids. */
  function ParentsAmong(order: seq<string>, index: Index, ids: seq<string>): (r: seq<string>)
    ensures forall p :: p in r <==> p in ids && Kids(order, index, p) != []
  {
    if |ids| == 0 then []
    else
      var last := ids[|ids| - 1];
      assert forall p :: p in ids <==> p == last || p in ids[..|ids| - 1];
      ParentsAmong(order, index, ids[..|ids| - 1]) + if Kids(order, index, last) != [] then [last] else []
  }

  /** The parents in the order a round visits them. */
  function SortedParents(order: seq<string>, index: Index): seq<string>
  {
    Sorted(ParentsAmong(order, index, order))
  }

  lemma AscendingDistinct(xs: seq<string>)
    requires Ascending(xs)
    ensures Distinct(xs)
  {
    forall i, j | 0 <= i < j < |xs| ensures xs[i] != xs[j] { LessIrreflexive(xs[i]); }
  }

  lemma SortedSchedule(order: seq<string>, index: Index)
    requires Lists(order, index)
    ensures Schedule(order, index, SortedParents(order, index))
  {
    var ids := ParentsAmong(order, index, order);
    SortedAscends(ids);
    AscendingDistinct(Sorted(ids));
    forall p ensures VisitedIffParent(order, index, Sorted(ids), p) {
      if Kids(order, index, p) != [] { assert Kids(order, index, p)[0] in Kids(order, index, p); }
    }
  }

  /** In an ascending schedule x is read before it is visited unless its id sorts before its reader's. */
  lemma LagBySort(ps: seq<string>, x: string, y: string)
    requires Ascending(ps) && x in ps && y in ps
    ensures Lag(ps, x, y) <==> !Less(x, y)
  {
    LessIrreflexive(x);
    if Less(x, y) && Less(y, x) { LessTransitive(x, y, x); }
  }

  /** Known statuses, and every id of the index in the order, once. */
  ghost predicate Known(order: seq<string>, index: Index)
  {
    Lists(order, index) && Listed(index)
  }

  ghost function LoopOf(order: seq<string>, index: Index): (g: Loop)
    requires Known(order, index)
    ensures g.roll == RollUpStatus && g.order == order && g.index == index && g.parents == SortedParents(order, index)
  {
    RollUpMaxes();
    RollUpIsDecisive();
    SortedSchedule(order, index);
    Setup(RollUpStatus, order, index, SortedParents(order, index))
  }

  /** The loop ends on this board. */
  ghost predicate Settles(order: seq<string>, index: Index)
  {
    Known(order, index) && Agreeing(LoopOf(order, index))
  }

  /** The board the loop ends with. */
  ghost function Rolled(order: seq<string>, index: Index): (r: Index)
    requires Known(order, index)
    ensures r.Keys == index.Keys
  {
    Stop(LoopOf(order, index))
  }

  lemma {:induction false} ParentsAlike(order: seq<string>, a: Index, b: Index, ids: seq<string>)
    requires SameShape(a, b)
    ensures ParentsAmong(order, a, ids) == ParentsAmong(order, b, ids)
  {
    if |ids| > 0 {
      ParentsAlike(order, a, b, ids[..|ids| - 1]);
      SameShapeSameKids(order, a, b, ids[|ids| - 1]);
    }
  }

  lemma RolledKnown(order: seq<string>, index: Index)
    requires Known(order, index)
    ensures Known(order, Rolled(order, index)) && SameShape(index, Rolled(order, index))
    ensures SortedParents(order, Rolled(order, index)) == SortedParents(order, index)
  {
    var g := LoopOf(order, index);
    AfterShape(g, Horizon(g) + 1);
    AfterListed(g, Horizon(g) + 1);
    ParentsAlike(order, index, Rolled(order, index), order);
  }

  /** A board the loop has left settles at once. */
  lemma RolledSettles(order: seq<string>, index: Index)
    requires Settles(order, index)
    ensures Settles(order, Rolled(order, index))
    ensures AtRest(LoopOf(order, Rolled(order, index)), 0)
  {
    var g, out := LoopOf(order, index), Rolled(order, index);
    RolledKnown(order, index);
    RestsIff(g);
    assert AtRest(g, Horizon(g) + 1);
    var h := LoopOf(order, out);
    OneMoreRound(g, h, Horizon(g) + 1);
    RestsIff(h);
  }

  lemma OneMoreRound(g: Loop, h: Loop, n: nat)
    requires h.roll == g.roll && h.order == g.order && h.parents == g.parents && h.index == After(g, n) && AtRest(g, n)
    ensures AtRest(h, 0)
  {
    assert After(h, 0) == h.index;
    assert After(h, 1) == Sweep(h.roll, h.order, After(h, 0), h.parents);
  }

  /** Without cycles the loop ends with the bottom-up result. */
  lemma AcyclicSettles(order: seq<string>, index: Index)
    requires Known(order, index) && Acyclic(LinksOf(index))
    ensures Settles(order, index) && Rolled(order, index) == FinalIndex(RollUpStatus, order, index, |LinksOf(index)|)
  {
    var g := LoopOf(order, index);
    AcyclicHasNoRings(index);
    SmallRingsAgree(g);
    AcyclicIffBounded(LinksOf(index));
    LinksFit(index);
    ScheduleCovers(g);
    SweepsReachFinal(RollUpStatus, order, index, g.parents, |LinksOf(index)|, Horizon(g) + 1);
  }

  lemma ScheduleCovers(g: Loop)
    ensures CoversParents(g.parents, g.index)
  {
    forall id | id in g.index && HasParent(g.index, id) ensures g.index[id].dependsOn.value in g.parents {
      ParentIff(g, g.index[id].dependsOn.value);
      assert id in Kids(g.order, g.index, g.index[id].dependsOn.value);
    }
  }

  lemma SmallRingsSettle(order: seq<string>, index: Index)
    requires Known(order, index) && SmallRings(index)
    ensures Settles(order, index)
  {
    SmallRingsAgree(LoopOf(order, index));
  }
}
