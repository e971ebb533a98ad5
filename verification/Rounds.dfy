/** Rounds of the roll-up loop on any board, cyclic or not: which cards' first statuses a card shows after n rounds. */
module Rounds {
  import opened RollUp
  import opened Settling
  import opened ClosedForm

  /** The loop: its rule, the board as it found it, and the order in which a round visits the parents. */
  datatype Setup = Setup(roll: Rule, order: seq<string>, index: Index, parents: seq<string>)

  predicate Distinct(ps: seq<string>)
  {
    forall i, j :: 0 <= i < j < |ps| ==> ps[i] != ps[j]
  }

  /** A round visits each card that has children once. */
  ghost predicate Schedule(order: seq<string>, index: Index, parents: seq<string>)
  {
    Distinct(parents) && forall p :: VisitedIffParent(order, index, parents, p)
  }

  ghost predicate VisitedIffParent(order: seq<string>, index: Index, parents: seq<string>, p: string)
  {
    p in parents <==> Kids(order, index, p) != []
  }

  /** The rule shows the highest rank among the children. */
  ghost predicate Maxes(roll: Rule, own: (Status, string), ids: seq<string>, st: Statuses)
  {
    Highest(ids, st, Rank(roll(own, ids, st).0)) && roll(own, ids, st).0 == ShownRank(Rank(roll(own, ids, st).0))
  }

  ghost predicate MaxRule(roll: Rule)
  {
    forall own: (Status, string), ids, st :: ids != [] && Agree(ids, st, st) ==> Maxes(roll, own, ids, st)
  }

  /** The rule looks at listed children only and shows the highest of them; the schedule fits the board. */
  ghost predicate Sane(g: Setup)
  {
    && Listed(g.index) && Lists(g.order, g.index) && Schedule(g.order, g.index, g.parents)
    && Decisive(g.roll) && MaxRule(g.roll)
  }

  lemma RollUpMaxes()
    ensures MaxRule(RollUpStatus)
  {
    forall own: (Status, string), ids, st | ids != [] && Agree(ids, st, st) ensures Maxes(RollUpStatus, own, ids, st) {
      RollUpHighest(own, ids, st);
    }
  }

  ghost function EmptyBoard(): (g: Setup)
    ensures Sane(g)
  {
    RollUpMaxes();
    RollUpIsDecisive();
    Setup(RollUpStatus, [], map[], [])
  }

  type Loop = g: Setup | Sane(g) ghost witness EmptyBoard()

  /** The board after n rounds. */
  function After(g: Loop, n: nat): (r: Index)
    ensures r.Keys == g.index.Keys
  {
    Sweeps(g.roll, g.order, g.index, g.parents, n)
  }

  // ---- one round ----

  function Place(ps: seq<string>, p: string): (i: nat)
    requires p in ps
    ensures i < |ps| && ps[i] == p
  {
    if ps[|ps| - 1] == p then |ps| - 1 else Place(ps[..|ps| - 1], p)
  }

  lemma PlaceIs(ps: seq<string>, i: nat)
    requires Distinct(ps) && i < |ps|
    ensures Place(ps, ps[i]) == i
  {
  }

  /** The visit to p reads c before the round has visited c, if it ever does. */
  predicate Lag(ps: seq<string>, c: string, p: string)
  {
    c in ps && p in ps ==> Place(ps, p) <= Place(ps, c)
  }

  /** A card keeps what it has while others are visited. */
  lemma {:induction false} Unvisited(roll: Rule, order: seq<string>, index: Index, ps: seq<string>, k: nat, m: nat, x: string)
    requires k <= m <= |ps| && x in index && forall j :: k <= j < m ==> ps[j] != x
    ensures Sweep(roll, order, index, ps[..m])[x] == Sweep(roll, order, index, ps[..k])[x]
    decreases m
  {
    if k < m {
      Unvisited(roll, order, index, ps, k, m - 1, x);
      SweepPrefix(roll, order, index, ps, m - 1);
    }
  }

  lemma SweepPrefix(roll: Rule, order: seq<string>, index: Index, ps: seq<string>, i: nat)
    requires i < |ps|
    ensures Sweep(roll, order, index, ps[..i + 1]) == Visit(roll, order, Sweep(roll, order, index, ps[..i]), ps[i])
  {
    assert ps[..i + 1][..i] == ps[..i];
  }

  /** What the visit to parent i of a round finds: new cards of the parents before it, old ones otherwise. */
  lemma FoundAt(roll: Rule, order: seq<string>, index: Index, ps: seq<string>, i: nat, c: string)
    requires Distinct(ps) && i < |ps| && c in index
    ensures Sweep(roll, order, index, ps[..i])[c]
      == if Lag(ps, c, ps[i]) then index[c] else Sweep(roll, order, index, ps)[c]
  {
    PlaceIs(ps, i);
    assert ps[..|ps|] == ps && ps[..0] == [];
    if Lag(ps, c, ps[i]) {
      forall j | 0 <= j < i ensures ps[j] != c { PlaceIs(ps, j); }
      Unvisited(roll, order, index, ps, 0, i, c);
    } else {
      forall j | i <= j < |ps| ensures ps[j] != c { PlaceIs(ps, j); }
      Unvisited(roll, order, index, ps, i, |ps|, c);
    }
  }

  lemma LastVisit(roll: Rule, order: seq<string>, index: Index, ps: seq<string>, i: nat)
    requires Distinct(ps) && i < |ps| && ps[i] in index
    ensures Sweep(roll, order, index, ps)[ps[i]] == Visit(roll, order, Sweep(roll, order, index, ps[..i]), ps[i])[ps[i]]
  {
    Unvisited(roll, order, index, ps, i + 1, |ps|, ps[i]);
    SweepPrefix(roll, order, index, ps, i);
    assert ps[..|ps|] == ps;
  }

  /** The card of c that round n + 1 reads when it visits p. */
  function Read(g: Loop, n: nat, p: string, c: string): Card
    requires c in g.index
  {
    if Lag(g.parents, c, p) then After(g, n)[c] else After(g, n + 1)[c]
  }

  /** The statuses round n + 1 reads when it visits p. */
  function Seen(g: Loop, n: nat, p: string): (st: Statuses)
    ensures st.Keys == g.index.Keys
  {
    map c | c in g.index :: Read(g, n, p, c).status
  }

  lemma {:induction false} AfterShape(g: Loop, n: nat)
    ensures SameShape(g.index, After(g, n))
  {
    if n > 0 {
      AfterShape(g, n - 1);
      SweepShape(g.roll, g.order, After(g, n - 1), g.parents);
    }
  }

  ghost predicate Agreed(ids: seq<string>, st: Statuses)
  {
    Agree(ids, st, st)
  }

  lemma VisitListed(roll: Rule, order: seq<string>, cur: Index, p: string)
    requires Decisive(roll) && Listed(cur)
    ensures Listed(Visit(roll, order, cur, p))
  {
    var kids := Kids(order, cur, p);
    if p in cur && kids != [] {
      var own, st := (cur[p].status, cur[p].notes), StatusesOf(cur);
      RollSame(roll, own, own, kids, st, st);
    }
  }

  lemma {:induction false} SweepListed(roll: Rule, order: seq<string>, cur: Index, ps: seq<string>)
    requires Decisive(roll) && Listed(cur)
    ensures Listed(Sweep(roll, order, cur, ps))
  {
    if |ps| > 0 {
      SweepListed(roll, order, cur, ps[..|ps| - 1]);
      VisitListed(roll, order, Sweep(roll, order, cur, ps[..|ps| - 1]), ps[|ps| - 1]);
    }
  }

  lemma {:induction false} AfterListed(g: Loop, n: nat)
    ensures Listed(After(g, n))
  {
    if n > 0 {
      AfterListed(g, n - 1);
      SweepListed(g.roll, g.order, After(g, n - 1), g.parents);
    }
  }

  lemma ReadListed(g: Loop, n: nat, p: string, c: string)
    requires c in g.index
    ensures !Read(g, n, p, c).status.Unlisted?
  {
    AfterListed(g, n);
    AfterListed(g, n + 1);
  }

  lemma SeenListed(g: Loop, n: nat, p: string)
    ensures Agreed(Kids(g.order, g.index, p), Seen(g, n, p))
  {
    var kids, st := Kids(g.order, g.index, p), Seen(g, n, p);
    forall c | c in kids ensures c in st && !st[c].Unlisted? {
      KidLinks(g.order, g.index, p, c);
      ReadListed(g, n, p, c);
    }
  }

  lemma FoundStatuses(g: Loop, n: nat, i: nat)
    requires i < |g.parents|
    ensures StatusesOf(Sweep(g.roll, g.order, After(g, n), g.parents[..i])) == Seen(g, n, g.parents[i])
  {
    forall c | c in g.index
      ensures StatusesOf(Sweep(g.roll, g.order, After(g, n), g.parents[..i]))[c] == Seen(g, n, g.parents[i])[c]
    {
      FoundAt(g.roll, g.order, After(g, n), g.parents, i, c);
    }
  }

  lemma ParentIff(g: Loop, p: string)
    ensures p in g.parents <==> Kids(g.order, g.index, p) != []
  {
    assert VisitedIffParent(g.order, g.index, g.parents, p);
  }

  lemma ParentInIndex(g: Loop, p: string)
    requires p in g.parents
    ensures p in g.index && Kids(g.order, g.index, p) != []
  {
    ParentIff(g, p);
    assert Kids(g.order, g.index, p)[0] in Kids(g.order, g.index, p);
  }

  /** What round n + 1 makes of parent p. */
  lemma RoundAt(g: Loop, n: nat, p: string)
    requires p in g.parents
    ensures p in g.index
    ensures var own := (After(g, n)[p].status, After(g, n)[p].notes);
      var next := g.roll(own, Kids(g.order, g.index, p), Seen(g, n, p));
      After(g, n + 1)[p].status == next.0 && After(g, n + 1)[p].notes == next.1
  {
    var i := Place(g.parents, p);
    var mid := Sweep(g.roll, g.order, After(g, n), g.parents[..i]);
    ParentInIndex(g, p);
    LastVisit(g.roll, g.order, After(g, n), g.parents, i);
    FoundStatuses(g, n, i);
    FoundAt(g.roll, g.order, After(g, n), g.parents, i, p);
    AfterShape(g, n);
    SweepShape(g.roll, g.order, After(g, n), g.parents[..i]);
    SameShapeSameKids(g.order, g.index, After(g, n), p);
    SameShapeSameKids(g.order, After(g, n), mid, p);
  }

  /** The status and the notes p holds after n rounds. */
  function Held(g: Loop, n: nat, p: string): (Status, string)
    requires p in g.index
  {
    (After(g, n)[p].status, After(g, n)[p].notes)
  }

  lemma RoundHeld(g: Loop, n: nat, next: nat, p: string)
    requires p in g.parents && p in g.index && next == n + 1
    ensures Held(g, next, p) == g.roll(Held(g, n, p), Kids(g.order, g.index, p), Seen(g, n, p))
  {
    RoundAt(g, n, p);
  }

  function RankAt(g: Loop, n: nat, p: string): nat
    requires p in g.index
  {
    Rank(After(g, n)[p].status)
  }

  /** After a round a parent ranks as the highest of what it read, and shows that rank. */
  lemma RankStep(g: Loop, n: nat, p: string)
    requires p in g.parents
    ensures p in g.index && Highest(Kids(g.order, g.index, p), Seen(g, n, p), RankAt(g, n + 1, p))
    ensures After(g, n + 1)[p].status == ShownRank(RankAt(g, n + 1, p))
  {
    RoundAt(g, n, p);
    ParentInIndex(g, p);
    SeenListed(g, n, p);
    assert Maxes(g.roll, (After(g, n)[p].status, After(g, n)[p].notes), Kids(g.order, g.index, p), Seen(g, n, p));
  }

  lemma RankShown(g: Loop, n: nat, next: nat, p: string)
    requires p in g.parents && p in g.index && next == n + 1
    ensures After(g, next)[p].status == ShownRank(RankAt(g, next, p))
  {
    RankStep(g, n, p);
  }

  lemma {:induction false} LeafStays(g: Loop, n: nat, x: string)
    requires x in g.index && x !in g.parents
    ensures After(g, n)[x] == g.index[x]
  {
    if n > 0 {
      LeafStays(g, n - 1, x);
      Unvisited(g.roll, g.order, After(g, n - 1), g.parents, 0, |g.parents|, x);
      assert g.parents[..|g.parents|] == g.parents && g.parents[..0] == [];
    }
  }
}
