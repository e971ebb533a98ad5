/** Rolling up settles: the sweeps reach one fixpoint, whatever order they visit the parents in. */
module Settling {
  import opened Text
  import opened Forest
  import opened RollUp

  /** The card as bottom-up recursion leaves it. */
  function FinalCard(roll: Rule, order: seq<string>, index: Index, id: string, depth: nat): Card
    requires id in index
  {
    var next := BottomUp(roll, order, index, id, depth);
    index[id].(status := next.0, notes := next.1)
  }

  function FinalIndex(roll: Rule, order: seq<string>, index: Index, depth: nat): Index
  {
    map id | id in index :: FinalCard(roll, order, index, id, depth)
  }

  /** What an acyclic board is: known statuses, ids listed, chains of at most depth links. */
  ghost predicate Board(roll: Rule, order: seq<string>, index: Index, depth: nat)
  {
    Decisive(roll) && Listed(index) && Lists(order, index) && ChainsWithin(LinksOf(index), depth)
  }

  // ---- depth ----

  lemma KidLinks(order: seq<string>, index: Index, p: string, c: string)
    requires c in Kids(order, index, p)
    ensures c in LinksOf(index) && LinksOf(index)[c] == p && p in index && c in index
  {
  }

  lemma ChildLevel(order: seq<string>, index: Index, p: string, c: string, h: nat)
    requires c in Kids(order, index, p) && Below(LinksOf(index), p, h)
    ensures h > 0 && Below(LinksOf(index), c, h - 1)
  {
    KidLinks(order, index, p, c);
    ParentNotBelowZero(LinksOf(index), c);
    if h > 0 { ChildBelow(LinksOf(index), c, h - 1); }
  }

  lemma NoKidLinks(order: seq<string>, index: Index, id: string, c: string)
    requires Lists(order, index) && Kids(order, index, id) == []
    ensures c in LinksOf(index) ==> LinksOf(index)[c] != id
  {
    assert c !in Kids(order, index, id);
  }

  lemma LeafBelow(order: seq<string>, index: Index, id: string)
    requires Lists(order, index) && Kids(order, index, id) == []
    ensures Below(LinksOf(index), id, 0)
  {
    var up := LinksOf(index);
    forall m, k: nat | Up(up, m, k) == Some(id) ensures k <= 0 {
      if k > 0 {
        UpSplit(up, m, k - 1, 1);
        assert Up(up, m, k - 1).Some?;
        NoKidLinks(order, index, id, Up(up, m, k - 1).value);
      }
    }
  }

  /** The bottom-up result of id is already reached h levels deep. */
  ghost predicate Reached(roll: Rule, order: seq<string>, index: Index, id: string, h: nat, depth: nat)
  {
    BottomUp(roll, order, index, id, h) == BottomUp(roll, order, index, id, depth)
  }

  ghost predicate AllReached(roll: Rule, order: seq<string>, index: Index, ids: seq<string>, h: nat, depth: nat)
  {
    forall c {:trigger Reached(roll, order, index, c, h, depth)} :: c in ids ==> Reached(roll, order, index, c, h, depth)
  }

  lemma LeafReached(roll: Rule, order: seq<string>, index: Index, id: string, h: nat, depth: nat)
    requires Kids(order, index, id) == []
    ensures Reached(roll, order, index, id, h, depth)
  {
  }

  lemma KidsAgree(roll: Rule, order: seq<string>, index: Index, kids: seq<string>, h: nat, depth: nat)
    requires Decisive(roll) && Listed(index) && AllReached(roll, order, index, kids, h, depth)
    ensures Agree(kids, Computed(roll, order, index, kids, h), Computed(roll, order, index, kids, depth))
  {
    var a, b := Computed(roll, order, index, kids, h), Computed(roll, order, index, kids, depth);
    forall c | c in kids ensures c in a && c in b && a[c] == b[c] && !a[c].Unlisted? {
      assert Reached(roll, order, index, c, h, depth);
      ComputedAt(roll, order, index, kids, h, c);
      ComputedAt(roll, order, index, kids, depth, c);
      BottomUpListed(roll, order, index, c, h);
    }
  }

  lemma ParentReached(roll: Rule, order: seq<string>, index: Index, id: string, h: nat, depth: nat, kids: seq<string>)
    requires Decisive(roll) && Listed(index) && kids == Kids(order, index, id) && kids != []
    requires AllReached(roll, order, index, kids, h, depth)
    ensures Reached(roll, order, index, id, h + 1, depth + 1)
  {
    KidsAgree(roll, order, index, kids, h, depth);
    RollSame(roll, Own(index, id), Own(index, id), kids, Computed(roll, order, index, kids, h), Computed(roll, order, index, kids, depth));
  }

  lemma {:induction false} ReachedByDepth(roll: Rule, order: seq<string>, index: Index, id: string, h: nat, depth: nat)
    requires Decisive(roll) && Listed(index) && Below(LinksOf(index), id, h) && h <= depth
    ensures Reached(roll, order, index, id, h, depth)
    decreases h, 1
  {
    var kids := Kids(order, index, id);
    if kids == [] {
      LeafReached(roll, order, index, id, h, depth);
    } else {
      ChildLevel(order, index, id, kids[0], h);
      KidsReached(roll, order, index, id, h - 1, depth - 1, kids);
      ParentReached(roll, order, index, id, h - 1, depth - 1, kids);
    }
  }

  lemma {:induction false} KidsReached(
    roll: Rule, order: seq<string>, index: Index, p: string, h: nat, depth: nat, kids: seq<string>)
    requires Decisive(roll) && Listed(index) && Below(LinksOf(index), p, h + 1) && h <= depth
    requires kids == Kids(order, index, p)
    ensures AllReached(roll, order, index, kids, h, depth)
    decreases h, 2
  {
    forall c | c in kids ensures Reached(roll, order, index, c, h, depth) {
      ChildLevel(order, index, p, c, h + 1);
      ReachedByDepth(roll, order, index, c, h, depth);
    }
  }

  /** Recursing deeper than the chains reach changes nothing. */
  lemma EnoughDepth(roll: Rule, order: seq<string>, index: Index, id: string, h: nat, depth: nat)
    requires Decisive(roll) && Listed(index) && Below(LinksOf(index), id, h) && h <= depth
    ensures BottomUp(roll, order, index, id, h) == BottomUp(roll, order, index, id, depth)
  {
    ReachedByDepth(roll, order, index, id, h, depth);
  }

  /** st gives each kid of p its final status. */
  ghost predicate FinalKids(roll: Rule, order: seq<string>, index: Index, p: string, depth: nat, st: Statuses)
  {
    forall c :: c in Kids(order, index, p) ==> c in st && st[c] == BottomUp(roll, order, index, c, depth).0
  }

  /** A parent's final status rolls up its children's final statuses, whatever it held before. */
  lemma FinalUnfolds(roll: Rule, order: seq<string>, index: Index, p: string, depth: nat, own: (Status, string), st: Statuses)
    requires Board(roll, order, index, depth) && Kids(order, index, p) != [] && FinalKids(roll, order, index, p, depth, st)
    ensures BottomUp(roll, order, index, p, depth) == roll(own, Kids(order, index, p), st)
  {
    var kids := Kids(order, index, p);
    assert Below(LinksOf(index), p, depth);
    ChildLevel(order, index, p, kids[0], depth);
    KidsFinal(roll, order, index, p, depth, st);
    RollSame(roll, Own(index, p), own, kids, Computed(roll, order, index, kids, depth - 1), st);
  }

  lemma KidFinal(roll: Rule, order: seq<string>, index: Index, p: string, depth: nat, c: string)
    requires Board(roll, order, index, depth) && depth > 0 && c in Kids(order, index, p)
    ensures BottomUp(roll, order, index, c, depth - 1) == BottomUp(roll, order, index, c, depth)
    ensures !BottomUp(roll, order, index, c, depth).0.Unlisted?
  {
    assert Below(LinksOf(index), p, depth);
    ChildLevel(order, index, p, c, depth);
    EnoughDepth(roll, order, index, c, depth - 1, depth);
    BottomUpListed(roll, order, index, c, depth);
  }

  lemma KidsFinal(roll: Rule, order: seq<string>, index: Index, p: string, depth: nat, st: Statuses)
    requires Board(roll, order, index, depth) && depth > 0 && FinalKids(roll, order, index, p, depth, st)
    ensures Agree(Kids(order, index, p), Computed(roll, order, index, Kids(order, index, p), depth - 1), st)
  {
    var kids := Kids(order, index, p);
    var a := Computed(roll, order, index, kids, depth - 1);
    forall c | c in kids ensures c in a && c in st && a[c] == st[c] && !a[c].Unlisted? {
      ComputedAt(roll, order, index, kids, depth - 1, c);
      KidFinal(roll, order, index, p, depth, c);
    }
  }

  // ---- one round ----

  /** cur is the board part-way: cards differ from the start in status and notes only. */
  ghost predicate Reworked(index: Index, cur: Index)
  {
    cur.Keys == index.Keys
    && forall id :: id in index ==> cur[id] == index[id].(status := cur[id].status, notes := cur[id].notes)
  }

  /** Every card with at most r links below it is final. */
  ghost predicate SettledBelow(roll: Rule, order: seq<string>, index: Index, cur: Index, depth: nat, r: nat)
  {
    forall id :: id in index && id in cur && Below(LinksOf(index), id, r) ==> cur[id] == FinalCard(roll, order, index, id, depth)
  }

  /** A board reached after r rounds. */
  ghost predicate Progress(roll: Rule, order: seq<string>, index: Index, cur: Index, depth: nat, r: nat)
  {
    Reworked(index, cur) && SettledBelow(roll, order, index, cur, depth, r)
  }

  /** Visiting a card one level above the settled ones settles it. */
  lemma VisitSettles(roll: Rule, order: seq<string>, index: Index, cur: Index, depth: nat, r: nat, p: string)
    requires Board(roll, order, index, depth) && Progress(roll, order, index, cur, depth, r)
    requires p in index && Below(LinksOf(index), p, r + 1)
    ensures Visit(roll, order, cur, p)[p] == FinalCard(roll, order, index, p, depth)
  {
    assert SameShape(index, cur);
    SameShapeSameKids(order, index, cur, p);
    var kids := Kids(order, index, p);
    if kids == [] {
      LeafBelow(order, index, p);
      assert Below(LinksOf(index), p, r);
    } else {
      forall c | c in kids ensures c in cur && cur[c].status == BottomUp(roll, order, index, c, depth).0 {
        ChildLevel(order, index, p, c, r + 1);
        KidLinks(order, index, p, c);
      }
      FinalUnfolds(roll, order, index, p, depth, (cur[p].status, cur[p].notes), StatusesOf(cur));
    }
  }

  lemma BelowMore(up: Links, id: string, r: nat)
    requires Below(up, id, r)
    ensures Below(up, id, r + 1)
  {
  }

  lemma VisitKeeps(roll: Rule, order: seq<string>, index: Index, cur: Index, depth: nat, r: nat, p: string)
    requires Board(roll, order, index, depth) && Progress(roll, order, index, cur, depth, r)
    ensures Progress(roll, order, index, Visit(roll, order, cur, p), depth, r)
  {
    if p in index && Below(LinksOf(index), p, r) {
      BelowMore(LinksOf(index), p, r);
      VisitSettles(roll, order, index, cur, depth, r, p);
    }
  }

  /** A round settles every visited card one level further up, in whatever order it visits. */
  lemma {:induction false} SweepSettles(roll: Rule, order: seq<string>, index: Index, cur: Index, depth: nat, r: nat, parents: seq<string>)
    requires Board(roll, order, index, depth) && Progress(roll, order, index, cur, depth, r)
    ensures var out := Sweep(roll, order, cur, parents);
      && Progress(roll, order, index, out, depth, r)
      && forall p :: p in parents && p in index && Below(LinksOf(index), p, r + 1) ==> out[p] == FinalCard(roll, order, index, p, depth)
  {
    if |parents| > 0 {
      var front, last := parents[..|parents| - 1], parents[|parents| - 1];
      var mid := Sweep(roll, order, cur, front);
      SweepSettles(roll, order, index, cur, depth, r, front);
      VisitKeeps(roll, order, index, mid, depth, r, last);
      forall p | p in parents && p in index && Below(LinksOf(index), p, r + 1)
        ensures Visit(roll, order, mid, last)[p] == FinalCard(roll, order, index, p, depth)
      {
        if p == last { VisitSettles(roll, order, index, mid, depth, r, p); }
      }
    }
  }

  lemma RoundSettles(roll: Rule, order: seq<string>, index: Index, cur: Index, depth: nat, r: nat, parents: seq<string>)
    requires Board(roll, order, index, depth) && CoversParents(parents, index)
    requires Progress(roll, order, index, cur, depth, r)
    ensures Progress(roll, order, index, Sweep(roll, order, cur, parents), depth, r + 1)
  {
    SweepSettles(roll, order, index, cur, depth, r, parents);
    var out := Sweep(roll, order, cur, parents);
    forall id | id in index && id in out && Below(LinksOf(index), id, r + 1)
      ensures out[id] == FinalCard(roll, order, index, id, depth)
    {
      var kids := Kids(order, index, id);
      if kids == [] {
        LeafBelow(order, index, id);
        assert Below(LinksOf(index), id, r);
      } else {
        assert kids[0] in kids;
        assert id in parents;
      }
    }
  }

  // ---- the loop ----

  lemma StartSettled(roll: Rule, order: seq<string>, index: Index, depth: nat)
    requires Board(roll, order, index, depth)
    ensures Progress(roll, order, index, index, depth, 0)
  {
    forall id | id in index && Below(LinksOf(index), id, 0)
      ensures index[id] == FinalCard(roll, order, index, id, depth)
    {
      if Kids(order, index, id) != [] {
        ChildLevel(order, index, id, Kids(order, index, id)[0], 0);
      }
    }
  }

  /** n rounds settle every card with at most n links below it. */
  ghost predicate SettledAfter(roll: Rule, order: seq<string>, index: Index, parents: seq<string>, depth: nat, n: nat)
  {
    Progress(roll, order, index, Sweeps(roll, order, index, parents, n), depth, n)
  }

  lemma NextRound(roll: Rule, order: seq<string>, index: Index, parents: seq<string>, depth: nat, n: nat)
    requires Board(roll, order, index, depth) && CoversParents(parents, index)
    requires SettledAfter(roll, order, index, parents, depth, n)
    ensures SettledAfter(roll, order, index, parents, depth, n + 1)
  {
    RoundSettles(roll, order, index, Sweeps(roll, order, index, parents, n), depth, n, parents);
  }

  ghost predicate Carries(P: nat -> bool, k: nat)
  {
    P(k) ==> P(k + 1)
  }

  lemma {:induction false} Naturals(P: nat -> bool, n: nat)
    requires P(0) && forall k: nat :: Carries(P, k)
    ensures P(n)
  {
    if n > 0 {
      Naturals(P, n - 1);
      assert Carries(P, n - 1);
    }
  }

  /** That the first k rounds settle what they can, for every k. */
  ghost function SettledRounds(roll: Rule, order: seq<string>, index: Index, parents: seq<string>, depth: nat): nat -> bool
  {
    (k: nat) => SettledAfter(roll, order, index, parents, depth, k)
  }

  lemma RoundCarries(roll: Rule, order: seq<string>, index: Index, parents: seq<string>, depth: nat, k: nat)
    requires Board(roll, order, index, depth) && CoversParents(parents, index)
    ensures Carries(SettledRounds(roll, order, index, parents, depth), k)
  {
    if SettledAfter(roll, order, index, parents, depth, k) {
      NextRound(roll, order, index, parents, depth, k);
    }
  }

  lemma StartCarries(roll: Rule, order: seq<string>, index: Index, parents: seq<string>, depth: nat)
    requires Board(roll, order, index, depth)
    ensures SettledRounds(roll, order, index, parents, depth)(0)
  {
    StartSettled(roll, order, index, depth);
  }

  lemma SweepsSettle(roll: Rule, order: seq<string>, index: Index, parents: seq<string>, depth: nat, n: nat)
    requires Board(roll, order, index, depth) && CoversParents(parents, index)
    ensures SettledAfter(roll, order, index, parents, depth, n)
  {
    var P := SettledRounds(roll, order, index, parents, depth);
    StartCarries(roll, order, index, parents, depth);
    forall k: nat ensures Carries(P, k) { RoundCarries(roll, order, index, parents, depth, k); }
    Naturals(P, n);
    assert P(n);
  }

  lemma AllSettled(roll: Rule, order: seq<string>, index: Index, cur: Index, depth: nat, n: nat)
    requires ChainsWithin(LinksOf(index), depth) && n >= depth
    requires Progress(roll, order, index, cur, depth, n)
    ensures cur == FinalIndex(roll, order, index, depth)
  {
    forall id | id in index ensures Below(LinksOf(index), id, n) {
    }
  }

  /** As many rounds as the longest chain has links reach the bottom-up result, and a further round leaves
      it unchanged. */
  lemma SweepsReachFinal(roll: Rule, order: seq<string>, index: Index, parents: seq<string>, depth: nat, n: nat)
    requires Board(roll, order, index, depth) && CoversParents(parents, index) && n >= depth
    ensures Sweeps(roll, order, index, parents, n) == FinalIndex(roll, order, index, depth)
    ensures Sweep(roll, order, FinalIndex(roll, order, index, depth), parents) == FinalIndex(roll, order, index, depth)
  {
    SweepsSettle(roll, order, index, parents, depth, n);
    AllSettled(roll, order, index, Sweeps(roll, order, index, parents, n), depth, n);
    SweepsSettle(roll, order, index, parents, depth, n + 1);
    AllSettled(roll, order, index, Sweeps(roll, order, index, parents, n + 1), depth, n + 1);
  }

  /** The result does not depend on the order in which parents are visited. */
  lemma OrderIndependent(roll: Rule, order: seq<string>, index: Index, ps: seq<string>, qs: seq<string>, depth: nat, n: nat)
    requires Board(roll, order, index, depth) && CoversParents(ps, index) && CoversParents(qs, index) && n >= depth
    ensures Sweeps(roll, order, index, ps, n) == Sweeps(roll, order, index, qs, n)
  {
    SweepsReachFinal(roll, order, index, ps, depth, n);
    SweepsReachFinal(roll, order, index, qs, depth, n);
  }

  /** No visit changes the board. */
  ghost predicate Stable(roll: Rule, order: seq<string>, cur: Index)
  {
    forall p :: p in cur ==> Visit(roll, order, cur, p) == cur
  }

  lemma {:induction false} StableIsFinal(roll: Rule, order: seq<string>, index: Index, cur: Index, depth: nat, id: string, h: nat)
    requires Board(roll, order, index, depth) && Reworked(index, cur) && Stable(roll, order, cur)
    requires forall l :: l in index && Kids(order, index, l) == [] ==> cur[l] == index[l]
    requires id in index && Below(LinksOf(index), id, h)
    ensures cur[id] == FinalCard(roll, order, index, id, depth)
    decreases h
  {
    var kids := Kids(order, index, id);
    if kids != [] {
      assert SameShape(index, cur);
      SameShapeSameKids(order, index, cur, id);
      forall c | c in kids ensures c in cur && cur[c].status == BottomUp(roll, order, index, c, depth).0 {
        ChildLevel(order, index, id, c, h);
        KidLinks(order, index, id, c);
        StableIsFinal(roll, order, index, cur, depth, c, h - 1);
      }
      FinalUnfolds(roll, order, index, id, depth, (cur[id].status, cur[id].notes), StatusesOf(cur));
      assert Visit(roll, order, cur, id)[id] == cur[id];
    }
  }

  lemma FinalIsStable(roll: Rule, order: seq<string>, index: Index, depth: nat, p: string)
    requires Board(roll, order, index, depth) && p in index
    ensures var cur := FinalIndex(roll, order, index, depth); Visit(roll, order, cur, p) == cur
  {
    var cur := FinalIndex(roll, order, index, depth);
    assert Progress(roll, order, index, cur, depth, depth);
    assert Below(LinksOf(index), p, depth + 1);
    VisitSettles(roll, order, index, cur, depth, depth, p);
  }

  /** The fixpoint is unique: a board that keeps the cards without children is one that no visit changes
      exactly when it is the bottom-up result. */
  lemma FixpointUnique(roll: Rule, order: seq<string>, index: Index, cur: Index, depth: nat)
    requires Board(roll, order, index, depth) && Reworked(index, cur)
    requires forall l :: l in index && Kids(order, index, l) == [] ==> cur[l] == index[l]
    ensures Stable(roll, order, cur) <==> cur == FinalIndex(roll, order, index, depth)
  {
    if Stable(roll, order, cur) {
      forall id | id in index ensures cur[id] == FinalCard(roll, order, index, id, depth) {
        assert Below(LinksOf(index), id, depth);
        StableIsFinal(roll, order, index, cur, depth, id, depth);
      }
      assert cur == FinalIndex(roll, order, index, depth);
    }
    if cur == FinalIndex(roll, order, index, depth) {
      forall p | p in cur ensures Visit(roll, order, cur, p) == cur {
        FinalIsStable(roll, order, index, depth, p);
      }
    }
  }
}
