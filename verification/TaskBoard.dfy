/** The task index of a workspace and the operations that edit it (pc_launcher/artifact_workspace.py). */
module TaskBoard {
  import opened Text
  import opened Forest
  import opened TaskKeys
  import opened RollUp
  import opened Settling
  import opened ClosedForm
  import opened Rounds
  import opened Rests
  import opened FinalRanks
  import opened Schedules
  import opened TaskEdits

  // ---- what a round changes ----

  /** The parents whose card a round over ps changes. */
  function Touched(roll: Rule, order: seq<string>, start: Index, ps: seq<string>): (r: set<string>)
    ensures forall p :: p in r ==> p in ps
  {
    if |ps| == 0 then {}
    else
      var front, last := ps[..|ps| - 1], ps[|ps| - 1];
      var cur := Sweep(roll, order, start, front);
      Touched(roll, order, start, front) + if Visit(roll, order, cur, last) != cur then {last} else {}
  }

  lemma TouchedSnoc(roll: Rule, order: seq<string>, start: Index, ps: seq<string>, p: string)
    ensures var cur := Sweep(roll, order, start, ps);
      && Sweep(roll, order, start, ps + [p]) == Visit(roll, order, cur, p)
      && Touched(roll, order, start, ps + [p])
         == Touched(roll, order, start, ps) + if Visit(roll, order, cur, p) != cur then {p} else {}
  {
    assert (ps + [p])[..|ps|] == ps;
  }

  lemma {:induction false} UntouchedCardStays(roll: Rule, order: seq<string>, start: Index, ps: seq<string>, id: string)
    requires id in start && id !in Touched(roll, order, start, ps)
    ensures Sweep(roll, order, start, ps)[id] == start[id]
  {
    if |ps| > 0 { UntouchedCardStays(roll, order, start, ps[..|ps| - 1], id); }
  }

  /** A round changes exactly the cards it touches: no parent is visited twice. */
  lemma {:induction false} TouchedIff(roll: Rule, order: seq<string>, start: Index, ps: seq<string>, p: string)
    requires Distinct(ps)
    ensures p in Touched(roll, order, start, ps) <==> p in start && Sweep(roll, order, start, ps)[p] != start[p]
  {
    if |ps| > 0 {
      var front, last := ps[..|ps| - 1], ps[|ps| - 1];
      TouchedIff(roll, order, start, front, p);
      if p == last && p in start {
        assert p !in front;
        UntouchedCardStays(roll, order, start, front, p);
      }
    }
  }

  /** Round k + 1 changes the card of p. */
  ghost predicate Moves(g: Loop, k: nat, p: string)
  {
    p in g.index && After(g, k + 1)[p] != After(g, k)[p]
  }

  /** The cards some round before n changes. */
  ghost predicate MovedBefore(g: Loop, n: nat, p: string)
  {
    exists k: nat :: k < n && Moves(g, k, p)
  }

  ghost predicate NotYet(g: Loop, n: nat)
  {
    forall k: nat :: k < n ==> !AtRest(g, k)
  }

  /** The loop still going after n rounds: what the board is, and which cards have changed. */
  ghost predicate Going(g: Loop, n: nat, cur: Index, changed: set<string>)
  {
    cur == After(g, n) && ChangedAre(g, n, changed) && NotYet(g, n)
  }

  /** The loop ended by the first round that changed nothing, after n that did. */
  ghost predicate Ended(g: Loop, n: nat, cur: Index, changed: set<string>)
  {
    cur == After(g, n) && ChangedAre(g, n, changed) && AtRest(g, n) && NotYet(g, n)
  }

  lemma MovedStep(g: Loop, n: nat, p: string)
    ensures MovedBefore(g, n + 1, p) <==> MovedBefore(g, n, p) || Moves(g, n, p)
  {
    if Moves(g, n, p) { assert MovedBefore(g, n + 1, p); }
  }

  lemma TouchedMoves(g: Loop, n: nat, p: string)
    ensures p in Touched(g.roll, g.order, After(g, n), g.parents) <==> Moves(g, n, p)
  {
    TouchedIff(g.roll, g.order, After(g, n), g.parents, p);
  }

  lemma AtRestIffStill(g: Loop, n: nat)
    ensures AtRest(g, n) <==> forall p :: !Moves(g, n, p)
  {
    if forall p :: !Moves(g, n, p) {
      forall p | p in g.index ensures After(g, n + 1)[p] == After(g, n)[p] { assert !Moves(g, n, p); }
      assert After(g, n + 1) == After(g, n);
    }
  }

  lemma QuietIffAtRest(g: Loop, n: nat)
    ensures Touched(g.roll, g.order, After(g, n), g.parents) == {} <==> AtRest(g, n)
  {
    forall p ensures p in Touched(g.roll, g.order, After(g, n), g.parents) <==> Moves(g, n, p) { TouchedMoves(g, n, p); }
    AtRestIffStill(g, n);
    if Touched(g.roll, g.order, After(g, n), g.parents) != {} {
      var p :| p in Touched(g.roll, g.order, After(g, n), g.parents);
      assert Moves(g, n, p);
    }
  }

  ghost predicate ChangedAre(g: Loop, n: nat, changed: set<string>)
  {
    forall p :: p in changed <==> MovedBefore(g, n, p)
  }

  lemma ChangedStep(g: Loop, n: nat, next: nat, changed: set<string>)
    requires ChangedAre(g, n, changed) && next == n + 1
    ensures ChangedAre(g, next, changed + Touched(g.roll, g.order, After(g, n), g.parents))
  {
    forall p ensures p in changed + Touched(g.roll, g.order, After(g, n), g.parents) <==> MovedBefore(g, next, p) {
      MovedStep(g, n, p);
      TouchedMoves(g, n, p);
    }
  }

  lemma StillGoing(g: Loop, n: nat, next: nat, cur: Index, changed: set<string>)
    requires Going(g, n, cur, changed) && next == n + 1 && Touched(g.roll, g.order, cur, g.parents) != {}
    ensures Going(g, next, Sweep(g.roll, g.order, cur, g.parents), changed + Touched(g.roll, g.order, cur, g.parents))
  {
    ChangedStep(g, n, next, changed);
    QuietIffAtRest(g, n);
    NotYetStep(g, n, next);
    NextBoard(g, n, next);
  }

  lemma NotYetStep(g: Loop, n: nat, next: nat)
    requires NotYet(g, n) && !AtRest(g, n) && next == n + 1
    ensures NotYet(g, next)
  {
  }

  lemma NextBoard(g: Loop, n: nat, next: nat)
    requires next == n + 1
    ensures After(g, next) == Sweep(g.roll, g.order, After(g, n), g.parents)
  {
  }

  lemma NowEnded(g: Loop, n: nat, cur: Index, changed: set<string>)
    requires Going(g, n, cur, changed) && Touched(g.roll, g.order, cur, g.parents) == {}
    ensures Ended(g, n, Sweep(g.roll, g.order, cur, g.parents), changed + Touched(g.roll, g.order, cur, g.parents))
  {
    QuietIffAtRest(g, n);
    NextBoard(g, n, n + 1);
    assert changed + {} == changed;
  }

  /** On an agreeing board the loop has not gone past the horizon. */
  lemma LoopBound(g: Loop, n: nat)
    requires Agreeing(g) && NotYet(g, n)
    ensures n <= Horizon(g) + 1
  {
    RestsIff(g);
    assert AtRest(g, Horizon(g) + 1);
  }

  /** What the loop leaves when it ends. */
  lemma LoopEnds(g: Loop, n: nat, cur: Index, changed: set<string>)
    requires Agreeing(g) && Ended(g, n, cur, changed)
    ensures n <= Horizon(g) + 1 && cur == Stop(g)
    ensures changed == {} <==> AtRest(g, 0)
  {
    LoopBound(g, n);
    StaysAtRest(g, n, Horizon(g) + 1);
    if n == 0 { NothingMoved(g, changed); } else { SomethingMoved(g, n, changed); }
  }

  lemma NothingMoved(g: Loop, changed: set<string>)
    requires ChangedAre(g, 0, changed)
    ensures changed == {}
  {
    forall p ensures p !in changed { assert !MovedBefore(g, 0, p); }
  }

  lemma SomethingMoved(g: Loop, n: nat, changed: set<string>)
    requires n > 0 && NotYet(g, n) && ChangedAre(g, n, changed)
    ensures changed != {} && !AtRest(g, 0)
  {
    AtRestIffStill(g, 0);
    var p :| Moves(g, 0, p);
    assert MovedBefore(g, n, p);
  }

  /** The loop before a round, or after the last one: rounds counts those that changed something. */
  datatype At = At(rounds: nat, board: Index, changed: set<string>, again: bool)

  /** What holds at each of them: while it goes on Going, and at the end Ended. */
  ghost function Outcomes(g: Loop): At -> bool
  {
    (a: At) => if a.again then Going(g, a.rounds, a.board, a.changed) else Ended(g, a.rounds, a.board, a.changed)
  }

  lemma InvariantStarts(g: Loop)
    ensures Outcomes(g)(At(0, g.index, {}, true))
  {
    assert After(g, 0) == g.index;
    assert ChangedAre(g, 0, {});
  }

  lemma InvariantGoesOn(g: Loop, n: nat, next: nat, cur: Index, changed: set<string>)
    requires Outcomes(g)(At(n, cur, changed, true)) && next == n + 1 && Touched(g.roll, g.order, cur, g.parents) != {}
    ensures Outcomes(g)(At(next, Sweep(g.roll, g.order, cur, g.parents), changed + Touched(g.roll, g.order, cur, g.parents), true))
  {
    StillGoing(g, n, next, cur, changed);
  }

  lemma InvariantRests(g: Loop, n: nat, cur: Index, changed: set<string>)
    requires Outcomes(g)(At(n, cur, changed, true)) && Touched(g.roll, g.order, cur, g.parents) == {}
    ensures Outcomes(g)(At(n, Sweep(g.roll, g.order, cur, g.parents), changed + Touched(g.roll, g.order, cur, g.parents), false))
  {
    NowEnded(g, n, cur, changed);
  }

  lemma InvariantBound(g: Loop, n: nat, cur: Index, changed: set<string>)
    requires Agreeing(g) && Outcomes(g)(At(n, cur, changed, true))
    ensures n <= Horizon(g) + 1 && SameShape(g.index, cur)
  {
    LoopBound(g, n);
    AfterShape(g, n);
  }

  lemma InvariantEnds(g: Loop, n: nat, cur: Index, changed: set<string>)
    requires Agreeing(g) && Outcomes(g)(At(n, cur, changed, false))
    ensures n <= Horizon(g) + 1
    ensures cur == Stop(g) && (changed == {} <==> AtRest(g, 0))
  {
    LoopEnds(g, n, cur, changed);
  }

  lemma AcyclicAtRest(g: Loop, depth: nat)
    requires ChainsWithin(LinksOf(g.index), depth)
    ensures AtRest(g, depth) && After(g, depth) == FinalIndex(g.roll, g.order, g.index, depth)
  {
    ScheduleCovers(g);
    SweepsReachFinal(g.roll, g.order, g.index, g.parents, depth, depth);
    SweepsReachFinal(g.roll, g.order, g.index, g.parents, depth, depth + 1);
  }

  /** Without cycles it ends after no more rounds that change something than the longest chain has links, in the
      bottom-up result. */
  lemma LoopEndsAcyclic(g: Loop, n: nat, cur: Index, changed: set<string>, depth: nat)
    requires Ended(g, n, cur, changed) && ChainsWithin(LinksOf(g.index), depth)
    ensures n <= depth && cur == FinalIndex(g.roll, g.order, g.index, depth)
  {
    AcyclicAtRest(g, depth);
    StaysAtRest(g, n, depth);
  }

  // ---- boards without cycles ----

  /** Known statuses and no dependency cycle. */
  ghost predicate Forested(book: Book)
  {
    Known(book.order, book.index) && Acyclic(LinksOf(book.index))
  }

  lemma ForestSettles(book: Book)
    requires Forested(book)
    ensures Settles(book.order, book.index)
    ensures Rolled(book.order, book.index) == FinalIndex(RollUpStatus, book.order, book.index, |LinksOf(book.index)|)
    ensures Forested(Book(book.order, Rolled(book.order, book.index)))
  {
    AcyclicSettles(book.order, book.index);
    RolledKnown(book.order, book.index);
    SameShapeSameLinks(book.order, book.index, Rolled(book.order, book.index));
  }

  lemma PutKnown(book: Book, id: string, card: Card)
    requires Known(book.order, book.index) && !card.status.Unlisted?
    ensures var out := Put(book, id, card); Known(out.order, out.index)
  {
    assert forall x :: x in book.order + [id] <==> x in book.order || x == id;
  }

  lemma PutForested(book: Book, id: string, card: Card)
    requires Forested(book) && !card.status.Unlisted?
    requires card.dependsOn == if id in book.index then book.index[id].dependsOn else None
    ensures Forested(Put(book, id, card))
  {
    PutKeepsAcyclic(book, id, card);
    PutKnown(book, id, card);
  }

  lemma FinishedForested(book: Book, id: string, agent: string, outcome: (Status, string))
    requires Forested(book) && !outcome.0.Unlisted?
    ensures Forested(Finished(book, id, agent, outcome))
  {
    if id in book.index { PutForested(book, id, book.index[id].(owner := agent, status := outcome.0, notes := outcome.1)); }
  }

  lemma KnownFiled(book: Book, r: Request, source: string, parent: Option<string>)
    requires Known(book.order, book.index)
    ensures var out := File(book, r, source, parent); Known(out.order, out.index)
  {
    PutKnown(book, ChosenId(book, r), Filed(book, r, source, parent));
  }

  lemma SelfLinkRings(up: Links, c: string, p: string, l: nat)
    requires Acyclic(up) && c !in up && Turn(up[c := c], p, l)
    ensures l == 1
  {
    var now := up[c := c];
    assert Up(now, c, 1) == Up(now, c, 0) == Some(c);
    if p != c {
      AddedLinkPath(up, c, c, p, l);
      var i: nat :| i < l && Up(up, p, i) == Some(c);
      OldPathStays(up, c, c, p, i);
      UpSplit(now, p, i, l - i);
      StaysHome(now, c, l - i);
    }
  }

  lemma {:induction false} StaysHome(up: Links, c: string, k: nat)
    requires c in up && up[c] == c
    ensures Up(up, c, k) == Some(c)
  {
    if k > 0 { StaysHome(up, c, k - 1); }
  }

  /** A run that hands its own root task over again makes the card depend on itself, and the loop still ends. */
  lemma SelfHandoffSettles(book: Book, r: Request, source: string, task: string)
    requires Forested(book) && task != "" && r.taskId == Some(task) && task in book.index && !Given(book.index[task].dependsOn)
    ensures var out := File(book, r, source, Some(task));
      && Settles(out.order, out.index) && !Acyclic(LinksOf(out.index))
  {
    var out := File(book, r, source, Some(task));
    KnownFiled(book, r, source, Some(task));
    FiledDepends(book, r, source, Some(task));
    MissingClosesNoCycle(book.index);
    var up := Depends(book.index);
    assert Depends(out.index) == up[task := task];
    forall p, l: nat | Turn(LinksOf(out.index), p, l) ensures l <= 2 {
      DependsTurn(out.index, p, l);
      SelfLinkRings(up, task, p, l);
    }
    SmallRingsSettle(out.order, out.index);
    assert Up(LinksOf(out.index), task, 1) == Up(LinksOf(out.index), task, 0);
  }

  lemma DependsTurn(index: Index, p: string, l: nat)
    requires Turn(LinksOf(index), p, l)
    ensures Turn(Depends(index), p, l)
  {
    UpInIndex(index, p, l);
    assert p in index by { UpSplit(LinksOf(index), p, l - 1, 1); }
    forall j: nat | 0 < j < l ensures Up(Depends(index), p, j) != Some(p) {
      if Up(Depends(index), p, j) == Some(p) { UpInDepends(index, p, j, p); }
    }
  }

  // ---- what a settled board says ----

  lemma FinishedSameLeaves(book: Book, t: string, agent: string, outcome: (Status, string))
    requires IsParent(book.order, book.index, t)
    ensures Finished(book, t, agent, outcome).order == book.order
    ensures SameLeaves(book.order, book.index, Finished(book, t, agent, outcome).index)
  {
    var after := Finished(book, t, agent, outcome);
    assert Kids(book.order, book.index, t)[0] in Kids(book.order, book.index, t);
    assert SameShape(book.index, after.index);
  }

  /** Boards without cycles with the same leaves roll up to the same statuses and notes. */
  lemma SameLeavesRollAlike(order: seq<string>, a: Index, b: Index, id: string)
    requires Forested(Book(order, a)) && Forested(Book(order, b)) && SameLeaves(order, a, b) && id in a
    ensures id in b && Rolled(order, a)[id].status == Rolled(order, b)[id].status
    ensures Rolled(order, a)[id].notes == Rolled(order, b)[id].notes
  {
    ForestSettles(Book(order, a));
    ForestSettles(Book(order, b));
    SameShapeSameLinks(order, a, b);
    RollUpIsDecisive();
    AcyclicIffBounded(LinksOf(a));
    LeavesDecide(RollUpStatus, order, a, b, id, |LinksOf(a)|);
  }

  /** Finishing a run of a task that has children changes no status and no note on the rolled-up board. */
  lemma FinishingParentIsMoot(
    book: Book, t: string, agent: string, questions: seq<string>, routes: seq<string>, report: string, id: string)
    requires Forested(book) && IsParent(book.order, book.index, t) && id in book.index
    ensures var after := Finished(book, t, agent, Outcome(questions, routes, report));
      && Known(after.order, after.index) && id in after.index
      && Rolled(after.order, after.index)[id].status == Rolled(book.order, book.index)[id].status
      && Rolled(after.order, after.index)[id].notes == Rolled(book.order, book.index)[id].notes
  {
    var after := Finished(book, t, agent, Outcome(questions, routes, report));
    FinishedForested(book, t, agent, Outcome(questions, routes, report));
    FinishedSameLeaves(book, t, agent, Outcome(questions, routes, report));
    SameLeavesRollAlike(book.order, book.index, after.index, id);
  }

  ghost predicate IsParent(order: seq<string>, index: Index, p: string)
  {
    Kids(order, index, p) != []
  }

  /** On every board on which the loop ends a parent shows a status exactly when that is the highest rank among the
      first statuses of the cards below it that have no children and, if it is on a ring, of those that lead to it and
      are read before they are visited. */
  lemma RolledParentStatus(book: Book, p: string, r: nat)
    requires Settles(book.order, book.index) && IsParent(book.order, book.index, p) && r <= 3
    ensures p in book.index
    ensures Rolled(book.order, book.index)[p].status == ShownRank(r) <==> TopBearing(LoopOf(book.order, book.index), p, r)
  {
    var g := LoopOf(book.order, book.index);
    ParentIff(g, p);
    ParentInIndex(g, p);
    StopsShowing(g, p, r);
  }

  /** Without cycles it shows the highest rank among its leaf descendants, and only that. */
  lemma ForestParentStatus(book: Book, p: string, r: nat)
    requires Forested(book) && IsParent(book.order, book.index, p) && r <= 3
    ensures p in book.index
    ensures Rolled(book.order, book.index)[p].status == ShownRank(r) <==> TopLeaf(book.order, book.index, p, r)
  {
    var g := LoopOf(book.order, book.index);
    ForestSettles(book);
    ParentIff(g, p);
    AcyclicTop(g, p, r);
    RolledParentStatus(book, p, r);
  }

  /** On a settled board, with or without rings, a card ranks no lower than the cards that depend on it. */
  lemma KidRanksLower(g: Loop, n: nat, p: string, c: string)
    requires RanksRest(g, n) && n > 0 && c in Kids(g.order, g.index, p)
    ensures c in g.index && p in g.index && RankAt(g, n, c) <= RankAt(g, n, p)
  {
    KidLinks(g.order, g.index, p, c);
    ParentIff(g, p);
    RankStep(g, n, p);
    ReadRests(g, n, n, p, c);
    assert Rank(Seen(g, n, p)[c]) <= RankAt(g, n + 1, p) == RankAt(g, n, p);
  }

  lemma {:induction false} BelowRanksLower(g: Loop, n: nat, d: string, p: string, k: nat)
    requires RanksRest(g, n) && n > 0 && d in g.index && Up(LinksOf(g.index), d, k) == Some(p)
    ensures p in g.index && RankAt(g, n, d) <= RankAt(g, n, p)
    decreases k
  {
    if k > 0 {
      var c := ThroughChild(g.order, g.index, p, d, k);
      BelowRanksLower(g, n, d, c, k - 1);
      KidRanksLower(g, n, p, c);
    }
  }

  lemma OnlyDoneRanksLowest(st: Status)
    requires !st.Unlisted?
    ensures Rank(st) == 0 <==> st == Done
  {
  }

  /** On the rolled-up board every card below a done card is done. */
  lemma RolledDoneBelow(book: Book, p: string, d: string)
    requires Settles(book.order, book.index) && d in book.index && Reaches(LinksOf(book.index), d, p)
    ensures p in book.index
    ensures Rolled(book.order, book.index)[p].status == Done ==> Rolled(book.order, book.index)[d].status == Done
  {
    var g := LoopOf(book.order, book.index);
    var k: nat :| Up(LinksOf(book.index), d, k) == Some(p);
    var n := Horizon(g) + 1;
    RanksRestIff(g);
    assert RanksRest(g, n);
    BelowRanksLower(g, n, d, p, k);
    AfterListed(g, n);
    OnlyDoneRanksLowest(After(g, n)[p].status);
    OnlyDoneRanksLowest(After(g, n)[d].status);
  }

  // ---- the loops ----

  /** children maps each parent among the first n cards to its children, and nothing else. */
  ghost predicate Grouped(order: seq<string>, index: Index, n: nat, children: map<string, seq<string>>)
    requires n <= |order|
  {
    forall p :: (p in children <==> Kids(order[..n], index, p) != []) && (p in children ==> children[p] == Kids(order[..n], index, p))
  }

  lemma GroupOne(order: seq<string>, index: Index, n: nat, children: map<string, seq<string>>)
    requires n < |order| && Grouped(order, index, n, children)
    ensures HasParent(index, order[n]) ==>
      var p := index[order[n]].dependsOn.value;
      Grouped(order, index, n + 1, children[p := (if p in children then children[p] else []) + [order[n]]])
    ensures !HasParent(index, order[n]) ==> Grouped(order, index, n + 1, children)
  {
    assert order[..n + 1][..n] == order[..n];
  }

  /** children lists the children of some parents of the board. */
  ghost predicate KidsListed(order: seq<string>, index: Index, children: map<string, seq<string>>)
  {
    forall p :: p in children ==> p in index && children[p] == Kids(order, index, p) && children[p] != []
  }

  /** The groups stay right while statuses and notes change, and name the parents. */
  lemma GroupedParents(order: seq<string>, index: Index, cur: Index, children: map<string, seq<string>>)
    requires Grouped(order, index, |order|, children) && SameShape(index, cur)
    ensures KidsListed(order, cur, children)
    ensures forall p :: p in children <==> IsParent(order, index, p)
  {
    assert order[..|order|] == order;
    forall p ensures Kids(order, index, p) == Kids(order, cur, p) { SameShapeSameKids(order, index, cur, p); }
    forall p | p in children ensures p in cur {
      assert Kids(order, index, p)[0] in Kids(order, index, p);
    }
  }

  /** What a round over the parents seen has done so far. */
  ghost predicate RoundSoFar(
    roll: Rule, order: seq<string>, start: Index, seen: seq<string>, before: set<string>,
    cur: Index, changed: set<string>, again: bool)
  {
    && cur == Sweep(roll, order, start, seen)
    && changed == before + Touched(roll, order, start, seen)
    && (again <==> Touched(roll, order, start, seen) != {})
  }

  lemma NextVisit(
    roll: Rule, order: seq<string>, start: Index, seen: seq<string>, before: set<string>,
    cur: Index, changed: set<string>, again: bool, p: string)
    requires RoundSoFar(roll, order, start, seen, before, cur, changed, again)
    ensures var next := Visit(roll, order, cur, p);
      if next != cur then RoundSoFar(roll, order, start, seen + [p], before, next, changed + {p}, true)
      else RoundSoFar(roll, order, start, seen + [p], before, next, changed, again)
  {
    TouchedSnoc(roll, order, start, seen, p);
    var next, touched := Visit(roll, order, cur, p), Touched(roll, order, start, seen);
    assert next != cur ==> (before + touched) + {p} == before + (touched + {p});
  }

  lemma PrefixSnoc(ps: seq<string>, i: nat)
    requires i < |ps|
    ensures ps[..i + 1] == ps[..i] + [ps[i]]
  {
  }

  lemma RoundKeepsKids(
    roll: Rule, order: seq<string>, start: Index, seen: seq<string>, cur: Index, p: string)
    requires cur == Sweep(roll, order, start, seen)
    ensures cur.Keys == start.Keys && Kids(order, cur, p) == Kids(order, start, p)
  {
    SweepShape(roll, order, start, seen);
    SameShapeSameKids(order, start, cur, p);
  }

  /** The loop that a settling board runs, and what it leaves. */
  lemma SettledLoop(order: seq<string>, index: Index) returns (g: Loop)
    requires Settles(order, index)
    ensures g == Setup(RollUpStatus, order, index, SortedParents(order, index)) && Agreeing(g)
    ensures Stop(g) == Rolled(order, index) && Settles(order, Stop(g))
  {
    g := LoopOf(order, index);
    RolledSettles(order, index);
  }

  lemma BeforeRound(g: Loop, n: nat, cur: Index, changed: set<string>, children: map<string, seq<string>>)
    requires Agreeing(g) && Outcomes(g)(At(n, cur, changed, true)) && Grouped(g.order, g.index, |g.order|, children)
    ensures n <= Horizon(g) + 1 && KidsListed(g.order, cur, children) && forall p :: p in g.parents ==> p in children
  {
    InvariantBound(g, n, cur, changed);
    GroupedParents(g.order, g.index, cur, children);
    forall p | p in g.parents ensures p in children { ParentIff(g, p); }
  }

  lemma AfterRound(g: Loop, n: nat, cur: Index, changed: set<string>, out: Index, now: set<string>, again: bool)
    requires Outcomes(g)(At(n, cur, changed, true))
    requires out == Sweep(g.roll, g.order, cur, g.parents) && now == changed + Touched(g.roll, g.order, cur, g.parents)
    requires again <==> Touched(g.roll, g.order, cur, g.parents) != {}
    ensures Outcomes(g)(At(if again then n + 1 else n, out, now, again))
  {
    if again { InvariantGoesOn(g, n, n + 1, cur, changed); } else { InvariantRests(g, n, cur, changed); }
  }

  lemma NextInRound(
    roll: Rule, order: seq<string>, start: Index, parents: seq<string>, i: nat, before: set<string>,
    cur: Index, changed: set<string>, again: bool)
    requires i < |parents| && RoundSoFar(roll, order, start, parents[..i], before, cur, changed, again)
    ensures var next := Visit(roll, order, cur, parents[i]);
      if next != cur then RoundSoFar(roll, order, start, parents[..i + 1], before, next, changed + {parents[i]}, true)
      else RoundSoFar(roll, order, start, parents[..i + 1], before, next, changed, again)
    ensures cur.Keys == start.Keys && Kids(order, cur, parents[i]) == Kids(order, start, parents[i])
  {
    PrefixSnoc(parents, i);
    NextVisit(roll, order, start, parents[..i], before, cur, changed, again, parents[i]);
    RoundKeepsKids(roll, order, start, parents[..i], cur, parents[i]);
  }

  class Workspace {
    var order: seq<string>
    var index: Index

    ghost function Now(): Book
      reads this
    {
      Book(order, index)
    }

    /** The children of each card that has some, in the order of the index. */
    method ChildrenByParent() returns (children: map<string, seq<string>>)
      ensures Grouped(order, index, |order|, children)
    {
      children := map[];
      var n := 0;
      while n < |order|
        invariant n <= |order| && Grouped(order, index, n, children)
      {
        GroupOne(order, index, n, children);
        var id := order[n];
        if HasParent(index, id) {
          var p := index[id].dependsOn.value;
          children := children[p := (if p in children then children[p] else []) + [id]];
        }
        n := n + 1;
      }
    }

    /** Reconcile the parents in sorted order. g is the loop that this runs, and rounds the number of rounds that
        changed something. */
    method Reconcile(roll: Rule, ghost g: Loop) returns (changed: set<string>, ghost rounds: nat)
      requires g == Setup(roll, order, index, SortedParents(order, index)) && Agreeing(g)
      modifies this`index
      ensures Outcomes(g)(At(rounds, index, changed, false))
      ensures rounds <= Horizon(g) + 1 && index == Stop(g) && (changed == {} <==> AtRest(g, 0))
    {
      var children := ChildrenByParent();
      var parents := SortedParents(order, index);
      changed, rounds := SweepUntilQuiet(roll, children, parents, g);
      InvariantEnds(g, rounds, index, changed);
    }

    /** Sweep the parents until a round changes nothing. */
    method SweepUntilQuiet(roll: Rule, children: map<string, seq<string>>, parents: seq<string>, ghost g: Loop)
      returns (changed: set<string>, ghost rounds: nat)
      requires g == Setup(roll, order, index, parents) && Agreeing(g) && Grouped(order, index, |order|, children)
      modifies this`index
      ensures Outcomes(g)(At(rounds, index, changed, false))
    {
      changed, rounds := {}, 0;
      var again := true;
      InvariantStarts(g);
      while again
        invariant Outcomes(g)(At(rounds, index, changed, again))
        decreases Horizon(g) + 2 - rounds, again
      {
        ghost var board, before := index, changed;
        BeforeRound(g, rounds, index, changed, children);
        again, changed := Round(roll, children, parents, changed);
        AfterRound(g, rounds, board, before, index, changed, again);
        rounds := if again then rounds + 1 else rounds;
      }
    }

    /** One round over the parents. */
    method Round(roll: Rule, children: map<string, seq<string>>, parents: seq<string>, before: set<string>)
      returns (again: bool, changed: set<string>)
      requires KidsListed(order, index, children) && forall p :: p in parents ==> p in children
      modifies this`index
      ensures index == Sweep(roll, order, old(index), parents)
      ensures changed == before + Touched(roll, order, old(index), parents)
      ensures again <==> Touched(roll, order, old(index), parents) != {}
    {
      again, changed := false, before;
      for i := 0 to |parents|
        invariant RoundSoFar(roll, order, old(index), parents[..i], before, index, changed, again)
      {
        var p := parents[i];
        NextInRound(roll, order, old(index), parents, i, before, index, changed, again);
        var moved := RollUpInto(roll, p, children[p]);
        if moved {
          changed := changed + {p};
          again := true;
        }
      }
      assert parents[..|parents|] == parents;
    }

    /** Roll the children of p up into it; whether that changed its card. */
    method RollUpInto(roll: Rule, p: string, children: seq<string>) returns (moved: bool)
      requires p in index && children == Kids(order, index, p) && children != []
      modifies this`index
      ensures index == Visit(roll, order, old(index), p)
      ensures moved <==> index != old(index)
    {
      var next := roll((index[p].status, index[p].notes), children, StatusesOf(index));
      moved := next != (index[p].status, index[p].notes);
      if moved {
        index := index[p := index[p].(status := next.0, notes := next.1)];
      }
    }

    /** Reconcile the whole board, as every edit does before it writes TASK_BOARD.md. */
    method Refresh()
      requires Settles(order, index)
      modifies this`index
      ensures index == Rolled(order, old(index)) && Settles(order, index)
    {
      ghost var g := SettledLoop(order, index);
      var _, _ := Reconcile(RollUpStatus, g);
    }

    /** File the handoffs of a run of the task parent; the ids they are filed under. */
    method Materialize(requests: seq<Request>, source: string, parent: Option<string>) returns (ids: seq<string>)
      requires var out := FileAll(Now(), requests, source, parent).0; Settles(out.order, out.index)
      modifies this
      ensures ids == FileAll(old(Now()), requests, source, parent).1
      ensures order == FileAll(old(Now()), requests, source, parent).0.order
      ensures index == Rolled(order, FileAll(old(Now()), requests, source, parent).0.index)
      ensures Settles(order, index)
    {
      ids := FileEach(requests, source, parent);
      Refresh();
    }

    method FileEach(requests: seq<Request>, source: string, parent: Option<string>) returns (ids: seq<string>)
      modifies this
      ensures (Now(), ids) == FileAll(old(Now()), requests, source, parent)
    {
      ids := [];
      for i := 0 to |requests|
        invariant (Now(), ids) == FileAll(old(Now()), requests[..i], source, parent)
      {
        assert requests[..i + 1][..i] == requests[..i];
        var id := FileOne(requests[i], source, parent);
        ids := ids + [id];
      }
      assert requests[..|requests|] == requests;
    }

    /** File one handoff; the id it is filed under. */
    method FileOne(r: Request, source: string, parent: Option<string>) returns (id: string)
      modifies this
      ensures id == ChosenId(old(Now()), r) && Now() == File(old(Now()), r, source, parent)
    {
      id := if Given(r.taskId) then r.taskId.value else Allocate(order);
      var dependsOn := if id in index then index[id].dependsOn else parent;
      if id !in index { order := order + [id]; }
      if !Given(dependsOn) { dependsOn := parent; }
      index := index[id := Card(r.target, Ready, source, dependsOn, r.goal, Told(source, r.goal))];
    }

    /** Claim the card of a job for its agent. */
    method Claim(id: string, agent: string, goal: string)
      requires var out := Claimed(Now(), id, agent, goal); Settles(out.order, out.index)
      modifies this
      ensures order == Claimed(old(Now()), id, agent, goal).order
      ensures index == Rolled(order, Claimed(old(Now()), id, agent, goal).index)
      ensures Settles(order, index)
    {
      WriteClaim(id, agent, goal);
      Refresh();
    }

    method WriteClaim(id: string, agent: string, goal: string)
      modifies this
      ensures Now() == Claimed(old(Now()), id, agent, goal)
    {
      if id !in index {
        order := order + [id];
        index := index[id := Card(agent, InProgress, "operator", None, goal, "Task card was claimed from an incoming job.")];
      }
      index := index[id := index[id].(owner := agent, status := InProgress)];
    }

    /** Record the end of a run in the card of its task. */
    method Finalize(id: string, agent: string, questions: seq<string>, routes: seq<string>, report: string)
      requires Settles(order, Finished(Now(), id, agent, Outcome(questions, routes, report)).index)
      modifies this`index
      ensures index == Rolled(order, Finished(old(Now()), id, agent, Outcome(questions, routes, report)).index)
      ensures Settles(order, index)
    {
      if id != "" && id in index {
        var outcome := Outcome(questions, routes, report);
        index := index[id := index[id].(owner := agent, status := outcome.0, notes := outcome.1)];
      }
      Refresh();
    }

    /** Record a failed run in the card of its task. */
    method MarkFailed(id: string, agent: string, summary: string)
      requires var out := Failing(Now(), id, agent, summary); Settles(out.order, out.index)
      modifies this
      ensures order == Failing(old(Now()), id, agent, summary).order
      ensures index == Rolled(order, Failing(old(Now()), id, agent, summary).index)
      ensures Settles(order, index)
    {
      WriteFailure(id, agent, summary);
      Refresh();
    }

    method WriteFailure(id: string, agent: string, summary: string)
      modifies this
      ensures Now() == Failing(old(Now()), id, agent, summary)
    {
      if id != "" {
        if id !in index {
          order := order + [id];
          index := index[id := Card(agent, Failed, agent, None, "Investigate the failed runtime step.", summary)];
        }
        index := index[id := index[id].(owner := agent, status := Failed, notes := summary)];
      }
    }
  }
}
