/** What the reconciled board shows after an edit: the card that was edited, the other cards without children, and the
    cards above them. */
module Records {
  import opened Text
  import opened RollUp
  import opened ClosedForm
  import opened Rounds
  import opened Rests
  import opened FinalRanks
  import opened Schedules
  import opened TaskEdits
  import opened TaskBoard

  predicate IsLeaf(book: Book, l: string)
  {
    l in book.index && Kids(book.order, book.index, l) == []
  }

  /** The card of l once the board is reconciled. */
  ghost function Shows(book: Book, l: string): Card
    requires Known(book.order, book.index) && l in book.index
  {
    Rolled(book.order, book.index)[l]
  }

  /** Reconciling leaves a card without children alone. */
  lemma LeafShows(book: Book, l: string)
    requires Known(book.order, book.index) && IsLeaf(book, l)
    ensures Shows(book, l) == book.index[l]
  {
    var g := LoopOf(book.order, book.index);
    ParentIff(g, l);
    LeafStays(g, Horizon(g) + 1, l);
  }

  // ---- the cards above ----

  /** Of the ranks that the leaves below p have, r is the highest. */
  ghost predicate TopBy(book: Book, p: string, rank: string -> nat, r: nat)
  {
    && (exists l :: LeafUnder(book.order, book.index, l, p) && rank(l) == r)
    && (forall l :: LeafUnder(book.order, book.index, l, p) ==> rank(l) <= r)
  }

  /** A parent is blocked, active, failed or done as the highest rank of the leaves below it is 3, 2, 1 or 0. */
  ghost predicate ShowsTop(book: Book, p: string, rank: string -> nat)
    requires Known(book.order, book.index) && p in book.index
  {
    && (Shows(book, p).status == Blocked <==> TopBy(book, p, rank, 3))
    && (Shows(book, p).status == HandoffQueued <==> TopBy(book, p, rank, 2))
    && (Shows(book, p).status == Failed <==> TopBy(book, p, rank, 1))
    && (Shows(book, p).status == Done <==> TopBy(book, p, rank, 0))
  }

  lemma TopByRanks(book: Book, p: string, rank: string -> nat, r: nat)
    requires forall l :: IsLeaf(book, l) ==> rank(l) == Rank(book.index[l].status)
    ensures TopBy(book, p, rank, r) <==> TopLeaf(book.order, book.index, p, r)
  {
  }

  lemma ParentShows(book: Book, p: string, rank: string -> nat)
    requires Forested(book) && IsParent(book.order, book.index, p)
    requires forall l :: IsLeaf(book, l) ==> rank(l) == Rank(book.index[l].status)
    ensures p in book.index && ShowsTop(book, p, rank)
  {
    ForestParentStatus(book, p, 0);
    ForestParentStatus(book, p, 1);
    ForestParentStatus(book, p, 2);
    ForestParentStatus(book, p, 3);
    TopByRanks(book, p, rank, 0);
    TopByRanks(book, p, rank, 1);
    TopByRanks(book, p, rank, 2);
    TopByRanks(book, p, rank, 3);
  }

  /** Blocked weighs 3, what is under way 2, failed 1 and done 0. */
  function Weight(st: Status): nat
  {
    if st == Blocked then 3 else if st in {Ready, InProgress, Verify, Review, HandoffQueued} then 2
    else if st == Failed then 1 else 0
  }

  /** The weight the leaves had before, but now for the ids edited. */
  function Reweighed(before: Index, ids: set<string>, now: nat): string -> nat
  {
    (l: string) => if l in ids then now else if l in before then Weight(before[l].status) else 0
  }

  lemma WeighedAs(st: Status)
    ensures Weight(st) == Rank(st)
  {
  }

  /** On every board on which the loop ends a parent's notes name exactly its children that rank as it does. */
  lemma ParentNotes(book: Book, p: string)
    requires Settles(book.order, book.index) && IsParent(book.order, book.index, p)
    ensures p in book.index
    ensures NotesName(
      Kids(book.order, book.index, p), StatusesOf(Rolled(book.order, book.index)), (Shows(book, p).status, Shows(book, p).notes))
  {
    var g := LoopOf(book.order, book.index);
    ParentIff(g, p);
    ParentInIndex(g, p);
    RanksRestIff(g);
    RestNotes(g, Horizon(g), Horizon(g) + 1, p);
  }

  lemma RestNotes(g: Loop, n: nat, next: nat, p: string)
    requires g.roll == RollUpStatus && RanksRest(g, n) && n > 0 && next == n + 1 && p in g.parents && p in g.index
    ensures NotesName(Kids(g.order, g.index, p), StatusesOf(After(g, next)), Held(g, next, p))
  {
    HeldAtRest(g, n, n, next, p);
    RestListed(g, n, p);
    ParentInIndex(g, p);
    StatusesRest(g, n, next);
    NotesNameTop(Held(g, n, p), Kids(g.order, g.index, p), StatusesOf(After(g, n)), Held(g, next, p));
  }

  lemma StatusesRest(g: Loop, n: nat, next: nat)
    requires RanksRest(g, n) && next >= n > 0
    ensures StatusesOf(After(g, next)) == StatusesOf(After(g, n))
  {
    forall p | p in g.index ensures After(g, next)[p].status == After(g, n)[p].status { StatusRests(g, n, next, p); }
  }

  // ---- one card edited ----

  /** After card was put on the board under id: id shows it unless it has children, and every other card without
      children shows what it did. */
  ghost predicate OnlyShows(book: Book, out: Book, id: string, card: Card)
    requires Known(out.order, out.index)
  {
    && (IsLeaf(out, id) ==> Shows(out, id) == card)
    && (forall l :: l != id && IsLeaf(out, l) ==> l in book.index && Shows(out, l) == book.index[l])
  }

  lemma PutShows(book: Book, id: string, card: Card)
    requires Known(book.order, book.index) && !card.status.Unlisted?
    ensures var out := Put(book, id, card); Known(out.order, out.index) && OnlyShows(book, out, id, card)
  {
    var out := Put(book, id, card);
    PutKnown(book, id, card);
    forall l | IsLeaf(out, l) ensures Shows(out, l) == out.index[l] { LeafShows(out, l); }
  }

  /** The parents of the board weigh its leaves as before, and id as now. */
  lemma PutParents(book: Book, out: Book, id: string, card: Card, weight: nat, p: string)
    requires out == Put(book, id, card) && weight == Weight(card.status)
    requires Forested(out) && IsLeaf(out, id) && IsParent(out.order, out.index, p)
    ensures p in out.index && ShowsTop(out, p, Reweighed(book.index, {id}, weight))
  {
    var rank := Reweighed(book.index, {id}, weight);
    forall l | IsLeaf(out, l) ensures rank(l) == Rank(out.index[l].status) { WeighedAs(out.index[l].status); }
    ParentShows(out, p, rank);
  }

  /** After a finished run its card shows the question if there is one, and so is blocked, waits for others if there is
      none and the run handed work on, and is done exactly otherwise; the other leaves show what they did. */
  lemma FinishedShows(book: Book, id: string, agent: string, questions: seq<string>, routes: seq<string>, report: string)
    requires Known(book.order, book.index) && id != "" && IsLeaf(book, id)
    ensures var out := Finished(book, id, agent, Outcome(questions, routes, report));
      && Known(out.order, out.index) && id in out.index
      && (Shows(out, id).status == Blocked <==> questions != [])
      && (Shows(out, id).status == HandoffQueued <==> questions == [] && routes != [])
      && (Shows(out, id).status == Done <==> questions == [] && routes == [])
      && (questions != [] ==> Shows(out, id).notes == questions[0])
      && (questions == [] && routes == [] && report != "" ==> Shows(out, id).notes == report)
      && Shows(out, id).owner == agent && OnlyShows(book, out, id, Shows(out, id))
  {
    var outcome := Outcome(questions, routes, report);
    var card := book.index[id].(owner := agent, status := outcome.0, notes := outcome.1);
    PutShows(book, id, card);
    SameShapeSameKids(book.order, book.index, Put(book, id, card).index, id);
  }

  /** And the cards above it weigh that: blocked, active or done. */
  lemma FinishedParents(
    book: Book, id: string, agent: string, questions: seq<string>, routes: seq<string>, report: string, p: string)
    requires Forested(book) && id != "" && IsLeaf(book, id) && IsParent(book.order, book.index, p)
    ensures var out := Finished(book, id, agent, Outcome(questions, routes, report));
      && Known(out.order, out.index) && p in out.index
      && ShowsTop(out, p, Reweighed(book.index, {id}, if questions != [] then 3 else if routes != [] then 2 else 0))
  {
    var out := Finished(book, id, agent, Outcome(questions, routes, report));
    var weight := if questions != [] then 3 else if routes != [] then 2 else 0;
    FinishedRow(book, id, agent, questions, routes, report, weight);
    FinishedForested(book, id, agent, Outcome(questions, routes, report));
    SameShapeSameKids(book.order, book.index, out.index, id);
    SameShapeSameKids(book.order, book.index, out.index, p);
    PutParents(book, out, id, out.index[id], weight, p);
  }

  lemma FinishedRow(
    book: Book, id: string, agent: string, questions: seq<string>, routes: seq<string>, report: string, weight: nat)
    requires id != "" && IsLeaf(book, id) && weight == if questions != [] then 3 else if routes != [] then 2 else 0
    ensures var out := Finished(book, id, agent, Outcome(questions, routes, report));
      id in out.index && out == Put(book, id, out.index[id]) && weight == Weight(out.index[id].status)
      && out.order == book.order && SameShape(book.index, out.index)
  {
  }

  /** A claimed card is in progress for its agent, unless it has children. */
  lemma ClaimedShows(book: Book, id: string, agent: string, goal: string)
    requires Known(book.order, book.index)
    ensures var out := Claimed(book, id, agent, goal);
      && Known(out.order, out.index) && id in out.index && OnlyShows(book, out, id, out.index[id])
      && (IsLeaf(out, id) ==> Shows(out, id).status == InProgress && Shows(out, id).owner == agent)
  {
    PutShows(book, id, Claimed(book, id, agent, goal).index[id]);
  }

  lemma ClaimedParents(book: Book, id: string, agent: string, goal: string, p: string)
    requires var out := Claimed(book, id, agent, goal);
      Forested(out) && IsLeaf(out, id) && IsParent(out.order, out.index, p)
    ensures var out := Claimed(book, id, agent, goal); p in out.index && ShowsTop(out, p, Reweighed(book.index, {id}, 2))
  {
    var out := Claimed(book, id, agent, goal);
    PutParents(book, out, id, out.index[id], 2, p);
  }

  /** A failed run's card has failed, with the summary, unless it has children. */
  lemma FailedShows(book: Book, id: string, agent: string, summary: string)
    requires Known(book.order, book.index) && id != ""
    ensures var out := Failing(book, id, agent, summary);
      && Known(out.order, out.index) && id in out.index && OnlyShows(book, out, id, out.index[id])
      && (IsLeaf(out, id) ==>
            Shows(out, id).status == Failed && Shows(out, id).owner == agent && Shows(out, id).notes == summary)
  {
    PutShows(book, id, Failing(book, id, agent, summary).index[id]);
  }

  lemma FailedRow(book: Book, id: string, agent: string, summary: string)
    requires id != ""
    ensures var out := Failing(book, id, agent, summary);
      id in out.index && out == Put(book, id, out.index[id]) && Weight(out.index[id].status) == 1
  {
  }

  lemma FailedParents(book: Book, id: string, agent: string, summary: string, p: string)
    requires id != ""
    requires var out := Failing(book, id, agent, summary);
      Forested(out) && IsLeaf(out, id) && IsParent(out.order, out.index, p)
    ensures var out := Failing(book, id, agent, summary); p in out.index && ShowsTop(out, p, Reweighed(book.index, {id}, 1))
  {
    var out := Failing(book, id, agent, summary);
    FailedRow(book, id, agent, summary);
    PutParents(book, out, id, out.index[id], 1, p);
  }

  // ---- handoffs filed ----

  /** The card under which request k, the last one under its id, was filed. */
  ghost predicate FiledAs(rs: seq<Request>, ids: seq<string>, source: string, l: string, card: Card, k: nat)
    requires |ids| == |rs|
  {
    && k < |ids| && ids[k] == l && (forall m :: k < m < |ids| ==> ids[m] != l)
    && card.status == Ready && card.owner == rs[k].target && card.goal == rs[k].goal && card.source == source
  }

  /** A card was filed, or is as it was. */
  ghost predicate FiledOrSame(book: Book, rs: seq<Request>, ids: seq<string>, source: string, l: string, card: Card)
    requires |ids| == |rs|
  {
    if l in ids then exists k: nat :: FiledAs(rs, ids, source, l, card, k) else l in book.index && card == book.index[l]
  }

  lemma FiledLast(book: Book, front: seq<Request>, r: Request, ids: seq<string>, id: string, source: string, l: string, was: Card, card: Card)
    requires |ids| == |front|
    requires if l == id then card.status == Ready && card.owner == r.target && card.goal == r.goal && card.source == source
      else card == was && FiledOrSame(book, front, ids, source, l, was)
    ensures FiledOrSame(book, front + [r], ids + [id], source, l, card)
  {
    var rs, all := front + [r], ids + [id];
    if l == id {
      assert FiledAs(rs, all, source, l, card, |front|);
      assert all[|front|] == l;
    } else if l in ids {
      var k: nat :| FiledAs(front, ids, source, l, was, k);
      assert FiledAs(rs, all, source, l, card, k);
      assert all[k] == l;
    }
  }

  lemma {:induction false} FiledCards(book: Book, rs: seq<Request>, source: string, parent: Option<string>, l: string)
    ensures var (out, ids) := FileAll(book, rs, source, parent);
      |ids| == |rs| && (l in out.index ==> FiledOrSame(book, rs, ids, source, l, out.index[l]))
  {
    if |rs| > 0 {
      var front, r := rs[..|rs| - 1], rs[|rs| - 1];
      var (before, ids) := FileAll(book, front, source, parent);
      FiledCards(book, front, source, parent, l);
      var out := File(before, r, source, parent);
      assert rs == front + [r];
      if l in out.index {
        FiledLast(book, front, r, ids, ChosenId(before, r), source, l, if l in before.index then before.index[l] else out.index[l], out.index[l]);
      }
    }
  }

  lemma {:induction false} FiledKnown(book: Book, rs: seq<Request>, source: string, parent: Option<string>)
    requires Known(book.order, book.index)
    ensures var out := FileAll(book, rs, source, parent).0; Known(out.order, out.index)
  {
    if |rs| > 0 {
      FiledKnown(book, rs[..|rs| - 1], source, parent);
      KnownFiled(FileAll(book, rs[..|rs| - 1], source, parent).0, rs[|rs| - 1], source, parent);
    }
  }

  /** After handoffs were filed, each card without children shows ready, for the target of the last handoff filed under
      it, or what it did if none was. */
  lemma FiledShows(book: Book, rs: seq<Request>, source: string, parent: Option<string>, l: string)
    requires Known(book.order, book.index) && IsLeaf(FileAll(book, rs, source, parent).0, l)
    ensures var (out, ids) := FileAll(book, rs, source, parent);
      Known(out.order, out.index) && |ids| == |rs| && FiledOrSame(book, rs, ids, source, l, Shows(out, l))
  {
    FiledKnown(book, rs, source, parent);
    FiledCards(book, rs, source, parent, l);
    LeafShows(FileAll(book, rs, source, parent).0, l);
  }

  /** And the cards above weigh the filed ones as active. */
  lemma FiledParents(book: Book, rs: seq<Request>, source: string, parent: Option<string>, p: string)
    requires var out := FileAll(book, rs, source, parent).0; Forested(out) && IsParent(out.order, out.index, p)
    ensures var (out, ids) := FileAll(book, rs, source, parent);
      p in out.index && ShowsTop(out, p, Reweighed(book.index, set x | x in ids, 2))
  {
    var (out, ids) := FileAll(book, rs, source, parent);
    var rank := Reweighed(book.index, set x | x in ids, 2);
    forall l | IsLeaf(out, l) ensures rank(l) == Rank(out.index[l].status) {
      FiledCards(book, rs, source, parent, l);
      WeighedAs(out.index[l].status);
    }
    ParentShows(out, p, rank);
  }
}
