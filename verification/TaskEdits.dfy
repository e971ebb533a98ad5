/** Edits of the task index: which id a handoff is filed under, when the dependencies stay a forest, and what
    a finished or failed run writes into its card. */
module TaskEdits {
  import opened Text
  import opened Forest
  import opened TaskKeys
  import opened RollUp

  /** The task index with the order its dictionary lists the cards in. */
  datatype Book = Book(order: seq<string>, index: Index)

  /** A handoff block: its target, its body with the payload text normalised, and the task id it names, if any. */
  datatype Request = Request(target: string, goal: string, taskId: Option<string>)

  /** order lists each id of the index once. */
  ghost predicate Sound(book: Book)
  {
    Lists(book.order, book.index)
  }

  predicate Given(o: Option<string>)
  {
    o.Some? && o.value != ""
  }

  /** Python's a or b. */
  function Or(a: Option<string>, b: Option<string>): Option<string>
  {
    if Given(a) then a else b
  }

  /** The id a handoff is filed under: the one it names, or the next free one. */
  function ChosenId(book: Book, r: Request): string
  {
    if Given(r.taskId) then r.taskId.value else Allocate(book.order)
  }

  function Put(book: Book, id: string, card: Card): Book
  {
    Book(if id in book.index then book.order else book.order + [id], book.index[id := card])
  }

  function Told(source: string, goal: string): string
  {
    "Latest handoff from `" + source + "`.\n\n" + goal
  }

  /** The card a handoff leaves: an existing card keeps its parent, and one without takes the current task. */
  function Filed(book: Book, r: Request, source: string, parent: Option<string>): Card
  {
    var id := ChosenId(book, r);
    var before := if id in book.index then book.index[id].dependsOn else parent;
    Card(r.target, Ready, source, Or(before, parent), r.goal, Told(source, r.goal))
  }

  function File(book: Book, r: Request, source: string, parent: Option<string>): Book
  {
    Put(book, ChosenId(book, r), Filed(book, r, source, parent))
  }

  /** Filing requests one after another, and the ids they get. */
  function FileAll(book: Book, rs: seq<Request>, source: string, parent: Option<string>): (Book, seq<string>)
  {
    if |rs| == 0 then (book, [])
    else
      var (before, ids) := FileAll(book, rs[..|rs| - 1], source, parent);
      var r := rs[|rs| - 1];
      (File(before, r, source, parent), ids + [ChosenId(before, r)])
  }

  // ---- ids ----

  lemma {:induction false} FiledIdsPresent(book: Book, rs: seq<Request>, source: string, parent: Option<string>)
    requires Sound(book)
    ensures var (out, ids) := FileAll(book, rs, source, parent);
      && Sound(out) && |ids| == |rs| && book.index.Keys <= out.index.Keys
      && forall i :: 0 <= i < |ids| ==> ids[i] in out.index
  {
    if |rs| > 0 {
      FiledIdsPresent(book, rs[..|rs| - 1], source, parent);
      var (before, ids) := FileAll(book, rs[..|rs| - 1], source, parent);
      var id := ChosenId(before, rs[|rs| - 1]);
      assert forall x :: x in before.order + [id] <==> x in before.order || x == id;
    }
  }

  /** An allocated id is none of the ids that were present, and none of the ids handed out before it. */
  lemma {:induction false} AllocatedIdsAreNew(
    book: Book, rs: seq<Request>, source: string, parent: Option<string>, i: nat, j: nat)
    requires Sound(book) && i < j <= |rs| && !Given(rs[j - 1].taskId)
    ensures var ids := FileAll(book, rs, source, parent).1;
      |ids| == |rs| && ids[j - 1] !in book.index && (i < j - 1 ==> ids[i] != ids[j - 1])
  {
    var front := rs[..|rs| - 1];
    var (before, ids) := FileAll(book, front, source, parent);
    FiledIdsPresent(book, front, source, parent);
    if j == |rs| {
      AllocateIsFresh(before.order);
    } else {
      AllocatedIdsAreNew(book, front, source, parent, i, j);
    }
  }

  // ---- the forest ----

  /** Every dependency a card names, also on a card that is missing. */
  ghost function Depends(index: Index): Links
  {
    map id | id in index && Given(index[id].dependsOn) :: index[id].dependsOn.value
  }

  lemma {:induction false} UpInIndex(index: Index, id: string, k: nat)
    requires Up(LinksOf(index), id, k).Some?
    ensures Up(Depends(index), id, k) == Up(LinksOf(index), id, k)
    decreases k
  {
    if k > 0 { UpInIndex(index, LinksOf(index)[id], k - 1); }
  }

  lemma {:induction false} UpInDepends(index: Index, id: string, k: nat, last: string)
    requires Up(Depends(index), id, k) == Some(last) && last in index
    ensures Up(LinksOf(index), id, k) == Some(last)
    decreases k
  {
    if k > 0 {
      var p := Depends(index)[id];
      UpInDepends(index, p, k - 1, last);
      assert p in index;
      assert LinksOf(index)[id] == p;
    }
  }

  /** A dependency on a missing card closes no cycle. */
  lemma MissingClosesNoCycle(index: Index)
    ensures Acyclic(LinksOf(index)) <==> Acyclic(Depends(index))
  {
    if Acyclic(LinksOf(index)) {
      forall id, k: nat | k > 0 ensures Up(Depends(index), id, k) != Some(id) {
        if Up(Depends(index), id, k) == Some(id) {
          assert id in Depends(index);
          UpInDepends(index, id, k, id);
        }
      }
    }
    if Acyclic(Depends(index)) {
      forall id, k: nat | k > 0 ensures Up(LinksOf(index), id, k) != Some(id) {
        if Up(LinksOf(index), id, k) == Some(id) { UpInIndex(index, id, k); }
      }
    }
  }

  /** Filing a request under id links it to p. */
  predicate LinksAnew(book: Book, r: Request, parent: Option<string>)
  {
    var id := ChosenId(book, r);
    Given(parent) && !(id in book.index && Given(book.index[id].dependsOn))
  }

  lemma FiledDepends(book: Book, r: Request, source: string, parent: Option<string>)
    ensures Depends(File(book, r, source, parent).index)
      == if LinksAnew(book, r, parent) then Depends(book.index)[ChosenId(book, r) := parent.value] else Depends(book.index)
    ensures LinksAnew(book, r, parent) ==> ChosenId(book, r) !in Depends(book.index)
  {
  }

  /** Filing a request keeps the board acyclic exactly when it links nothing new, or the current task does not
      already depend, directly or through others, on the card filed. */
  lemma FileKeepsAcyclicIff(book: Book, r: Request, source: string, parent: Option<string>)
    requires Acyclic(LinksOf(book.index))
    ensures Acyclic(LinksOf(File(book, r, source, parent).index))
      <==> LinksAnew(book, r, parent) ==> !Reaches(Depends(book.index), parent.value, ChosenId(book, r))
  {
    MissingClosesNoCycle(book.index);
    MissingClosesNoCycle(File(book, r, source, parent).index);
    FiledDepends(book, r, source, parent);
    if LinksAnew(book, r, parent) {
      LinkKeepsAcyclicIff(Depends(book.index), ChosenId(book, r), parent.value);
    }
  }

  /** What request i links, if anything, does not lead from the current task back to its own card. */
  ghost predicate SafeAt(book: Book, rs: seq<Request>, source: string, parent: Option<string>, i: nat)
    requires i < |rs|
  {
    var before := FileAll(book, rs[..i], source, parent).0;
    LinksAnew(before, rs[i], parent) ==> !Reaches(Depends(book.index), parent.value, ChosenId(before, rs[i]))
  }

  ghost predicate AllSafe(book: Book, rs: seq<Request>, source: string, parent: Option<string>)
  {
    forall i: nat :: i < |rs| ==> SafeAt(book, rs, source, parent, i)
  }

  /** Both maps lead from p along the same path. */
  ghost predicate SamePath(a: Links, b: Links, p: string)
  {
    forall k: nat :: Up(a, p, k) == Up(b, p, k)
  }

  lemma NewLinkOffPath(up: Links, c: string, p: string)
    requires c !in up && !Reaches(up, p, c)
    ensures SamePath(up, up[c := p], p)
  {
    forall k: nat ensures Up(up, p, k) == Up(up[c := p], p, k) {
      if Up(up[c := p], p, k).Some? { AddedLinkPath(up, c, p, p, k); }
      if Up(up, p, k).Some? { OldPathStays(up, c, p, p, k); }
    }
  }

  lemma CycleStays(up: Links, c: string, p: string)
    requires c !in up && Acyclic(up[c := p])
    ensures Acyclic(up)
  {
    forall id, k: nat | k > 0 ensures Up(up, id, k) != Some(id) {
      if Up(up, id, k) == Some(id) { OldPathStays(up, c, p, id, k); }
    }
  }

  lemma SafeFront(book: Book, rs: seq<Request>, source: string, parent: Option<string>)
    requires |rs| > 0
    ensures AllSafe(book, rs, source, parent)
      <==> AllSafe(book, rs[..|rs| - 1], source, parent) && SafeAt(book, rs, source, parent, |rs| - 1)
  {
    var front := rs[..|rs| - 1];
    forall i: nat | i < |front|
      ensures SafeAt(book, front, source, parent, i) <==> SafeAt(book, rs, source, parent, i)
    {
      assert front[..i] == rs[..i];
    }
  }

  /** Filing one more request on a board that is still acyclic. */
  lemma OneMoreSafe(orig: Index, book: Book, r: Request, source: string, parent: Option<string>)
    requires Acyclic(Depends(book.index)) && (Given(parent) ==> SamePath(Depends(orig), Depends(book.index), parent.value))
    ensures var out := File(book, r, source, parent);
      && (Acyclic(Depends(out.index))
          <==> LinksAnew(book, r, parent) ==> !Reaches(Depends(orig), parent.value, ChosenId(book, r)))
      && (Acyclic(Depends(out.index)) && Given(parent) ==> SamePath(Depends(orig), Depends(out.index), parent.value))
  {
    FiledDepends(book, r, source, parent);
    if LinksAnew(book, r, parent) {
      var up, id := Depends(book.index), ChosenId(book, r);
      LinkKeepsAcyclicIff(up, id, parent.value);
      assert Reaches(Depends(orig), parent.value, id) <==> Reaches(up, parent.value, id);
      if !Reaches(up, parent.value, id) { NewLinkOffPath(up, id, parent.value); }
    }
  }

  lemma {:induction false} FileAllDepends(book: Book, rs: seq<Request>, source: string, parent: Option<string>)
    requires Acyclic(Depends(book.index))
    ensures var out := FileAll(book, rs, source, parent).0;
      && (Acyclic(Depends(out.index)) <==> AllSafe(book, rs, source, parent))
      && (Acyclic(Depends(out.index)) && Given(parent) ==> SamePath(Depends(book.index), Depends(out.index), parent.value))
  {
    if |rs| > 0 {
      var front, r := rs[..|rs| - 1], rs[|rs| - 1];
      var before := FileAll(book, front, source, parent).0;
      FileAllDepends(book, front, source, parent);
      SafeFront(book, rs, source, parent);
      if Acyclic(Depends(before.index)) {
        OneMoreSafe(book.index, before, r, source, parent);
      } else {
        FiledDepends(before, r, source, parent);
        if LinksAnew(before, r, parent) && Acyclic(Depends(File(before, r, source, parent).index)) {
          CycleStays(Depends(before.index), ChosenId(before, r), parent.value);
        }
      }
    }
  }

  /** Filing the handoffs of one run keeps the board acyclic exactly when no card that they newly make depend on
      the current task is one that the current task depended on before the run. */
  lemma FileAllKeepsAcyclicIff(book: Book, rs: seq<Request>, source: string, parent: Option<string>)
    requires Acyclic(LinksOf(book.index))
    ensures Acyclic(LinksOf(FileAll(book, rs, source, parent).0.index)) <==> AllSafe(book, rs, source, parent)
  {
    MissingClosesNoCycle(book.index);
    MissingClosesNoCycle(FileAll(book, rs, source, parent).0.index);
    FileAllDepends(book, rs, source, parent);
  }

  lemma {:induction false} PathStaysInside(index: Index, id: string, k: nat, last: string)
    requires forall c :: c in Depends(index) ==> Depends(index)[c] in index
    requires id in index && Up(Depends(index), id, k) == Some(last)
    ensures last in index
    decreases k
  {
    if k > 0 { PathStaysInside(index, Depends(index)[id], k - 1, last); }
  }

  /** On a board without dangling dependencies an allocated id never closes a cycle. */
  lemma AllocatedIdIsSafe(book: Book, r: Request, source: string, parent: Option<string>)
    requires Sound(book) && Acyclic(LinksOf(book.index)) && !Given(r.taskId)
    requires forall c :: c in Depends(book.index) ==> Depends(book.index)[c] in book.index
    requires Given(parent) ==> parent.value in book.index
    ensures Acyclic(LinksOf(File(book, r, source, parent).index))
  {
    var id := ChosenId(book, r);
    AllocateIsFresh(book.order);
    FileKeepsAcyclicIff(book, r, source, parent);
    if LinksAnew(book, r, parent) && Reaches(Depends(book.index), parent.value, id) {
      var k: nat :| Up(Depends(book.index), parent.value, k) == Some(id);
      PathStaysInside(book.index, parent.value, k, id);
      assert false;
    }
  }

  // ---- runs ----

  /** Claiming a card for a run; an id without a card gets one. */
  function Claimed(book: Book, id: string, agent: string, goal: string): Book
  {
    var card := if id in book.index then book.index[id]
      else Card(agent, InProgress, "operator", None, goal, "Task card was claimed from an incoming job.");
    Put(book, id, card.(owner := agent, status := InProgress))
  }

  /** What a run that ended normally leaves in its card. */
  function Outcome(questions: seq<string>, routes: seq<string>, report: string): (Status, string)
  {
    if |questions| > 0 then (Blocked, questions[0])
    else if |routes| > 0 then (HandoffQueued, Join(routes))
    else (Done, if report != "" then report else "Marked done by runtime.")
  }

  /** Recording the end of a run; a task without a card is left alone. */
  function Finished(book: Book, id: string, agent: string, outcome: (Status, string)): Book
  {
    if id == "" || id !in book.index then book
    else Put(book, id, book.index[id].(owner := agent, status := outcome.0, notes := outcome.1))
  }

  /** Recording a failed run; an id without a card gets one. */
  function Failing(book: Book, id: string, agent: string, summary: string): Book
  {
    if id == "" then book
    else
      var card := if id in book.index then book.index[id]
        else Card(agent, Failed, agent, None, "Investigate the failed runtime step.", summary);
      Put(book, id, card.(owner := agent, status := Failed, notes := summary))
  }

  lemma PutKeepsDepends(book: Book, id: string, card: Card)
    requires card.dependsOn == if id in book.index then book.index[id].dependsOn else None
    ensures Depends(Put(book, id, card).index) == Depends(book.index)
  {
  }

  /** A run that keeps what its card depends on keeps the board acyclic. */
  lemma PutKeepsAcyclic(book: Book, id: string, card: Card)
    requires Acyclic(LinksOf(book.index))
    requires card.dependsOn == if id in book.index then book.index[id].dependsOn else None
    ensures Acyclic(LinksOf(Put(book, id, card).index))
  {
    PutKeepsDepends(book, id, card);
    MissingClosesNoCycle(book.index);
    MissingClosesNoCycle(Put(book, id, card).index);
  }
}
