/** A workspace over many runs: the boards that its edits, each followed by reconciling, leave one after the other. */
module BoardRuns {
  import opened Text
  import opened Forest
  import opened RollUp
  import opened Schedules
  import opened TaskEdits
  import opened TaskBoard
  import opened Records

  /** What a runtime does to the board: it claims a job's card, records how its run ended, or files its handoffs. */
  datatype Edit =
    | Claims(id: string, agent: string, goal: string)
    | Finishes(id: string, agent: string, questions: seq<string>, routes: seq<string>, report: string)
    | Fails(id: string, agent: string, summary: string)
    | Files(requests: seq<Request>, source: string, parent: Option<string>)

  /** The board an edit reconciles. */
  function Edited(book: Book, e: Edit): Book
  {
    match e
    case Claims(id, agent, goal) => Claimed(book, id, agent, goal)
    case Finishes(id, agent, questions, routes, report) => Finished(book, id, agent, Outcome(questions, routes, report))
    case Fails(id, agent, summary) => Failing(book, id, agent, summary)
    case Files(requests, source, parent) => FileAll(book, requests, source, parent).0
  }

  ghost function Reconciled(book: Book): Book
    requires Known(book.order, book.index)
  {
    Book(book.order, Rolled(book.order, book.index))
  }

  type KnownBook = book: Book | Known(book.order, book.index) ghost witness Book([], map[])

  lemma EditedKnown(book: KnownBook, e: Edit)
    ensures var out := Edited(book, e); Known(out.order, out.index)
  {
    match e
    case Claims(id, agent, goal) => PutKnown(book, id, Edited(book, e).index[id]);
    case Finishes(id, agent, _, _, _) => if id in book.index && id != "" { PutKnown(book, id, Edited(book, e).index[id]); }
    case Fails(id, agent, summary) => if id != "" { PutKnown(book, id, Edited(book, e).index[id]); }
    case Files(requests, source, parent) => FiledKnown(book, requests, source, parent);
  }

  /** The board after the edits. */
  ghost function Boards(book: KnownBook, edits: seq<Edit>): KnownBook
  {
    if |edits| == 0 then book
    else
      var before := Boards(book, edits[..|edits| - 1]);
      EditedKnown(before, edits[|edits| - 1]);
      var out := Edited(before, edits[|edits| - 1]);
      RolledKnown(out.order, out.index);
      Reconciled(out)
  }

  ghost predicate NoCycle(book: Book)
  {
    Acyclic(LinksOf(book.index))
  }

  /** No handoff that the edit files leads from its task back to the card it is filed under. */
  ghost predicate Safe(book: Book, e: Edit)
  {
    e.Files? ==> AllSafe(book, e.requests, e.source, e.parent)
  }

  /** From a board without cycles an edit leaves one exactly when it is safe. */
  lemma EditIff(book: KnownBook, e: Edit)
    requires NoCycle(book)
    ensures NoCycle(Edited(book, e)) <==> Safe(book, e)
  {
    match e
    case Claims(id, agent, goal) => PutKeepsAcyclic(book, id, Edited(book, e).index[id]);
    case Finishes(id, agent, _, _, _) => if id in book.index && id != "" { PutKeepsAcyclic(book, id, Edited(book, e).index[id]); }
    case Fails(id, agent, summary) => if id != "" { PutKeepsAcyclic(book, id, Edited(book, e).index[id]); }
    case Files(requests, source, parent) => FileAllKeepsAcyclicIff(book, requests, source, parent);
  }

  lemma ReconciledKeepsLinks(book: KnownBook)
    ensures NoCycle(Reconciled(book)) <==> NoCycle(book)
  {
    RolledKnown(book.order, book.index);
    SameShapeSameLinks(book.order, book.index, Rolled(book.order, book.index));
  }

  ghost predicate NeverCyclic(book: KnownBook, edits: seq<Edit>)
  {
    forall k: nat :: k <= |edits| ==> NoCycle(Boards(book, edits[..k]))
  }

  /** Edit k is safe on the board it is made on. */
  ghost predicate SafeThen(book: KnownBook, edits: seq<Edit>, k: nat)
    requires k < |edits|
  {
    Safe(Boards(book, edits[..k]), edits[k])
  }

  /** The loop that reconciles edit k ends. */
  ghost predicate SettlesThen(book: KnownBook, edits: seq<Edit>, k: nat)
    requires k < |edits|
  {
    var out := Edited(Boards(book, edits[..k]), edits[k]); Settles(out.order, out.index)
  }

  lemma NextBoards(book: KnownBook, edits: seq<Edit>, k: nat)
    requires k < |edits|
    ensures var out := Edited(Boards(book, edits[..k]), edits[k]);
      Known(out.order, out.index) && Boards(book, edits[..k + 1]) == Reconciled(out)
  {
    assert edits[..k + 1][..k] == edits[..k];
    EditedKnown(Boards(book, edits[..k]), edits[k]);
  }

  lemma NextNoCycle(book: KnownBook, edits: seq<Edit>, k: nat)
    requires k < |edits| && NoCycle(Boards(book, edits[..k]))
    ensures NoCycle(Boards(book, edits[..k + 1])) <==> SafeThen(book, edits, k)
    ensures SafeThen(book, edits, k) ==> SettlesThen(book, edits, k)
  {
    var before := Boards(book, edits[..k]);
    NextBoards(book, edits, k);
    EditIff(before, edits[k]);
    ReconciledKeepsLinks(Edited(before, edits[k]));
    if SafeThen(book, edits, k) { ForestSettles(Edited(before, edits[k])); }
  }

  lemma {:induction false} NoCycleAfter(book: KnownBook, edits: seq<Edit>, k: nat)
    requires NoCycle(book) && k <= |edits| && forall i: nat :: i < |edits| ==> SafeThen(book, edits, i)
    ensures NoCycle(Boards(book, edits[..k]))
  {
    if k > 0 {
      NoCycleAfter(book, edits, k - 1);
      NextNoCycle(book, edits, k - 1);
    } else {
      assert edits[..0] == [];
    }
  }

  /** A board without cycles never gets one exactly when every handoff is safe on the board it is filed on, and then
      every reconciling loop of the run ends. */
  lemma NeverCyclicIff(book: KnownBook, edits: seq<Edit>)
    requires NoCycle(book)
    ensures NeverCyclic(book, edits) <==> forall k: nat :: k < |edits| ==> SafeThen(book, edits, k)
    ensures NeverCyclic(book, edits) ==> forall k: nat :: k < |edits| ==> SettlesThen(book, edits, k)
  {
    if NeverCyclic(book, edits) {
      forall k: nat | k < |edits| ensures SafeThen(book, edits, k) && SettlesThen(book, edits, k) {
        assert NoCycle(Boards(book, edits[..k])) && NoCycle(Boards(book, edits[..k + 1]));
        NextNoCycle(book, edits, k);
      }
    }
    if forall k: nat :: k < |edits| ==> SafeThen(book, edits, k) {
      forall k: nat | k <= |edits| ensures NoCycle(Boards(book, edits[..k])) { NoCycleAfter(book, edits, k); }
    }
  }
}
