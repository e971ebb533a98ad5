/** What one roll-up shows, and that on a board without cycles the cards without children decide everything. */
module ClosedForm {
  import opened Text
  import opened Forest
  import opened RollUp
  import opened Settling

  /** How strongly a status weighs in a roll-up: done, failed, active, blocked. */
  function Rank(st: Status): nat
  {
    match st
    case Blocked => 3
    case Failed => 1
    case Done => 0
    case Unlisted(_) => 0
    case _ => 2
  }

  /** The status shown for a rank. */
  function ShownRank(n: nat): Status
  {
    if n == 0 then Done else if n == 1 then Failed else if n == 2 then HandoffQueued else Blocked
  }

  /** r is the highest rank among ids, and some id has it. */
  ghost predicate Highest(ids: seq<string>, st: Statuses, r: nat)
  {
    && (exists c :: c in ids && c in st && Rank(st[c]) == r)
    && (forall c :: c in ids && c in st ==> Rank(st[c]) <= r)
  }

  lemma PickedExists(ids: seq<string>, st: Statuses, c: Class)
    requires Pick(ids, st, c) != []
    ensures exists x :: x in ids && x in st && InClass(st[x], c)
  {
    assert Pick(ids, st, c)[0] in Pick(ids, st, c);
  }

  /** No child is in a class nothing was picked for. */
  lemma NonePicked(ids: seq<string>, st: Statuses, c: Class, x: string)
    requires Pick(ids, st, c) == [] && x in ids && x in st
    ensures !InClass(st[x], c)
  {
    assert x !in Pick(ids, st, c);
  }

  lemma DecidedIsHighest(ids: seq<string>, st: Statuses, c: Class, x: string)
    requires Deciding(ids, st) == Some(c) && x in ids && x in st
    ensures Rank(st[x]) <= Rank(Shown(c))
  {
    if c != BlockedClass { NonePicked(ids, st, BlockedClass, x); }
    if c != BlockedClass && c != ActiveClass { NonePicked(ids, st, ActiveClass, x); }
    if c == DoneClass { NonePicked(ids, st, FailedClass, x); }
  }

  lemma DecidedExists(ids: seq<string>, st: Statuses, c: Class)
    requires ids != [] && Agree(ids, st, st) && Deciding(ids, st) == Some(c)
    ensures exists x :: x in ids && x in st && Rank(st[x]) == Rank(Shown(c))
  {
    if c == DoneClass { assert ids[0] in ids && ids[0] in Pick(ids, st, c); }
    PickedExists(ids, st, c);
  }

  /** One roll-up shows the highest rank of the children. */
  lemma RollUpHighest(own: (Status, string), ids: seq<string>, st: Statuses)
    requires ids != [] && Agree(ids, st, st)
    ensures Highest(ids, st, Rank(RollUpStatus(own, ids, st).0))
    ensures RollUpStatus(own, ids, st).0 == ShownRank(Rank(RollUpStatus(own, ids, st).0))
  {
    DecidingSame(ids, st, st);
    var c := Deciding(ids, st).value;
    DecidedExists(ids, st, c);
    forall x | x in ids && x in st ensures Rank(st[x]) <= Rank(Shown(c)) { DecidedIsHighest(ids, st, c, x); }
  }

  function Heading(st: Status): string
  {
    match st
    case Blocked => "Waiting on operator response for child task(s): "
    case HandoffQueued => "Waiting on child task(s): "
    case Failed => "Child task failed: "
    case _ => "Completed via child task(s): "
  }

  /** The notes say what is waited for, and name exactly the children of the rank shown. */
  ghost predicate NamesTop(ids: seq<string>, st: Statuses, shown: (Status, string), names: seq<string>)
  {
    && shown.1 == Heading(shown.0) + Join(names)
    && forall x :: x in names <==> x in ids && x in st && Rank(st[x]) == Rank(shown.0)
  }

  lemma PickedAreTop(ids: seq<string>, st: Statuses, c: Class)
    requires ids != [] && Agree(ids, st, st)
    ensures forall x :: x in Pick(ids, st, c) <==> x in ids && x in st && Rank(st[x]) == Rank(Shown(c))
  {
  }

  ghost predicate NotesName(ids: seq<string>, st: Statuses, shown: (Status, string))
  {
    exists names :: NamesTop(ids, st, shown, names)
  }

  lemma HeadingOf(c: Class, names: seq<string>)
    ensures Remark(c, names) == Heading(Shown(c)) + Join(names)
  {
  }

  lemma NotesNameTop(own: (Status, string), ids: seq<string>, st: Statuses, shown: (Status, string))
    requires ids != [] && Agree(ids, st, st) && shown == RollUpStatus(own, ids, st)
    ensures NotesName(ids, st, shown)
  {
    DecidingSame(ids, st, st);
    var c := Deciding(ids, st).value;
    var names := Pick(ids, st, c);
    PickedAreTop(ids, st, c);
    HeadingOf(c, names);
    assert NamesTop(ids, st, shown, names);
  }

  /** A proper descendant of p is at or below one of its children. */
  lemma ThroughChild(order: seq<string>, index: Index, p: string, d: string, k: nat) returns (c: string)
    requires Lists(order, index) && k > 0 && Up(LinksOf(index), d, k) == Some(p)
    ensures c in Kids(order, index, p) && Up(LinksOf(index), d, k - 1) == Some(c)
  {
    var up := LinksOf(index);
    UpSplit(up, d, k - 1, 1);
    c := Up(up, d, k - 1).value;
    assert c in up && up[c] == p;
  }

  /** Cards without children hold the same status and notes on both boards. */
  ghost predicate SameLeaves(order: seq<string>, a: Index, b: Index)
  {
    SameShape(a, b) && forall l {:trigger Own(b, l)} :: l in a && Kids(order, a, l) == [] ==> Own(a, l) == Own(b, l)
  }

  ghost predicate SameResult(roll: Rule, order: seq<string>, a: Index, b: Index, id: string, h: nat)
  {
    BottomUp(roll, order, a, id, h) == BottomUp(roll, order, b, id, h)
  }

  ghost predicate SameResults(roll: Rule, order: seq<string>, a: Index, b: Index, ids: seq<string>, h: nat)
  {
    forall c :: c in ids ==> SameResult(roll, order, a, b, c, h)
  }

  lemma SameUpwards(roll: Rule, order: seq<string>, a: Index, b: Index, p: string, h: nat, kids: seq<string>)
    requires Decisive(roll) && Listed(a)
    requires kids == Kids(order, a, p) && kids == Kids(order, b, p) && kids != []
    requires SameResults(roll, order, a, b, kids, h)
    ensures SameResult(roll, order, a, b, p, h + 1)
  {
    var x, y := Computed(roll, order, a, kids, h), Computed(roll, order, b, kids, h);
    forall c | c in kids ensures c in x && c in y && x[c] == y[c] && !x[c].Unlisted? {
      assert SameResult(roll, order, a, b, c, h);
      BottomUpListed(roll, order, a, c, h);
    }
    RollSame(roll, Own(a, p), Own(b, p), kids, x, y);
  }

  lemma LeafDecides(roll: Rule, order: seq<string>, a: Index, b: Index, id: string, h: nat)
    requires SameLeaves(order, a, b) && id in a && Kids(order, a, id) == []
    ensures SameResult(roll, order, a, b, id, h)
  {
    SameShapeSameKids(order, a, b, id);
    assert Own(a, id) == Own(b, id);
  }

  lemma ParentDecided(
    roll: Rule, order: seq<string>, a: Index, b: Index, id: string, h: nat, next: nat, kids: seq<string>)
    requires Decisive(roll) && Listed(a) && SameLeaves(order, a, b) && kids == Kids(order, a, id) && kids != []
    requires SameResults(roll, order, a, b, kids, h) && next == h + 1
    ensures SameResult(roll, order, a, b, id, next)
  {
    SameShapeSameKids(order, a, b, id);
    SameUpwards(roll, order, a, b, id, h, kids);
  }

  /** Only the cards without children decide: what a parent held before never matters. */
  lemma {:induction false} LeavesDecide(roll: Rule, order: seq<string>, a: Index, b: Index, id: string, h: nat)
    requires Decisive(roll) && Listed(a) && SameLeaves(order, a, b) && id in a && Below(LinksOf(a), id, h)
    ensures SameResult(roll, order, a, b, id, h)
    decreases h, 1
  {
    var kids := Kids(order, a, id);
    if kids == [] {
      LeafDecides(roll, order, a, b, id, h);
    } else {
      ChildLevel(order, a, id, kids[0], h);
      KidsDecide(roll, order, a, b, id, h - 1, kids);
      ParentDecided(roll, order, a, b, id, h - 1, h, kids);
    }
  }

  lemma {:induction false} KidsDecide(roll: Rule, order: seq<string>, a: Index, b: Index, p: string, h: nat, kids: seq<string>)
    requires Decisive(roll) && Listed(a) && SameLeaves(order, a, b) && Below(LinksOf(a), p, h + 1)
    requires kids == Kids(order, a, p)
    ensures SameResults(roll, order, a, b, kids, h)
    decreases h, 2
  {
    forall c | c in kids ensures SameResult(roll, order, a, b, c, h) {
      ChildLevel(order, a, p, c, h + 1);
      KidLinks(order, a, p, c);
      LeavesDecide(roll, order, a, b, c, h);
    }
  }
}
