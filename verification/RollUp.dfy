/** Rolling task statuses up to their parents (pc_launcher/artifact_workspace.py, _reconcile_task_index). */
module RollUp {
  import opened Text
  import opened Forest

  /** The statuses of TASK_STATUS_ORDER, and any other text a card may hold. */
  datatype Status = Ready | InProgress | Verify | Review | Blocked | HandoffQueued | Done | Failed | Unlisted(name: string)

  datatype Card = Card(owner: string, status: Status, source: string, dependsOn: Option<string>, goal: string, notes: string)

  type Index = map<string, Card>

  predicate Active(st: Status)
  {
    st in {Ready, InProgress, Verify, Review, HandoffQueued}
  }

  /** The card's parent, when it names one that is in the index. */
  predicate HasParent(index: Index, id: string)
  {
    id in index && index[id].dependsOn.Some? && index[id].dependsOn.value != "" && index[id].dependsOn.value in index
  }

  ghost function LinksOf(index: Index): Links
  {
    map id | id in index && HasParent(index, id) :: index[id].dependsOn.value
  }

  /** The ids whose parent is p, in the order the index lists them. */
  function Kids(order: seq<string>, index: Index, p: string): (r: seq<string>)
    ensures forall c :: c in r <==> c in order && HasParent(index, c) && index[c].dependsOn == Some(p)
  {
    if |order| == 0 then []
    else
      var last := order[|order| - 1];
      assert forall c :: c in order <==> c == last || c in order[..|order| - 1];
      var before := Kids(order[..|order| - 1], index, p);
      if HasParent(index, last) && index[last].dependsOn == Some(p) then before + [last] else before
  }

  /** The statuses a roll-up looks for among the children. */
  datatype Class = BlockedClass | ActiveClass | FailedClass | DoneClass

  predicate InClass(st: Status, c: Class)
  {
    match c
    case BlockedClass => st == Blocked
    case ActiveClass => Active(st)
    case FailedClass => st == Failed
    case DoneClass => st == Done
  }

  type Statuses = map<string, Status>

  /** The ids whose status is in the class, in order. */
  function Pick(ids: seq<string>, st: Statuses, c: Class): (r: seq<string>)
    ensures forall x :: x in r <==> x in ids && x in st && InClass(st[x], c)
  {
    if |ids| == 0 then []
    else
      var last := ids[|ids| - 1];
      assert forall x :: x in ids <==> x == last || x in ids[..|ids| - 1];
      Pick(ids[..|ids| - 1], st, c) + if last in st && InClass(st[last], c) then [last] else []
  }

  function Join(ids: seq<string>): string
  {
    if |ids| == 0 then ""
    else if |ids| == 1 then ids[0]
    else Join(ids[..|ids| - 1]) + ", " + ids[|ids| - 1]
  }

  /** What the children say: the class that decides, if any does, in the order blocked, active, failed, done. */
  function Deciding(ids: seq<string>, st: Statuses): Option<Class>
  {
    if Pick(ids, st, BlockedClass) != [] then Some(BlockedClass)
    else if Pick(ids, st, ActiveClass) != [] then Some(ActiveClass)
    else if Pick(ids, st, FailedClass) != [] then Some(FailedClass)
    else if ids != [] && forall x :: x in ids ==> x in st && st[x] == Done then Some(DoneClass)
    else None
  }

  /** The status a class gives the parent. */
  function Shown(c: Class): Status
  {
    match c
    case BlockedClass => Blocked
    case ActiveClass => HandoffQueued
    case FailedClass => Failed
    case DoneClass => Done
  }

  function Remark(c: Class, ids: seq<string>): string
  {
    match c
    case BlockedClass => "Waiting on operator response for child task(s): " + Join(ids)
    case ActiveClass => "Waiting on child task(s): " + Join(ids)
    case FailedClass => "Child task failed: " + Join(ids)
    case DoneClass => "Completed via child task(s): " + Join(ids)
  }

  /** A parent's next status and notes, from its own and its children's statuses. */
  function RollUpStatus(own: (Status, string), ids: seq<string>, st: Statuses): (Status, string)
  {
    match Deciding(ids, st)
    case None => own
    case Some(c) => (Shown(c), Remark(c, Pick(ids, st, c)))
  }

  /** A way of rolling children up: from the parent's own status and notes, its children and their statuses. */
  type Rule = ((Status, string), seq<string>, Statuses) -> (Status, string)

  function StatusesOf(index: Index): (st: Statuses)
    ensures st.Keys == index.Keys
  {
    map id | id in index :: index[id].status
  }

  /** Roll the children of p up into it. */
  function Visit(roll: Rule, order: seq<string>, index: Index, p: string): (r: Index)
    ensures r.Keys == index.Keys
    ensures forall id :: id in index && id != p ==> r[id] == index[id]
    ensures p in index ==> r[p].dependsOn == index[p].dependsOn
  {
    var kids := Kids(order, index, p);
    if p !in index || kids == [] then index
    else
      var next := roll((index[p].status, index[p].notes), kids, StatusesOf(index));
      index[p := index[p].(status := next.0, notes := next.1)]
  }

  /** One round over the given parents. */
  function Sweep(roll: Rule, order: seq<string>, index: Index, parents: seq<string>): (r: Index)
    ensures r.Keys == index.Keys
  {
    if |parents| == 0 then index
    else Visit(roll, order, Sweep(roll, order, index, parents[..|parents| - 1]), parents[|parents| - 1])
  }

  function Sweeps(roll: Rule, order: seq<string>, index: Index, parents: seq<string>, n: nat): (r: Index)
    ensures r.Keys == index.Keys
  {
    if n == 0 then index else Sweep(roll, order, Sweeps(roll, order, index, parents, n - 1), parents)
  }

  // ---- hypotheses ----

  predicate Listed(index: Index)
  {
    forall id :: id in index ==> !index[id].status.Unlisted?
  }

  /** order lists exactly the ids of the index. */
  ghost predicate Lists(order: seq<string>, index: Index)
  {
    forall id :: id in order <==> id in index
  }

  /** parents holds every id some card depends on. */
  predicate CoversParents(parents: seq<string>, index: Index)
  {
    forall id :: id in index && HasParent(index, id) ==> index[id].dependsOn.value in parents
  }

  /** Two indexes with the same ids and the same dependencies. */
  predicate SameShape(a: Index, b: Index)
  {
    a.Keys == b.Keys && forall id :: id in a ==> a[id].dependsOn == b[id].dependsOn
  }

  lemma SameShapeSameLinks(order: seq<string>, a: Index, b: Index)
    requires SameShape(a, b)
    ensures LinksOf(a) == LinksOf(b)
    ensures forall id :: HasParent(a, id) <==> HasParent(b, id)
  {
  }

  lemma {:induction false} SameShapeSameKids(order: seq<string>, a: Index, b: Index, p: string)
    requires SameShape(a, b)
    ensures Kids(order, a, p) == Kids(order, b, p)
  {
    if |order| > 0 {
      SameShapeSameKids(order[..|order| - 1], a, b, p);
      SameShapeSameLinks(order, a, b);
    }
  }

  lemma {:induction false} SweepShape(roll: Rule, order: seq<string>, index: Index, parents: seq<string>)
    ensures SameShape(index, Sweep(roll, order, index, parents))
  {
    if |parents| > 0 {
      SweepShape(roll, order, index, parents[..|parents| - 1]);
    }
  }

  // ---- bottom-up recursion ----

  function Own(index: Index, id: string): (Status, string)
  {
    if id in index then (index[id].status, index[id].notes) else (Done, "")
  }

  /** The status and notes of id computed from its descendants, h levels deep. */
  function BottomUp(roll: Rule, order: seq<string>, index: Index, id: string, h: nat): (Status, string)
    decreases h, 0
  {
    var kids := Kids(order, index, id);
    if h == 0 || kids == [] then Own(index, id)
    else roll(Own(index, id), kids, Computed(roll, order, index, kids, h - 1))
  }

  /** The computed statuses of the given ids. */
  function Computed(roll: Rule, order: seq<string>, index: Index, ids: seq<string>, h: nat): Statuses
    decreases h, 1
  {
    map c | c in ids :: BottomUp(roll, order, index, c, h).0
  }

  lemma ComputedAt(roll: Rule, order: seq<string>, index: Index, ids: seq<string>, h: nat, c: string)
    requires c in ids
    ensures c in Computed(roll, order, index, ids, h) && Computed(roll, order, index, ids, h)[c] == BottomUp(roll, order, index, c, h).0
  {
  }

  /** The statuses agree on ids and are all listed ones. */
  ghost predicate Agree(ids: seq<string>, a: Statuses, b: Statuses)
  {
    forall c :: c in ids ==> c in a && c in b && a[c] == b[c] && !a[c].Unlisted?
  }

  lemma {:induction false} PickSame(ids: seq<string>, a: Statuses, b: Statuses, c: Class)
    requires Agree(ids, a, b)
    ensures Pick(ids, a, c) == Pick(ids, b, c)
  {
    if |ids| > 0 {
      assert forall x :: x in ids[..|ids| - 1] ==> x in ids;
      assert ids[|ids| - 1] in ids;
      PickSame(ids[..|ids| - 1], a, b, c);
    }
  }

  /** Listed children always decide, and equal children decide alike. */
  lemma DecidingSame(ids: seq<string>, a: Statuses, b: Statuses)
    requires ids != [] && Agree(ids, a, b)
    ensures Deciding(ids, a).Some? && Deciding(ids, a) == Deciding(ids, b)
  {
    PickSame(ids, a, b, BlockedClass);
    PickSame(ids, a, b, ActiveClass);
    PickSame(ids, a, b, FailedClass);
    if Pick(ids, a, BlockedClass) == [] && Pick(ids, a, ActiveClass) == [] && Pick(ids, a, FailedClass) == [] {
      forall x | x in ids ensures a[x] == Done {
        assert x !in Pick(ids, a, BlockedClass) && x !in Pick(ids, a, ActiveClass) && x !in Pick(ids, a, FailedClass);
      }
    }
  }

  /** Equal listed children roll up to the same listed result, whatever the parent held. */
  lemma RollUpSame(own: (Status, string), own': (Status, string), ids: seq<string>, a: Statuses, b: Statuses)
    requires ids != [] && Agree(ids, a, b)
    ensures RollUpStatus(own, ids, a) == RollUpStatus(own', ids, b)
    ensures !RollUpStatus(own, ids, a).0.Unlisted?
  {
    DecidingSame(ids, a, b);
    PickSame(ids, a, b, Deciding(ids, a).value);
  }

  /** The rule looks at listed children only, and gives a listed status. */
  ghost predicate Decisive(roll: Rule)
  {
    forall own, own': (Status, string), ids, a, b :: ids != [] && Agree(ids, a, b) ==> SameRoll(roll, own, own', ids, a, b)
  }

  ghost predicate SameRoll(roll: Rule, own: (Status, string), own': (Status, string), ids: seq<string>, a: Statuses, b: Statuses)
  {
    roll(own, ids, a) == roll(own', ids, b) && !roll(own, ids, a).0.Unlisted?
  }

  lemma RollSame(roll: Rule, own: (Status, string), own': (Status, string), ids: seq<string>, a: Statuses, b: Statuses)
    requires Decisive(roll) && ids != [] && Agree(ids, a, b)
    ensures roll(own, ids, a) == roll(own', ids, b)
    ensures !roll(own, ids, a).0.Unlisted?
  {
    assert SameRoll(roll, own, own', ids, a, b);
  }

  lemma RollUpIsDecisive()
    ensures Decisive(RollUpStatus)
  {
    forall own, own': (Status, string), ids, a, b | ids != [] && Agree(ids, a, b)
      ensures SameRoll(RollUpStatus, own, own', ids, a, b)
    {
      RollUpSame(own, own', ids, a, b);
    }
  }

  lemma {:induction false} BottomUpListed(roll: Rule, order: seq<string>, index: Index, id: string, h: nat)
    requires Decisive(roll) && Listed(index)
    ensures !BottomUp(roll, order, index, id, h).0.Unlisted?
    decreases h
  {
    var kids := Kids(order, index, id);
    if h > 0 && kids != [] {
      var st := Computed(roll, order, index, kids, h - 1);
      forall c | c in kids ensures c in st && !st[c].Unlisted? {
        ComputedAt(roll, order, index, kids, h - 1, c);
        BottomUpListed(roll, order, index, c, h - 1);
      }
      RollSame(roll, Own(index, id), Own(index, id), kids, st, st);
    }
  }
}
