/** Paging through a session's transcript with a cursor (nas_bridge/app/session_service.py, get_thread_delta). */
module ThreadDelta {
  import opened Text

  /** A transcript row: its timestamp and id, and the kind and task its content was classified as. */
  datatype Entry = Entry(time: int, id: int, kind: string, task: Option<string>)

  /** No cursor, a cursor text that does not decode, or the position just after the row (time, id). */
  datatype Cursor = Start | Junk(text: string) | At(time: int, id: int)

  const FetchLimit := 120

  /** Rows are ordered by time, then by id. */
  predicate Before(a: Entry, b: Entry)
  {
    a.time < b.time || (a.time == b.time && a.id < b.id)
  }

  predicate Sorted(rows: seq<Entry>)
  {
    forall i, j :: 0 <= i < j < |rows| ==> Before(rows[i], rows[j])
  }

  /** The row lies after the cursor. */
  predicate Past(e: Entry, c: Cursor)
  {
    c.At? ==> e.time > c.time || (e.time == c.time && e.id > c.id)
  }

  function CursorOf(e: Entry): Cursor
  {
    At(e.time, e.id)
  }

  /** The kinds and the task a reader asks for; an empty set or no task asks for all. */
  datatype Filter = Filter(kinds: set<string>, task: Option<string>)

  predicate Wanted(e: Entry, f: Filter)
  {
    (f.kinds == {} || e.kind in f.kinds) && (f.task.None? || f.task == e.task)
  }

  function Where(rows: seq<Entry>, p: Entry -> bool): (r: seq<Entry>)
    ensures forall e :: e in r <==> e in rows && p(e)
  {
    if |rows| == 0 then []
    else
      var last := rows[|rows| - 1];
      assert forall e :: e in rows <==> e == last || e in rows[..|rows| - 1];
      Where(rows[..|rows| - 1], p) + if p(last) then [last] else []
  }

  function Head(rows: seq<Entry>): seq<Entry>
  {
    if |rows| <= FetchLimit then rows else rows[..FetchLimit]
  }

  function Tail(rows: seq<Entry>): seq<Entry>
  {
    if |rows| <= FetchLimit then rows else rows[|rows| - FetchLimit..]
  }

  function PastOf(c: Cursor): Entry -> bool
  {
    (e: Entry) => Past(e, c)
  }

  function Matching(f: Filter): Entry -> bool
  {
    (e: Entry) => Wanted(e, f)
  }

  function Since(c: Cursor): Entry -> bool
  {
    (e: Entry) => c.At? ==> e.time >= c.time
  }

  /** At the cursor's time, and not after it. */
  function Repeated(c: Cursor): Entry -> bool
  {
    (e: Entry) => c.At? && e.time == c.time && !Past(e, c)
  }

  /** The rows a poll reads from the table: the latest ones, or the first ones at or after the cursor's time. */
  function Fetched(log: seq<Entry>, c: Cursor): seq<Entry>
  {
    if c.At? then Head(Where(log, Since(c))) else Tail(log)
  }

  /** How many of the rows a poll scans before it has limit matching ones. The limit is looked at only after
      a row matched, so a limit below one acts as one. */
  function Scanned(rows: seq<Entry>, f: Filter, limit: int): (n: nat)
    ensures n <= |rows| && (rows != [] ==> n > 0)
  {
    if |rows| == 0 then 0
    else if Wanted(rows[0], f) && limit <= 1 then 1
    else 1 + Scanned(rows[1..], f, if Wanted(rows[0], f) then limit - 1 else limit)
  }

  /** One poll: the matching rows, and the cursor to come back with. */
  function Poll(log: seq<Entry>, c: Cursor, f: Filter, limit: int): (seq<Entry>, Cursor)
  {
    var rows := Where(Fetched(log, c), PastOf(c));
    var n := Scanned(rows, f, limit);
    (Where(rows[..n], Matching(f)), if n == 0 then c else CursorOf(rows[n - 1]))
  }

  // ---- the loop ----

  lemma SplitNext(front: seq<Entry>, last: Entry, p: Entry -> bool, k: nat)
    requires k <= |front| && Where(front, p) == Where(front[..k], p) + Where(front[k..], p)
    ensures Where(front + [last], p) == Where(front[..k], p) + Where(front[k..] + [last], p)
  {
    WhereSnoc(front, last, p);
    WhereSnoc(front[k..], last, p);
    Regroup(Where(front[..k], p), Where(front[k..], p), Just(last, p));
  }

  lemma Regroup(a: seq<Entry>, b: seq<Entry>, c: seq<Entry>)
    ensures (a + b) + c == a + (b + c)
  {
  }

  lemma CutLast(rows: seq<Entry>, k: nat)
    requires k < |rows|
    ensures var front, last := rows[..|rows| - 1], rows[|rows| - 1];
      rows == front + [last] && rows[..k] == front[..k] && rows[k..] == front[k..] + [last]
  {
  }

  lemma {:induction false} WhereSplit(rows: seq<Entry>, p: Entry -> bool, k: nat)
    requires k <= |rows|
    ensures Where(rows, p) == Where(rows[..k], p) + Where(rows[k..], p)
    decreases |rows|
  {
    if k == |rows| {
      WholePrefix(rows);
      assert rows[k..] == [];
    } else {
      WhereSplit(rows[..|rows| - 1], p, k);
      SplitNext(rows[..|rows| - 1], rows[|rows| - 1], p, k);
      CutLast(rows, k);
    }
  }

  lemma WhereCons(rows: seq<Entry>, p: Entry -> bool, k: nat)
    requires k < |rows|
    ensures Where(rows[k..], p) == (if p(rows[k]) then [rows[k]] else []) + Where(rows[k + 1..], p)
  {
    WhereSplit(rows[k..], p, 1);
    assert rows[k..][1..] == rows[k + 1..];
    assert rows[k..][..1] == [rows[k]];
    assert [rows[k]][..0] == [];
    assert Where([rows[k]], p) == if p(rows[k]) then [rows[k]] else [];
  }

  /** The scan loop part-way: of the rows past the cursor it has seen some, and rest is to come. */
  ghost predicate ScanAt(
    rows: seq<Entry>, c: Cursor, f: Filter, limit: int, seen: seq<Entry>, rest: seq<Entry>, events: seq<Entry>, next: Cursor)
  {
    && rows == seen + rest
    && events == Where(seen, Matching(f))
    && next == (if seen == [] then c else CursorOf(seen[|seen| - 1]))
    && Scanned(rows, f, limit) == |seen| + Scanned(rest, f, limit - |events|)
  }

  lemma ScanSteps(
    rows: seq<Entry>, c: Cursor, f: Filter, limit: int, seen: seq<Entry>, rest: seq<Entry>, events: seq<Entry>, next: Cursor)
    requires ScanAt(rows, c, f, limit, seen, rest, events, next) && rest != []
    requires Wanted(rest[0], f) ==> |events| + 1 < limit
    ensures ScanAt(rows, c, f, limit, seen + [rest[0]], rest[1..],
      if Wanted(rest[0], f) then events + [rest[0]] else events, CursorOf(rest[0]))
  {
    var now := seen + [rest[0]];
    assert now[..|seen|] == seen && now[|now| - 1] == rest[0];
    assert rows == now + rest[1..];
  }

  lemma StopsAt(
    rows: seq<Entry>, c: Cursor, f: Filter, limit: int, seen: seq<Entry>, rest: seq<Entry>, events: seq<Entry>, next: Cursor)
    requires ScanAt(rows, c, f, limit, seen, rest, events, next) && rest != []
    requires Wanted(rest[0], f) && |events| + 1 >= limit
    ensures Scanned(rows, f, limit) == |seen| + 1 && rows[|seen|] == rest[0]
    ensures Where(rows[..|seen| + 1], Matching(f)) == events + [rest[0]]
  {
    var now := seen + [rest[0]];
    assert now[..|seen|] == seen && now[|now| - 1] == rest[0];
    assert rows[..|now|] == now;
  }

  lemma ScanStops(
    log: seq<Entry>, c: Cursor, f: Filter, limit: int, seen: seq<Entry>, rest: seq<Entry>, events: seq<Entry>, next: Cursor)
    requires ScanAt(Where(Fetched(log, c), PastOf(c)), c, f, limit, seen, rest, events, next) && rest != []
    requires Wanted(rest[0], f) && |events| + 1 >= limit
    ensures Poll(log, c, f, limit) == (events + [rest[0]], CursorOf(rest[0]))
  {
    StopsAt(Where(Fetched(log, c), PastOf(c)), c, f, limit, seen, rest, events, next);
  }

  lemma ScanEnds(
    log: seq<Entry>, c: Cursor, f: Filter, limit: int, seen: seq<Entry>, events: seq<Entry>, next: Cursor)
    requires ScanAt(Where(Fetched(log, c), PastOf(c)), c, f, limit, seen, [], events, next)
    ensures Poll(log, c, f, limit) == (events, next)
  {
    assert seen + [] == seen && seen[..|seen|] == seen;
  }

  /** The scan before row k: seen are the rows past the cursor so far. */
  ghost predicate ReadAt(
    log: seq<Entry>, c: Cursor, f: Filter, limit: int, k: nat, seen: seq<Entry>, events: seq<Entry>, next: Cursor)
    requires k <= |Fetched(log, c)|
  {
    var rows := Fetched(log, c);
    ScanAt(Where(rows, PastOf(c)), c, f, limit, seen, Where(rows[k..], PastOf(c)), events, next)
  }

  lemma ReadStart(log: seq<Entry>, c: Cursor, f: Filter, limit: int)
    ensures ReadAt(log, c, f, limit, 0, [], [], c)
  {
    assert Fetched(log, c)[0..] == Fetched(log, c);
  }

  lemma ReadEnd(log: seq<Entry>, c: Cursor, f: Filter, limit: int, seen: seq<Entry>, events: seq<Entry>, next: Cursor)
    requires ReadAt(log, c, f, limit, |Fetched(log, c)|, seen, events, next)
    ensures Poll(log, c, f, limit) == (events, next)
  {
    assert Fetched(log, c)[|Fetched(log, c)|..] == [];
    ScanEnds(log, c, f, limit, seen, events, next);
  }

  lemma ReadOver(
    log: seq<Entry>, c: Cursor, f: Filter, limit: int, k: nat, seen: seq<Entry>, events: seq<Entry>, next: Cursor)
    requires k < |Fetched(log, c)| && ReadAt(log, c, f, limit, k, seen, events, next) && !Past(Fetched(log, c)[k], c)
    ensures ReadAt(log, c, f, limit, k + 1, seen, events, next)
  {
    var rows := Fetched(log, c);
    WhereCons(rows, PastOf(c), k);
    assert [] + Where(rows[k + 1..], PastOf(c)) == Where(rows[k + 1..], PastOf(c));
  }

  /** The next row past the cursor either ends the poll or carries the scan on. */
  lemma ReadNext(
    log: seq<Entry>, c: Cursor, f: Filter, limit: int, k: nat, seen: seq<Entry>, events: seq<Entry>, next: Cursor, e: Entry)
    requires k < |Fetched(log, c)| && ReadAt(log, c, f, limit, k, seen, events, next)
    requires e == Fetched(log, c)[k] && Past(e, c)
    ensures var picked := if Wanted(e, f) then events + [e] else events;
      if Wanted(e, f) && |picked| >= limit then Poll(log, c, f, limit) == (picked, CursorOf(e))
      else ReadAt(log, c, f, limit, k + 1, seen + [e], picked, CursorOf(e))
  {
    var rows := Fetched(log, c);
    var rest := Where(rows[k..], PastOf(c));
    WhereCons(rows, PastOf(c), k);
    assert rest[0] == e && rest[1..] == Where(rows[k + 1..], PastOf(c));
    if Wanted(e, f) && |events| + 1 >= limit {
      ScanStops(log, c, f, limit, seen, rest, events, next);
    } else {
      ScanSteps(Where(rows, PastOf(c)), c, f, limit, seen, rest, events, next);
    }
  }

  /** What the scan gives from row k on, with what it has so far. */
  function ScanFrom(rows: seq<Entry>, c: Cursor, f: Filter, limit: int, k: nat, events: seq<Entry>, next: Cursor): (seq<Entry>, Cursor)
    requires k <= |rows|
    decreases |rows| - k
  {
    if k == |rows| then (events, next)
    else
      var e := rows[k];
      if !Past(e, c) then ScanFrom(rows, c, f, limit, k + 1, events, next)
      else if !Wanted(e, f) then ScanFrom(rows, c, f, limit, k + 1, events, CursorOf(e))
      else if |events| + 1 >= limit then (events + [e], CursorOf(e))
      else ScanFrom(rows, c, f, limit, k + 1, events + [e], CursorOf(e))
  }

  /** The scan, wherever it stands, ends in what the poll is specified to give. */
  lemma {:induction false} ScanIsPoll(
    log: seq<Entry>, c: Cursor, f: Filter, limit: int, k: nat, seen: seq<Entry>, events: seq<Entry>, next: Cursor)
    requires k <= |Fetched(log, c)| && ReadAt(log, c, f, limit, k, seen, events, next)
    ensures ScanFrom(Fetched(log, c), c, f, limit, k, events, next) == Poll(log, c, f, limit)
    decreases |Fetched(log, c)| - k
  {
    if k == |Fetched(log, c)| {
      ReadEnd(log, c, f, limit, seen, events, next);
    } else {
      var e := Fetched(log, c)[k];
      if !Past(e, c) {
        ReadOver(log, c, f, limit, k, seen, events, next);
        ScanIsPoll(log, c, f, limit, k + 1, seen, events, next);
      } else {
        ReadNext(log, c, f, limit, k, seen, events, next, e);
        if !(Wanted(e, f) && |events| + 1 >= limit) {
          ScanIsPoll(log, c, f, limit, k + 1, seen + [e], if Wanted(e, f) then events + [e] else events, CursorOf(e));
        }
      }
    }
  }

  /** get_thread_delta: read a bounded window and pick out what matches. */
  method GetThreadDelta(log: seq<Entry>, cursor: Cursor, f: Filter, limit: int) returns (events: seq<Entry>, next: Cursor)
    ensures (events, next) == Poll(log, cursor, f, limit)
  {
    var rows := Fetched(log, cursor);
    events, next := [], cursor;
    ReadStart(log, cursor, f, limit);
    ScanIsPoll(log, cursor, f, limit, 0, [], [], cursor);
    ghost var whole := Poll(log, cursor, f, limit);
    var k := 0;
    while k < |rows|
      invariant k <= |rows| && ScanFrom(rows, cursor, f, limit, k, events, next) == whole
    {
      var entry := rows[k];
      if Past(entry, cursor) {
        next := CursorOf(entry);
        if Wanted(entry, f) {
          events := events + [entry];
          if |events| >= limit {
            return;
          }
        }
      }
      k := k + 1;
    }
  }

  // ---- what is left to read ----

  /** The rows a reader with this cursor has not seen: those after it, or the latest ones for a new reader. */
  function Unread(log: seq<Entry>, c: Cursor): seq<Entry>
  {
    if c.At? then Where(log, PastOf(c)) else Tail(log)
  }

  /** The rows that share the cursor's time and are not after it; every poll fetches them again. */
  function Again(log: seq<Entry>, c: Cursor): seq<Entry>
  {
    if c.At? then Where(log, Repeated(c)) else []
  }

  lemma {:induction false} SortedWhere(rows: seq<Entry>, p: Entry -> bool)
    requires Sorted(rows)
    ensures Sorted(Where(rows, p))
  {
    if |rows| > 0 {
      var front, last := rows[..|rows| - 1], rows[|rows| - 1];
      var kept := Where(front, p);
      SortedWhere(front, p);
      forall i | 0 <= i < |kept| ensures Before(kept[i], last) {
        assert kept[i] in front;
        var j :| 0 <= j < |front| && front[j] == kept[i];
      }
    }
  }

  /** Before a row that is not past the cursor no row is. */
  lemma NonePastBefore(front: seq<Entry>, last: Entry, c: Cursor)
    requires Sorted(front + [last]) && c.At? && !Past(last, c)
    ensures Where(front, PastOf(c)) == []
  {
    forall e | e in front ensures !Past(e, c) {
      var j :| 0 <= j < |front| && front[j] == e;
      assert Before((front + [last])[j], (front + [last])[|front|]);
    }
    WhereNone(front, PastOf(c));
  }

  lemma WhereSnoc(front: seq<Entry>, last: Entry, p: Entry -> bool)
    ensures Where(front + [last], p) == Where(front, p) + Just(last, p)
  {
    assert (front + [last])[..|front|] == front;
  }

  /** What ends both parts ends the whole. */
  lemma AppendBoth(r: seq<Entry>, p: seq<Entry>, x: seq<Entry>, y: seq<Entry>)
    requires x == [] || (p == [] && y == [])
    ensures (r + p) + (x + y) == (r + x) + (p + y)
  {
  }

  function Just(e: Entry, p: Entry -> bool): seq<Entry>
  {
    if p(e) then [e] else []
  }

  lemma JustSince(e: Entry, c: Cursor)
    requires c.At?
    ensures Just(e, Since(c)) == Just(e, Repeated(c)) + Just(e, PastOf(c))
    ensures Just(e, Repeated(c)) == [] || (!Past(e, c) && Just(e, PastOf(c)) == [])
  {
  }

  lemma FromTimeNext(front: seq<Entry>, last: Entry, c: Cursor)
    requires c.At? && Where(front, Since(c)) == Where(front, Repeated(c)) + Where(front, PastOf(c))
    requires !Past(last, c) ==> Where(front, PastOf(c)) == []
    ensures Where(front + [last], Since(c)) == Where(front + [last], Repeated(c)) + Where(front + [last], PastOf(c))
  {
    WhereSnoc(front, last, Since(c));
    WhereSnoc(front, last, Repeated(c));
    WhereSnoc(front, last, PastOf(c));
    JustSince(last, c);
    AppendBoth(Where(front, Repeated(c)), Where(front, PastOf(c)), Just(last, Repeated(c)), Just(last, PastOf(c)));
  }

  /** The rows at or after the cursor's time are the ones fetched again and then the unread ones. */
  lemma {:induction false} FromTime(log: seq<Entry>, c: Cursor)
    requires Sorted(log) && c.At?
    ensures Where(log, Since(c)) == Where(log, Repeated(c)) + Where(log, PastOf(c))
  {
    if |log| > 0 {
      var front, last := log[..|log| - 1], log[|log| - 1];
      assert log == front + [last];
      FromTime(front, c);
      if !Past(last, c) { NonePastBefore(front, last, c); }
      FromTimeNext(front, last, c);
    }
  }

  lemma {:induction false} WhereAll(rows: seq<Entry>, p: Entry -> bool)
    requires forall i :: 0 <= i < |rows| ==> p(rows[i])
    ensures Where(rows, p) == rows
  {
    if |rows| > 0 {
      var front, last := rows[..|rows| - 1], rows[|rows| - 1];
      assert rows == front + [last];
      WhereAll(front, p);
      WhereSnoc(front, last, p);
    }
  }

  lemma WhereNone(rows: seq<Entry>, p: Entry -> bool)
    requires forall e :: e in rows ==> !p(e)
    ensures Where(rows, p) == []
  {
    if Where(rows, p) != [] { assert Where(rows, p)[0] in Where(rows, p); }
  }

  /** How many unread rows one poll can reach. */
  function Room(log: seq<Entry>, c: Cursor): nat
  {
    var room := FetchLimit - |Again(log, c)|;
    if room <= 0 then 0 else if room <= |Unread(log, c)| then room else |Unread(log, c)|
  }

  lemma HeadAgainOnly(a: seq<Entry>, u: seq<Entry>, p: Entry -> bool)
    requires |a| >= FetchLimit && forall e :: e in a ==> !p(e)
    ensures Where(Head(a + u), p) == []
  {
    forall e | e in Head(a + u) ensures e in a {
      var i :| 0 <= i < FetchLimit && Head(a + u)[i] == e;
      assert a[i] == e;
    }
    WhereNone(Head(a + u), p);
  }

  lemma HeadOf(a: seq<Entry>, u: seq<Entry>, r: nat)
    requires |a| < FetchLimit && r == (if |a| + |u| <= FetchLimit then |u| else FetchLimit - |a|)
    ensures Head(a + u) == a + u[..r]
  {
  }

  lemma {:induction false} WhereTail(a: seq<Entry>, b: seq<Entry>, p: Entry -> bool)
    requires (forall e :: e in a ==> !p(e)) && forall i :: 0 <= i < |b| ==> p(b[i])
    ensures Where(a + b, p) == b
  {
    if |b| == 0 {
      assert a + b == a;
      WhereNone(a, p);
    } else {
      WhereTail(a, b[..|b| - 1], p);
      assert (a + b)[..|a + b| - 1] == a + b[..|b| - 1];
    }
  }

  lemma HeadReaches(a: seq<Entry>, u: seq<Entry>, p: Entry -> bool, r: nat)
    requires |a| < FetchLimit && r == (if |a| + |u| <= FetchLimit then |u| else FetchLimit - |a|)
    requires (forall e :: e in a ==> !p(e)) && forall i :: 0 <= i < |u| ==> p(u[i])
    ensures Where(Head(a + u), p) == u[..r]
  {
    HeadOf(a, u, r);
    WhereTail(a, u[..r], p);
  }

  lemma ScansPastCursor(log: seq<Entry>, c: Cursor)
    requires Sorted(log) && c.At?
    ensures Where(Head(Where(log, Since(c))), PastOf(c)) == Unread(log, c)[..Room(log, c)]
  {
    var a, u := Again(log, c), Unread(log, c);
    FromTime(log, c);
    if |a| >= FetchLimit {
      HeadAgainOnly(a, u, PastOf(c));
    } else {
      forall i | 0 <= i < |u| ensures PastOf(c)(u[i]) { assert u[i] in u; }
      HeadReaches(a, u, PastOf(c), Room(log, c));
    }
  }

  lemma ScansLatest(log: seq<Entry>, c: Cursor)
    requires !c.At?
    ensures Where(Tail(log), PastOf(c)) == Tail(log) == Unread(log, c)[..Room(log, c)]
  {
    WhereAll(Tail(log), PastOf(c));
    assert Room(log, c) == |Tail(log)|;
  }

  /** The rows a poll scans from are the first unread ones. */
  lemma ScansUnread(log: seq<Entry>, c: Cursor)
    requires Sorted(log)
    ensures Where(Fetched(log, c), PastOf(c)) == Unread(log, c)[..Room(log, c)]
  {
    if c.At? { ScansPastCursor(log, c); } else { ScansLatest(log, c); }
  }

  // ---- exactness of one poll ----

  lemma PrefixBySort(rows: seq<Entry>, n: nat, e: Entry)
    requires Sorted(rows) && 0 < n <= |rows| && e in rows
    ensures e in rows[..n] <==> !Past(e, CursorOf(rows[n - 1]))
  {
    var i :| 0 <= i < |rows| && rows[i] == e;
    if i < n { assert rows[..n][i] == e; }
    if e in rows[..n] {
      var j :| 0 <= j < n && rows[..n][j] == e;
      assert rows[j] == e;
    }
  }

  /** events holds exactly the matching unread rows up to next, in order, each once. */
  ghost predicate Exact(unread: seq<Entry>, f: Filter, events: seq<Entry>, next: Cursor)
  {
    Sorted(events) && forall e :: e in events <==> e in unread && !Past(e, next) && Wanted(e, f)
  }

  lemma PrefixIsExact(u: seq<Entry>, n: nat, f: Filter)
    requires Sorted(u) && 0 < n <= |u|
    ensures Exact(u, f, Where(u[..n], Matching(f)), CursorOf(u[n - 1]))
  {
    forall e | e in u ensures e in u[..n] <==> !Past(e, CursorOf(u[n - 1])) { PrefixBySort(u, n, e); }
    forall e | e in u[..n] ensures e in u { PrefixMember(u, n, e); }
    SortedWhere(u[..n], Matching(f));
  }

  lemma PrefixMember(u: seq<Entry>, n: nat, e: Entry)
    requires n <= |u| && e in u[..n]
    ensures e in u
  {
    var j :| 0 <= j < n && u[..n][j] == e;
    assert u[j] == e;
  }

  /** What a poll gives, in terms of the unread rows. */
  lemma PollOfUnread(log: seq<Entry>, c: Cursor, f: Filter, limit: int) returns (n: nat)
    requires Sorted(log) && Room(log, c) > 0
    ensures 0 < n <= |Unread(log, c)|
    ensures Poll(log, c, f, limit) == (Where(Unread(log, c)[..n], Matching(f)), CursorOf(Unread(log, c)[n - 1]))
  {
    ScansUnread(log, c);
    n := PollOfRows(log, c, f, limit, Unread(log, c), Room(log, c));
  }

  lemma PollOfRows(log: seq<Entry>, c: Cursor, f: Filter, limit: int, u: seq<Entry>, r: nat) returns (n: nat)
    requires 0 < r <= |u| && Where(Fetched(log, c), PastOf(c)) == u[..r]
    ensures 0 < n <= |u| && Poll(log, c, f, limit) == (Where(u[..n], Matching(f)), CursorOf(u[n - 1]))
  {
    n := Scanned(u[..r], f, limit);
    assert u[..r][..n] == u[..n];
  }

  /** A poll returns exactly the matching rows between the cursor and the one it gives back. */
  lemma PollIsExact(log: seq<Entry>, c: Cursor, f: Filter, limit: int)
    requires Sorted(log) && Room(log, c) > 0
    ensures var (events, next) := Poll(log, c, f, limit);
      next.At? && Exact(Unread(log, c), f, events, next)
  {
    var n := PollOfUnread(log, c, f, limit);
    UnreadSorted(log, c);
    PrefixIsExact(Unread(log, c), n, f);
  }

  lemma UnreadSorted(log: seq<Entry>, c: Cursor)
    requires Sorted(log)
    ensures Sorted(Unread(log, c))
  {
    if c.At? { SortedWhere(log, PastOf(c)); }
  }

  /** A poll that can reach no unread row returns nothing and the same cursor. */
  lemma PollIsStuck(log: seq<Entry>, c: Cursor, f: Filter, limit: int)
    requires Sorted(log) && Room(log, c) == 0
    ensures Poll(log, c, f, limit) == ([], c)
  {
    ScansUnread(log, c);
  }

  /** With something left to read, a poll moves on exactly when fewer than 120 rows share the cursor's time at
      or before it. */
  lemma ProgressIff(log: seq<Entry>, c: Cursor, f: Filter, limit: int)
    requires Sorted(log) && Unread(log, c) != []
    ensures Poll(log, c, f, limit).1 != c <==> |Again(log, c)| < FetchLimit
  {
    if |Again(log, c)| < FetchLimit {
      PollIsExact(log, c, f, limit);
      PollPasses(log, c, f, limit);
    } else {
      PollIsStuck(log, c, f, limit);
    }
  }

  /** The first unread row lies before the new cursor. */
  lemma PollPasses(log: seq<Entry>, c: Cursor, f: Filter, limit: int)
    requires Sorted(log) && Room(log, c) > 0
    ensures Unread(log, c) != [] && !Past(Unread(log, c)[0], Poll(log, c, f, limit).1)
    ensures Past(Unread(log, c)[0], c)
    ensures forall e :: Past(e, Poll(log, c, f, limit).1) && c.At? ==> Past(e, c)
  {
    var u := Unread(log, c);
    var n := PollOfUnread(log, c, f, limit);
    UnreadSorted(log, c);
    PrefixBySort(u, n, u[0]);
    assert u[..n][0] == u[0];
    assert u[0] in u && u[n - 1] in u;
  }

  /** Of the unread rows up to the new cursor a poll returns exactly those of a kind the reader asks for, if it asks for
      any, and of the task it asks for, if it does. */
  lemma PollFilters(log: seq<Entry>, c: Cursor, f: Filter, limit: int, e: Entry)
    requires Sorted(log) && Room(log, c) > 0 && e in Unread(log, c)
    ensures var (events, next) := Poll(log, c, f, limit);
      next.At? && (e in events <==>
        && (e.time < next.time || (e.time == next.time && e.id <= next.id))
        && (f.kinds != {} ==> e.kind in f.kinds) && (f.task.Some? ==> e.task == f.task))
  {
    PollIsExact(log, c, f, limit);
  }

  // ---- how much one poll returns ----

  /** The most events a poll may return. */
  function Most(limit: int): nat
  {
    if limit < 1 then 1 else limit
  }

  lemma WhereFirst(row: Entry, rest: seq<Entry>, p: Entry -> bool)
    ensures Where([row] + rest, p) == Just(row, p) + Where(rest, p)
  {
    WhereCons([row] + rest, p, 0);
    assert ([row] + rest)[0..] == [row] + rest && ([row] + rest)[1..] == rest;
  }

  /** The first n rows hold as many matching ones as the limit allows, or are all there are. */
  ghost predicate Fills(rows: seq<Entry>, f: Filter, limit: int, n: nat)
    requires n <= |rows|
  {
    && |Where(rows[..n], Matching(f))| <= Most(limit)
    && (n < |rows| ==> n > 0 && Wanted(rows[n - 1], f) && |Where(rows[..n], Matching(f))| == Most(limit))
  }

  lemma FillsFirst(row: Entry, rest: seq<Entry>, f: Filter, limit: int)
    requires Wanted(row, f) && limit <= 1
    ensures Fills([row] + rest, f, limit, 1)
  {
    WhereFirst(row, [], Matching(f));
    assert ([row] + rest)[..1] == [row] && [row] + [] == [row];
    assert Where([], Matching(f)) == [];
  }

  lemma FillsNext(row: Entry, rest: seq<Entry>, f: Filter, limit: int, m: nat)
    requires !(Wanted(row, f) && limit <= 1) && m <= |rest|
    requires Fills(rest, f, if Wanted(row, f) then limit - 1 else limit, m) && (m == 0 ==> rest == [])
    ensures Fills([row] + rest, f, limit, m + 1)
  {
    WhereFirst(row, rest[..m], Matching(f));
    assert ([row] + rest)[..m + 1] == [row] + rest[..m];
    if m > 0 { assert ([row] + rest)[m] == rest[m - 1]; }
  }

  /** The scan keeps to the limit, and stops before its rows end only right behind the event that reaches it. */
  lemma {:induction false} ScannedFills(rows: seq<Entry>, f: Filter, limit: int)
    ensures Fills(rows, f, limit, Scanned(rows, f, limit))
  {
    if |rows| > 0 {
      var row, rest := rows[0], rows[1..];
      assert rows == [row] + rest;
      if Wanted(row, f) && limit <= 1 {
        FillsFirst(row, rest, f, limit);
      } else {
        ScannedFills(rest, f, if Wanted(row, f) then limit - 1 else limit);
        FillsNext(row, rest, f, limit, Scanned(rest, f, if Wanted(row, f) then limit - 1 else limit));
      }
    }
  }

  /** A poll returns no more events than its limit, one at least allowed, and fewer only after it has scanned all it
      could reach. */
  lemma PollFills(log: seq<Entry>, c: Cursor, f: Filter, limit: int)
    requires Sorted(log) && Room(log, c) > 0
    ensures var (events, next) := Poll(log, c, f, limit);
      && |events| <= Most(limit)
      && (|events| < Most(limit) ==> next == CursorOf(Unread(log, c)[Room(log, c) - 1]))
  {
    ScansUnread(log, c);
    PollOfScan(log, c, f, limit, Unread(log, c), Room(log, c));
  }

  lemma PollOfScan(log: seq<Entry>, c: Cursor, f: Filter, limit: int, u: seq<Entry>, r: nat)
    requires 0 < r <= |u| && Where(Fetched(log, c), PastOf(c)) == u[..r]
    ensures var (events, next) := Poll(log, c, f, limit);
      |events| <= Most(limit) && (|events| < Most(limit) ==> next == CursorOf(u[r - 1]))
  {
    PollOfFilled(log, c, f, limit, u[..r], u[r - 1]);
  }

  lemma PollOfFilled(log: seq<Entry>, c: Cursor, f: Filter, limit: int, rows: seq<Entry>, last: Entry)
    requires rows != [] && last == rows[|rows| - 1] && Where(Fetched(log, c), PastOf(c)) == rows
    ensures var (events, next) := Poll(log, c, f, limit);
      |events| <= Most(limit) && (|events| < Most(limit) ==> next == CursorOf(last))
  {
    ScannedFills(rows, f, limit);
  }

  lemma {:induction false} ScansAll(rows: seq<Entry>, f: Filter, limit: int)
    requires |rows| <= limit
    ensures Scanned(rows, f, limit) == |rows|
  {
    if |rows| > 1 { ScansAll(rows[1..], f, if Wanted(rows[0], f) then limit - 1 else limit); }
  }

  lemma PollsAll(log: seq<Entry>, c: Cursor, limit: int, rows: seq<Entry>)
    requires Where(Fetched(log, c), PastOf(c)) == rows && |rows| <= limit
    ensures Poll(log, c, Filter({}, None), limit).0 == rows
  {
    ScansAll(rows, Filter({}, None), limit);
    assert rows[..|rows|] == rows;
    WhereAll(rows, Matching(Filter({}, None)));
  }

  lemma RoomIs(log: seq<Entry>, c: Cursor)
    ensures c.At? && |Again(log, c)| < 120 ==>
      Room(log, c) == if |Again(log, c)| + |Unread(log, c)| <= 120 then |Unread(log, c)| else 120 - |Again(log, c)|
    ensures !c.At? ==> Room(log, c) == |Unread(log, c)|
  {
  }

  /** With room for them all a reader of everything gets the next 120 rows, less those that its cursor's time repeats,
      and a new reader the last 120. */
  lemma WholeWindow(log: seq<Entry>, c: Cursor, limit: int)
    requires Sorted(log) && limit >= 120
    ensures var (events, unread) := (Poll(log, c, Filter({}, None), limit).0, Unread(log, c));
      && (c.At? && |Again(log, c)| < 120 ==>
            events == if |Again(log, c)| + |unread| <= 120 then unread else unread[..120 - |Again(log, c)|])
      && (!c.At? ==> events == if |log| <= 120 then log else log[|log| - 120..])
  {
    var unread, r := Unread(log, c), Room(log, c);
    ScansUnread(log, c);
    PollsAll(log, c, limit, unread[..r]);
    RoomIs(log, c);
    WholePrefix(unread);
  }

  lemma WholePrefix(rows: seq<Entry>)
    ensures rows[..|rows|] == rows
  {
  }

  // ---- many polls ----

  /** Polling the successive states of the log, each time with the cursor the poll before gave back. */
  function PollAll(logs: seq<seq<Entry>>, c: Cursor, f: Filter, limit: int): (seq<Entry>, Cursor)
  {
    if |logs| == 0 then ([], c)
    else
      var (events, next) := Poll(logs[0], c, f, limit);
      var (more, end) := PollAll(logs[1..], next, f, limit);
      (events + more, end)
  }

  /** Rows are only added, and only after the cursor. */
  ghost predicate Extends(a: seq<Entry>, b: seq<Entry>, c: Cursor)
  {
    (forall e :: e in a ==> e in b) && (forall e :: e in b && e !in a ==> Past(e, c))
  }

  /** Each state of the log is sorted and extends the one before after the cursor reached by then, and fewer than
      120 rows share the time of a cursor that is polled with, at or before it. */
  ghost predicate Growing(logs: seq<seq<Entry>>, c: Cursor, f: Filter, limit: int)
  {
    |logs| > 0 ==>
      var next := Poll(logs[0], c, f, limit).1;
      && Sorted(logs[0]) && |Again(logs[0], c)| < FetchLimit
      && (|logs| > 1 ==> Extends(logs[0], logs[1], next))
      && Growing(logs[1..], next, f, limit)
  }

  /** events holds each matching row of the log after lo and not after hi exactly once, in order. */
  ghost predicate Delivered(log: seq<Entry>, lo: Cursor, hi: Cursor, f: Filter, events: seq<Entry>)
  {
    Sorted(events) && forall e :: e in events <==> e in log && Past(e, lo) && !Past(e, hi) && Wanted(e, f)
  }

  /** hi is not before lo. */
  ghost predicate Onward(lo: Cursor, hi: Cursor)
  {
    lo.At? && hi.At? && forall e :: Past(e, hi) ==> Past(e, lo)
  }

  lemma PollDelivers(log: seq<Entry>, c: Cursor, f: Filter, limit: int)
    requires Sorted(log) && c.At? && |Again(log, c)| < FetchLimit
    ensures var (events, next) := Poll(log, c, f, limit);
      Onward(c, next) && Delivered(log, c, next, f, events)
  {
    if Unread(log, c) == [] {
      PollIsStuck(log, c, f, limit);
      forall e | e in log ensures !Past(e, c) { assert e !in Unread(log, c); }
    } else {
      PollIsExact(log, c, f, limit);
      PollPasses(log, c, f, limit);
    }
  }

  lemma JoinDelivered(a: seq<Entry>, b: seq<Entry>, lo: Cursor, mid: Cursor, hi: Cursor, f: Filter, xs: seq<Entry>, ys: seq<Entry>)
    requires Onward(lo, mid) && Onward(mid, hi)
    requires Delivered(a, lo, mid, f, xs) && Delivered(b, mid, hi, f, ys)
    requires forall e :: !Past(e, mid) ==> (e in a <==> e in b)
    ensures Delivered(b, lo, hi, f, xs + ys) && Onward(lo, hi)
  {
    forall i, j | 0 <= i < j < |xs + ys| ensures Before((xs + ys)[i], (xs + ys)[j]) {
      if i < |xs| <= j {
        assert xs[i] in xs && ys[j - |xs|] in ys;
      }
    }
    forall e ensures e in xs + ys <==> e in b && Past(e, lo) && !Past(e, hi) && Wanted(e, f) {
      assert e in xs + ys <==> e in xs || e in ys;
    }
  }

  /** Rows up to the cursor stay the same while the log grows. */
  lemma {:induction false} OldRowsStay(logs: seq<seq<Entry>>, c: Cursor, f: Filter, limit: int, e: Entry)
    requires |logs| > 0 && c.At? && Growing(logs, c, f, limit)
    requires !Past(e, Poll(logs[0], c, f, limit).1)
    ensures e in logs[0] <==> e in logs[|logs| - 1]
    decreases |logs|
  {
    if |logs| > 1 {
      var next := Poll(logs[0], c, f, limit).1;
      PollDelivers(logs[0], c, f, limit);
      PollDelivers(logs[1], next, f, limit);
      OldRowsStay(logs[1..], next, f, limit, e);
    }
  }

  /** Paging is exact: over any number of polls of a growing log, feeding each returned cursor back, every matching
      row from the first cursor up to the last is returned exactly once and in order. */
  lemma {:induction false} PagingIsExact(logs: seq<seq<Entry>>, c: Cursor, f: Filter, limit: int)
    requires |logs| > 0 && c.At? && Growing(logs, c, f, limit)
    ensures var (events, end) := PollAll(logs, c, f, limit);
      Onward(c, end) && Delivered(logs[|logs| - 1], c, end, f, events)
    decreases |logs|
  {
    var (events, next) := Poll(logs[0], c, f, limit);
    PollDelivers(logs[0], c, f, limit);
    if |logs| == 1 {
      assert PollAll(logs[1..], next, f, limit) == ([], next);
      assert events + [] == events;
    } else {
      var (more, end) := PollAll(logs[1..], next, f, limit);
      PagingIsExact(logs[1..], next, f, limit);
      forall e | !Past(e, next) ensures e in logs[0] <==> e in logs[|logs| - 1] {
        OldRowsStay(logs, c, f, limit, e);
      }
      JoinDelivered(logs[0], logs[|logs| - 1], c, next, end, f, events, more);
    }
  }

  /** The position just before the window a new reader starts with. */
  function WindowStart(log: seq<Entry>): Cursor
    requires log != []
  {
    At(Tail(log)[0].time, Tail(log)[0].id - 1)
  }

  lemma TailAt(log: seq<Entry>, i: nat)
    requires Sorted(log) && i < |log|
    ensures |Tail(log)| <= |log| && log[|log| - |Tail(log)|] == Tail(log)[0]
    ensures i >= |log| - |Tail(log)| ==> log[i] in Tail(log)
    ensures i >= |log| - |Tail(log)| <==> Past(log[i], WindowStart(log))
  {
    var k := |log| - |Tail(log)|;
    if i >= k { assert Tail(log)[i - k] == log[i]; }
  }

  lemma TailIsAfterStart(log: seq<Entry>, e: Entry)
    requires Sorted(log) && log != []
    ensures e in Tail(log) <==> e in log && Past(e, WindowStart(log))
  {
    var t := Tail(log);
    if e in t {
      var i :| 0 <= i < |t| && t[i] == e;
      assert log[|log| - |t| + i] == e;
      TailAt(log, |log| - |t| + i);
    }
    if e in log && Past(e, WindowStart(log)) {
      var i :| 0 <= i < |log| && log[i] == e;
      TailAt(log, i);
    }
  }

  /** The first poll of a reader without a cursor. */
  lemma FirstPollDelivers(log: seq<Entry>, c: Cursor, f: Filter, limit: int)
    requires Sorted(log) && log != [] && !c.At?
    ensures var (events, next) := Poll(log, c, f, limit);
      Onward(WindowStart(log), next) && Delivered(log, WindowStart(log), next, f, events)
  {
    var (events, next) := Poll(log, c, f, limit);
    PollIsExact(log, c, f, limit);
    PollPasses(log, c, f, limit);
    assert !Past(Tail(log)[0], next);
    forall e ensures e in events <==> e in log && Past(e, WindowStart(log)) && !Past(e, next) && Wanted(e, f) {
      TailIsAfterStart(log, e);
    }
  }

  lemma OldRowsStayFromWindow(logs: seq<seq<Entry>>, c: Cursor, f: Filter, limit: int, e: Entry)
    requires |logs| > 1 && logs[0] != [] && !c.At? && Growing(logs, c, f, limit)
    requires !Past(e, Poll(logs[0], c, f, limit).1)
    ensures e in logs[0] <==> e in logs[|logs| - 1]
  {
    var next := Poll(logs[0], c, f, limit).1;
    FirstPollDelivers(logs[0], c, f, limit);
    PollDelivers(logs[1], next, f, limit);
    OldRowsStay(logs[1..], next, f, limit, e);
  }

  /** The same for a reader that starts without a cursor, or with one that does not decode: it gets every matching
      row from the start of its first window on. */
  lemma PagingFromWindowIsExact(logs: seq<seq<Entry>>, c: Cursor, f: Filter, limit: int)
    requires |logs| > 0 && logs[0] != [] && !c.At? && Growing(logs, c, f, limit)
    ensures var (events, end) := PollAll(logs, c, f, limit);
      Onward(WindowStart(logs[0]), end) && Delivered(logs[|logs| - 1], WindowStart(logs[0]), end, f, events)
  {
    var (events, next) := Poll(logs[0], c, f, limit);
    FirstPollDelivers(logs[0], c, f, limit);
    if |logs| == 1 {
      assert PollAll(logs[1..], next, f, limit) == ([], next);
      assert events + [] == events;
    } else {
      var (more, end) := PollAll(logs[1..], next, f, limit);
      PagingIsExact(logs[1..], next, f, limit);
      forall e | !Past(e, next) ensures e in logs[0] <==> e in logs[|logs| - 1] {
        OldRowsStayFromWindow(logs, c, f, limit, e);
      }
      JoinDelivered(logs[0], logs[|logs| - 1], WindowStart(logs[0]), next, end, f, events, more);
    }
  }

  // ---- catching up ----

  lemma {:induction false} FewerPast(rows: seq<Entry>, lo: Cursor, hi: Cursor)
    requires Onward(lo, hi)
    ensures |Where(rows, PastOf(hi))| <= |Where(rows, PastOf(lo))|
    ensures (exists e :: e in rows && Past(e, lo) && !Past(e, hi)) ==> |Where(rows, PastOf(hi))| < |Where(rows, PastOf(lo))|
  {
    if |rows| > 0 {
      FewerPast(rows[..|rows| - 1], lo, hi);
    }
  }

  /** Each poll with something left leaves less. */
  lemma PollShrinks(log: seq<Entry>, c: Cursor, f: Filter, limit: int)
    requires Sorted(log) && c.At? && |Again(log, c)| < FetchLimit && Unread(log, c) != []
    ensures |Unread(log, Poll(log, c, f, limit).1)| < |Unread(log, c)|
  {
    var next := Poll(log, c, f, limit).1;
    PollDelivers(log, c, f, limit);
    PollPasses(log, c, f, limit);
    var first := Unread(log, c)[0];
    assert first in Unread(log, c);
    assert first in log && Past(first, c) && !Past(first, next);
    FewerPast(log, c, next);
  }

  lemma PastNext(front: seq<Entry>, last: Entry, i: nat)
    requires Sorted(front + [last]) && i < |front|
    ensures Where(front + [last], PastOf(CursorOf(front[i]))) == Where(front, PastOf(CursorOf(front[i]))) + [last]
  {
    assert Before((front + [last])[i], (front + [last])[|front|]);
    WhereSnoc(front, last, PastOf(CursorOf(front[i])));
  }

  lemma PastLast(front: seq<Entry>, last: Entry)
    requires Sorted(front + [last])
    ensures Where(front + [last], PastOf(CursorOf(last))) == []
  {
    NonePastBefore(front, last, CursorOf(last));
    WhereSnoc(front, last, PastOf(CursorOf(last)));
  }

  /** The rows after row i are those behind it in the log. */
  lemma {:induction false} PastRow(log: seq<Entry>, i: nat)
    requires Sorted(log) && i < |log|
    ensures Where(log, PastOf(CursorOf(log[i]))) == log[i + 1..]
  {
    var front, last := log[..|log| - 1], log[|log| - 1];
    assert log == front + [last];
    if i < |front| {
      PastRow(front, i);
      PastNext(front, last, i);
      BehindNext(front, last, i);
    } else {
      PastLast(front, last);
    }
  }

  lemma BehindNext(front: seq<Entry>, last: Entry, i: nat)
    requires i < |front|
    ensures (front + [last])[i] == front[i] && (front + [last])[i + 1..] == front[i + 1..] + [last]
  {
  }

  /** So does the first poll of a reader without a usable cursor. */
  lemma FirstPollShrinks(log: seq<Entry>, c: Cursor, f: Filter, limit: int)
    requires Sorted(log) && !c.At? && log != []
    ensures |Unread(log, Poll(log, c, f, limit).1)| < |Unread(log, c)|
  {
    var n := PollOfUnread(log, c, f, limit);
    var i := |log| - |Tail(log)| + n - 1;
    assert Tail(log)[n - 1] == log[i];
    PastRow(log, i);
  }

  lemma PollLeavesLess(log: seq<Entry>, c: Cursor, f: Filter, limit: int)
    requires Sorted(log) && |Again(log, c)| < FetchLimit
    ensures var next := Poll(log, c, f, limit).1;
      if Unread(log, c) == [] then next == c else |Unread(log, next)| < |Unread(log, c)|
  {
    if Unread(log, c) == [] {
      PollIsStuck(log, c, f, limit);
    } else if c.At? {
      PollShrinks(log, c, f, limit);
    } else {
      FirstPollShrinks(log, c, f, limit);
    }
  }

  /** Polling a log that stays as it is at least once for each unread row leaves nothing unread, whatever the limit
      and whatever cursor the reader starts with. */
  lemma {:induction false} PagingCatchesUp(log: seq<Entry>, logs: seq<seq<Entry>>, c: Cursor, f: Filter, limit: int)
    requires (forall k :: 0 <= k < |logs| ==> logs[k] == log) && |logs| >= |Unread(log, c)|
    requires Growing(logs, c, f, limit)
    ensures Unread(log, PollAll(logs, c, f, limit).1) == []
    decreases |logs|
  {
    if |logs| > 0 {
      PollLeavesLess(log, c, f, limit);
      PagingCatchesUp(log, logs[1..], Poll(log, c, f, limit).1, f, limit);
    }
  }
}
