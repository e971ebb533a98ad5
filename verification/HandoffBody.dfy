/** What a handoff's body must hold, and the task id it names
    (nas_bridge/app/session_service.py, _validate_handoff_body and _extract_task_id). */
module HandoffBody {
  import opened Text
  import TaskKeys

  const MinBodyLength := 40

  predicate WordChar(c: char)
  {
    TaskKeys.IsDigit(c) || 'a' <= c <= 'z' || 'A' <= c <= 'Z' || c == '_'
  }

  /** T- and three digits at position k, not continuing a word on the left. */
  predicate IdBegins(s: string, k: nat)
  {
    && k + 5 <= |s| && s[k] in {'T', 't'} && s[k + 1] == '-' && TaskKeys.AllDigits(s[k + 2..k + 5])
    && (k > 0 ==> !WordChar(s[k - 1]))
  }

  /** A whole task id at position k. */
  predicate IdAt(s: string, k: nat)
  {
    IdBegins(s, k) && (k + 5 < |s| ==> !WordChar(s[k + 5]))
  }

  /** The first task id in the text at or after position from, in upper case. */
  function TaskIdFrom(s: string, from: nat): (r: Option<string>)
    ensures r.Some? <==> exists k :: from <= k && IdAt(s, k)
    ensures r.Some? ==> |r.value| == 5 && r.value[0] == 'T' && r.value[1] == '-' && TaskKeys.AllDigits(r.value[2..])
    decreases |s| + 1 - from
  {
    if from + 5 > |s| then None
    else if IdAt(s, from) then
      var id := ['T'] + s[from + 1..from + 5];
      assert id[2..] == s[from + 2..from + 5];
      Some(id)
    else TaskIdFrom(s, from + 1)
  }

  function ExtractTaskId(s: string): (r: Option<string>)
    ensures r.Some? <==> exists k :: 0 <= k && IdAt(s, k)
  {
    TaskIdFrom(s, 0)
  }

  /** Every run of white space, also a leading one, as a single blank; a leading run disappears. */
  function Collapse(s: string): (r: string)
    ensures |r| <= |s|
  {
    if |s| == 0 then ""
    else
      var before, c := Collapse(s[..|s| - 1]), s[|s| - 1];
      if !PySpace(c) then before + [c]
      else if before == "" || before[|before| - 1] == ' ' then before
      else before + [' ']
  }

  /** Python's " ".join(s.split()). */
  function Normal(s: string): string
  {
    var c := Collapse(s);
    if c != "" && c[|c| - 1] == ' ' then c[..|c| - 1] else c
  }

  /** The checks on the body of a handoff. */
  predicate ValidBody(body: string)
  {
    && |Normal(body)| >= MinBodyLength && ExtractTaskId(Normal(body)).Some?
    && Contains(body, "TASK_BOARD.md") && Contains(body, "CURRENT_STATE.md") && Contains(body, "Target summary:")
  }

  // ---- a task id survives collapsing ----

  /** Both characters are the same, or both white space. */
  predicate Alike(a: char, b: char)
  {
    a == b || (PySpace(a) && PySpace(b))
  }

  /** The last m characters of out are the last m of s, and what stands before them is alike. */
  ghost predicate SameSuffix(s: string, out: string, m: nat)
    requires m <= |out|
  {
    && m <= |s| && s[|s| - m..] == out[|out| - m..]
    && (m < |out| ==> m < |s| && Alike(s[|s| - m - 1], out[|out| - m - 1]))
    && (m == |out| && m < |s| ==> PySpace(s[|s| - m - 1]))
  }

  ghost predicate SolidEnd(out: string, m: nat)
    requires m <= |out|
  {
    forall i :: |out| - m <= i < |out| ==> !PySpace(out[i])
  }

  lemma SameEnd(a: string, m: nat, c: char)
    requires m <= |a|
    ensures (a + [c])[|a + [c]| - m - 1..] == a[|a| - m..] + [c]
  {
  }

  lemma SuffixLonger(front: string, before: string, m: nat, c: char)
    requires m <= |before| && SameSuffix(front, before, m)
    ensures SameSuffix(front + [c], before + [c], m + 1)
  {
    var s, out := front + [c], before + [c];
    SameEnd(front, m, c);
    SameEnd(before, m, c);
    if m < |before| {
      assert s[|s| - m - 2] == front[|front| - m - 1] && out[|out| - m - 2] == before[|before| - m - 1];
    } else if m < |front| {
      assert s[|s| - m - 2] == front[|front| - m - 1];
    }
  }

  lemma CollapseSnoc(front: string, c: char)
    ensures var before := Collapse(front);
      Collapse(front + [c]) ==
        if !PySpace(c) then before + [c]
        else if before == "" || before[|before| - 1] == ' ' then before
        else before + [' ']
  {
    assert (front + [c])[..|front|] == front;
  }

  /** The last characters of the collapsed text, if none is white space, are the last of the text. */
  lemma {:induction false} SuffixSame(s: string, m: nat)
    requires m <= |Collapse(s)| && SolidEnd(Collapse(s), m)
    ensures SameSuffix(s, Collapse(s), m)
  {
    if |s| > 0 {
      var front, c := s[..|s| - 1], s[|s| - 1];
      assert s == front + [c];
      CollapseSnoc(front, c);
      SuffixSnoc(front, c, Collapse(front), m);
      if !PySpace(c) && m > 0 {
        assert SolidEnd(Collapse(front), m - 1) by {
          forall i | |Collapse(front)| - (m - 1) <= i < |Collapse(front)| ensures !PySpace(Collapse(front)[i]) {
            assert Collapse(s)[i] == Collapse(front)[i];
          }
        }
        SuffixSame(front, m - 1);
        SuffixLonger(front, Collapse(front), m - 1, c);
      }
    }
  }

  /** The cases in which no character is left over. */
  lemma SuffixSnoc(front: string, c: char, before: string, m: nat)
    requires before == Collapse(front) && m <= |Collapse(front + [c])| && SolidEnd(Collapse(front + [c]), m)
    ensures PySpace(c) || m == 0 ==> SameSuffix(front + [c], Collapse(front + [c]), m)
  {
    CollapseSnoc(front, c);
    var out := Collapse(front + [c]);
    if PySpace(c) && out != "" {
      assert out[|out| - 1] == ' ' && m == 0;
    }
  }

  /** Where an id begins in the collapsed text one begins in the text, with alike text on its right. */
  ghost predicate Begins(s: string, k: nat, j: nat)
    requires k + 5 <= |Collapse(s)|
  {
    && IdBegins(s, j)
    && (k + 5 < |Collapse(s)| ==> j + 5 < |s| && Alike(s[j + 5], Collapse(s)[k + 5]))
    && (k + 5 == |Collapse(s)| ==> j + 5 == |s|)
  }

  lemma AlikeWords(a: char, b: char)
    requires Alike(a, b)
    ensures WordChar(a) <==> WordChar(b)
  {
  }

  lemma LastFive(s: string, out: string)
    requires 5 <= |s| && 5 <= |out| && s[|s| - 5..] == out[|out| - 5..]
    ensures s[|s| - 5] == out[|out| - 5] && s[|s| - 4] == out[|out| - 4]
    ensures s[|s| - 3..] == out[|out| - 3..]
  {
    var a, b := s[|s| - 5..], out[|out| - 5..];
    assert a[0] == s[|s| - 5] && b[0] == out[|out| - 5] && a[1] == s[|s| - 4] && b[1] == out[|out| - 4];
    assert a[2..] == s[|s| - 3..] && b[2..] == out[|out| - 3..];
  }

  lemma LastThreeSolid(c: string)
    requires |c| >= 5 && c[|c| - 5] in {'T', 't'} && c[|c| - 4] == '-' && TaskKeys.AllDigits(c[|c| - 3..])
    ensures SolidEnd(c, 5)
  {
    var ds := c[|c| - 3..];
    assert ds[0] == c[|c| - 3] && ds[1] == c[|c| - 2] && ds[2] == c[|c| - 1];
    assert TaskKeys.IsDigit(ds[0]) && TaskKeys.IsDigit(ds[1]) && TaskKeys.IsDigit(ds[2]);
  }

  /** An id at the very end of the collapsed text. */
  lemma BeginsAtEnd(s: string, k: nat) returns (j: nat)
    requires k + 5 == |Collapse(s)| && IdBegins(Collapse(s), k)
    ensures Begins(s, k, j)
  {
    var c := Collapse(s);
    assert c[k + 2..k + 5] == c[|c| - 3..];
    LastThreeSolid(c);
    SuffixSame(s, 5);
    j := |s| - 5;
    EndBegins(s, c, k, j);
  }

  lemma SameThree(s: string, c: string, j: nat, k: nat)
    requires k + 5 == |c| && j + 5 == |s| && s[|s| - 3..] == c[|c| - 3..]
    ensures s[j + 2..j + 5] == c[k + 2..k + 5]
  {
    assert s[j + 2..j + 5] == s[|s| - 3..];
    assert c[k + 2..k + 5] == c[|c| - 3..];
  }

  lemma EndBegins(s: string, c: string, k: nat, j: nat)
    requires k + 5 == |c| && j + 5 == |s| && IdBegins(c, k) && SameSuffix(s, c, 5)
    ensures IdBegins(s, j)
  {
    LastFive(s, c);
    SameThree(s, c, j, k);
    if j > 0 && k > 0 { AlikeWords(s[j - 1], c[k - 1]); }
  }

  /** One more character on the right changes no id that has begun before it. */
  lemma BeginsLonger(s: string, c: char, k: nat, j: nat)
    requires k + 5 <= |Collapse(s)| && IdBegins(Collapse(s), k) && Begins(s, k, j)
    ensures IdBegins(s + [c], j)
  {
    assert (s + [c])[j + 2..j + 5] == s[j + 2..j + 5];
  }

  lemma {:induction false} IdSurvives(s: string, k: nat) returns (j: nat)
    requires k + 5 <= |Collapse(s)| && IdBegins(Collapse(s), k)
    ensures Begins(s, k, j)
  {
    var front, c := s[..|s| - 1], s[|s| - 1];
    var out, before := Collapse(s), Collapse(front);
    assert front + [c] == s;
    assert out[k + 2..k + 5][2] == out[k + 4];
    if k + 5 <= |before| {
      assert out[k + 2..k + 5] == before[k + 2..k + 5];
      assert before[k + 4] == out[k + 4];
      j := IdSurvives(front, k);
      BeginsLonger(front, c, k, j);
    } else {
      j := BeginsAtEnd(s, k);
    }
  }

  lemma NormalIdInCollapsed(s: string, k: nat)
    requires IdAt(Normal(s), k)
    ensures IdAt(Collapse(s), k)
  {
    var n, c := Normal(s), Collapse(s);
    assert n == c[..|n|];
    assert n[k + 2..k + 5] == c[k + 2..k + 5];
    assert n[k] == c[k] && n[k + 1] == c[k + 1];
    if k > 0 { assert n[k - 1] == c[k - 1]; }
    if k + 5 < |n| { assert n[k + 5] == c[k + 5]; } else if k + 5 < |c| { assert c[k + 5] == ' '; }
  }

  /** A body that passes the checks names a task, and by a canonical key. */
  lemma ValidBodyNamesTask(body: string)
    requires ValidBody(body)
    ensures ExtractTaskId(body).Some? && TaskKeys.Number(ExtractTaskId(body).value).Some?
  {
    var k :| 0 <= k && IdAt(Normal(body), k);
    NormalIdInCollapsed(body, k);
    var j := IdSurvives(body, k);
    if k + 5 < |Collapse(body)| { AlikeWords(body[j + 5], Collapse(body)[k + 5]); }
    assert IdAt(body, j);
    IdIsCanonical(ExtractTaskId(body).value);
  }

  lemma IdIsCanonical(id: string)
    requires |id| == 5 && id[0] == 'T' && id[1] == '-' && TaskKeys.AllDigits(id[2..])
    ensures TaskKeys.Number(id).Some?
  {
    assert id[2..][2] == id[4];
    TrimClean(id, PySpace);
  }

  // ---- a body that passes ----

  lemma {:induction false} ContainsMiddle(a: string, needle: string, b: string)
    ensures Contains(a + needle + b, needle)
  {
    var s := a + needle + b;
    if |a| == 0 {
      assert s[..|needle|] == needle;
    } else {
      ContainsMiddle(a[1..], needle, b);
      assert s[1..] == a[1..] + needle + b;
    }
  }

  predicate Solid(s: string)
  {
    s != "" && forall k :: 0 <= k < |s| ==> !PySpace(s[k])
  }

  lemma {:induction false} CollapseSolid(a: string, b: string)
    requires Solid(b) && Collapse(a) == a
    ensures Collapse(a + b) == a + b
  {
    var front := b[..|b| - 1];
    assert (a + b)[..|a + b| - 1] == a + front;
    if front != "" { CollapseSolid(a, front); } else { assert a + front == a; }
  }

  lemma CollapseBlank(a: string)
    requires Solid(a)
    ensures Collapse(a) == a && Collapse(a + " ") == a + " "
  {
    CollapseSolid("", a);
    assert "" + a == a;
    CollapseSnoc(a, ' ');
    assert PySpace(' ') && a[|a| - 1] != ' ';
    assert a + " " == a + [' '];
  }

  /** Two solid texts with a blank between them are left as they are. */
  lemma NormalOfTwo(a: string, b: string)
    requires Solid(a) && Solid(b)
    ensures Normal(a + " " + b) == a + " " + b
  {
    CollapseBlank(a);
    CollapseSolid(a + " ", b);
    SolidEnds(a + " ", b);
  }

  lemma SolidEnds(a: string, b: string)
    requires Solid(b)
    ensures a + b != "" && (a + b)[|a + b| - 1] != ' '
  {
    assert (a + b)[|a + b| - 1] == b[|b| - 1] && PySpace(' ');
  }

  const Board := "TASK_BOARD.md"
  const State := "CURRENT_STATE.md"

  /** A task id as the bridge writes it. */
  predicate SampleId(id: string)
  {
    |id| == 5 && id[0] == 'T' && id[1] == '-' && TaskKeys.AllDigits(id[2..]) && Solid(id)
  }

  function FirstHalf(id: string): string
  {
    id + "." + Board + "." + State + ".Target"
  }

  /** A body that passes the checks and names its task id. */
  function SampleBody(id: string, summary: string): string
  {
    FirstHalf(id) + " " + ("summary:" + summary)
  }

  lemma SolidConcat(a: string, b: string)
    requires Solid(a) && Solid(b)
    ensures Solid(a + b)
  {
  }

  /** A text that begins with an id names it. */
  lemma LeadingId(id: string, rest: string)
    requires |id| == 5 && id[0] == 'T' && id[1] == '-' && TaskKeys.AllDigits(id[2..]) && rest != "" && !WordChar(rest[0])
    ensures ExtractTaskId(id + rest) == Some(id)
  {
    var s := id + rest;
    assert s[2..5] == id[2..] && s[5] == rest[0];
    assert IdAt(s, 0);
    assert ['T'] + s[1..5] == id;
  }

  lemma SampleIsValid(id: string, summary: string)
    requires SampleId(id) && (summary == "" || Solid(summary))
    ensures ValidBody(SampleBody(id, summary)) && ExtractTaskId(SampleBody(id, summary)) == Some(id) && SampleBody(id, summary) != ""
    ensures TaskKeys.Number(id).Some?
  {
    SampleIsSolid(id, summary);
    NormalOfTwo(FirstHalf(id), "summary:" + summary);
    SampleContains(id, summary);
    SampleNamesId(id, summary);
  }

  lemma SampleNamesId(id: string, summary: string)
    requires SampleId(id)
    ensures ExtractTaskId(SampleBody(id, summary)) == Some(id) && TaskKeys.Number(id).Some?
    ensures |SampleBody(id, summary)| >= 40
  {
    var rest := "." + Board + "." + State + ".Target" + " " + ("summary:" + summary);
    assert SampleBody(id, summary) == id + rest;
    LeadingId(id, rest);
    IdIsCanonical(id);
  }

  lemma SampleIsSolid(id: string, summary: string)
    requires SampleId(id) && (summary == "" || Solid(summary))
    ensures Solid(FirstHalf(id)) && Solid("summary:" + summary)
  {
    SolidConcat(id, ".");
    SolidConcat(id + ".", Board);
    SolidConcat(id + "." + Board, ".");
    SolidConcat(id + "." + Board + ".", State);
    SolidConcat(id + "." + Board + "." + State, ".Target");
    if summary == "" { assert "summary:" + "" == "summary:"; } else { SolidConcat("summary:", summary); }
  }

  lemma SampleContains(id: string, summary: string)
    ensures Contains(SampleBody(id, summary), "TASK_BOARD.md") && Contains(SampleBody(id, summary), "CURRENT_STATE.md")
    ensures Contains(SampleBody(id, summary), "Target summary:")
  {
    SampleNamesFiles(id, summary);
    SampleNamesSummary(id, summary);
  }

  lemma SampleNamesFiles(id: string, summary: string)
    ensures Contains(SampleBody(id, summary), Board) && Contains(SampleBody(id, summary), State)
  {
    var end := ".Target" + " " + ("summary:" + summary);
    var rest := "." + State + end;
    ContainsMiddle(id + ".", Board, rest);
    assert SampleBody(id, summary) == id + "." + Board + rest;
    ContainsMiddle(id + "." + Board + ".", State, end);
    assert SampleBody(id, summary) == (id + "." + Board + ".") + State + end;
  }

  lemma SampleNamesSummary(id: string, summary: string)
    ensures Contains(SampleBody(id, summary), "Target summary:")
  {
    var front := id + "." + Board + "." + State + ".";
    ContainsMiddle(front, "Target summary:", summary);
    assert "." + "Target summary:" + summary == ".Target" + " " + ("summary:" + summary);
    assert SampleBody(id, summary) == front + "Target summary:" + summary;
  }

  // ---- what the checks mean ----

  /** The mark stands somewhere in the text. */
  ghost predicate Holds(text: string, mark: string)
  {
    exists k: nat :: StandsAt(text, mark, k)
  }

  ghost predicate StandsAt(text: string, mark: string, k: nat)
  {
    k + |mark| <= |text| && text[k..k + |mark|] == mark
  }

  lemma {:induction false} ContainsIff(text: string, mark: string)
    ensures Contains(text, mark) <==> Holds(text, mark)
  {
    if |text| > 0 { ContainsIff(text[1..], mark); }
    if mark <= text { assert StandsAt(text, mark, 0); }
    if |text| > 0 && Holds(text[1..], mark) {
      var k: nat :| StandsAt(text[1..], mark, k);
      assert text[k + 1..k + 1 + |mark|] == text[1..][k..k + |mark|];
      assert StandsAt(text, mark, k + 1);
    }
    if k: nat :| StandsAt(text, mark, k) {
      if k == 0 {
        assert text[..|mark|] == mark;
      } else {
        assert text[1..][k - 1..k - 1 + |mark|] == text[k..k + |mark|];
        assert StandsAt(text[1..], mark, k - 1);
      }
    }
  }

  /** A body passes exactly when its collapsed text has 40 characters and a whole task id, and it names both files and
      announces a summary. */
  lemma ValidBodyIff(body: string)
    ensures ValidBody(body)
      <==> && |Normal(body)| >= 40 && (exists k: nat :: IdAt(Normal(body), k))
           && Holds(body, "TASK_BOARD.md") && Holds(body, "CURRENT_STATE.md") && Holds(body, "Target summary:")
  {
    ContainsIff(body, "TASK_BOARD.md");
    ContainsIff(body, "CURRENT_STATE.md");
    ContainsIff(body, "Target summary:");
    if k: nat :| IdAt(Normal(body), k) { assert 0 <= k && IdAt(Normal(body), k); }
  }

  lemma ThreeDigits(n: nat)
    requires n < 1000
    ensures |TaskKeys.Decimal(n)| == if n < 10 then 1 else if n < 100 then 2 else 3
  {
    if n >= 10 { assert n / 10 < 100; }
    if n >= 100 { assert n / 10 >= 10 && n / 10 / 10 < 10; }
  }

  /** A key of three digits, as the bridge allocates the first 999, is itself a task id, and the one that a text that
      consists of it names. */
  lemma FormatIsId(n: nat)
    requires n < 1000
    ensures |TaskKeys.Format(n)| == 5 && ExtractTaskId(TaskKeys.Format(n)) == Some(TaskKeys.Format(n))
  {
    ThreeDigits(n);
    var f := TaskKeys.Format(n);
    assert f[2..5] == f[2..];
    assert IdAt(f, 0);
    assert ['T'] + f[1..5] == f;
  }
}
