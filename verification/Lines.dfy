/** Lines of a text and folding over them. */
module Lines {
  import opened Text

  function NewlineIn(text: string): Option<nat>
  {
    First(text, (c: char) => c == '\n')
  }

  /** The lines of the text that a newline ends, without the newline. */
  function LinesOf(text: string): seq<string>
    decreases |text|
  {
    match NewlineIn(text)
    case None => []
    case Some(nl) => [text[..nl]] + LinesOf(text[nl + 1..])
  }

  /** What follows the last newline. */
  function RestOf(text: string): string
    decreases |text|
  {
    match NewlineIn(text)
    case None => text
    case Some(nl) => RestOf(text[nl + 1..])
  }

  /** Each line followed by a newline. */
  function Terminated(lines: seq<string>): string
  {
    if |lines| == 0 then "" else lines[0] + "\n" + Terminated(lines[1..])
  }

  function Concat(chunks: seq<string>): string
  {
    if |chunks| == 0 then "" else Concat(chunks[..|chunks| - 1]) + chunks[|chunks| - 1]
  }

  function Joined(lines: seq<string>): string
  {
    if |lines| == 0 then ""
    else if |lines| == 1 then lines[0]
    else lines[0] + "\n" + Joined(lines[1..])
  }

  lemma FirstNewline(a: string, b: string)
    requires '\n' !in a
    ensures NewlineIn(a + ['\n'] + b) == Some(|a|)
  {
    var t := a + ['\n'] + b;
    assert t[|a|] == '\n';
    forall k | 0 <= k < |a| ensures t[k] != '\n' { assert t[k] == a[k] && a[k] in a; }
  }

  lemma LinesSplit(line: string, more: string)
    requires '\n' !in line
    ensures LinesOf(line + ['\n'] + more) == [line] + LinesOf(more)
    ensures RestOf(line + ['\n'] + more) == RestOf(more)
  {
    FirstNewline(line, more);
    var t := line + ['\n'] + more;
    assert t[..|line|] == line && t[|line| + 1..] == more;
  }

  lemma NoNewline(text: string)
    requires '\n' !in text
    ensures LinesOf(text) == [] && RestOf(text) == text
  {
  }

  /** The first line and what follows it. */
  lemma FirstLine(text: string) returns (line: string, more: string)
    requires '\n' in text
    ensures text == line + ['\n'] + more && '\n' !in line && |more| < |text|
  {
    var nl := NewlineIn(text).value;
    line, more := text[..nl], text[nl + 1..];
  }

  lemma TerminatedFirst(line: string, more: seq<string>)
    ensures Terminated([line] + more) == line + "\n" + Terminated(more)
  {
    assert ([line] + more)[1..] == more;
  }

  /** The lines and the rest make up the text again, and hold no newline. */
  lemma {:induction false} LinesRebuild(text: string)
    ensures Terminated(LinesOf(text)) + RestOf(text) == text
    ensures '\n' !in RestOf(text) && forall l :: l in LinesOf(text) ==> '\n' !in l
    decreases |text|
  {
    if '\n' !in text {
      NoNewline(text);
    } else {
      var line, more := FirstLine(text);
      LinesSplit(line, more);
      TerminatedFirst(line, LinesOf(more));
      LinesRebuild(more);
      Regroup(line, Terminated(LinesOf(more)), RestOf(more));
    }
  }

  lemma Regroup(line: string, a: string, b: string)
    ensures (line + "\n" + a) + b == line + ['\n'] + (a + b)
  {
  }

  /** Lines without newlines are read back from their terminated text, whole. */
  lemma {:induction false} LinesOfTerminated(lines: seq<string>)
    requires forall l :: l in lines ==> '\n' !in l
    ensures LinesOf(Terminated(lines)) == lines && RestOf(Terminated(lines)) == ""
  {
    if |lines| > 0 {
      var more := Terminated(lines[1..]);
      LinesOfTerminated(lines[1..]);
      assert lines[0] in lines;
      assert Terminated(lines) == lines[0] + ['\n'] + more;
      LinesSplit(lines[0], more);
    }
  }

  /** Cutting the text after a makes no difference to its lines and its rest. */
  ghost predicate CutsAt(a: string, b: string)
  {
    LinesOf(a + b) == LinesOf(a) + LinesOf(RestOf(a) + b) && RestOf(a + b) == RestOf(RestOf(a) + b)
  }

  lemma CutsLater(a: string, line: string, more: string, b: string)
    requires a == line + ['\n'] + more && '\n' !in line && CutsAt(more, b)
    ensures CutsAt(a, b)
  {
    var ab := a + b;
    assert ab == line + ['\n'] + (more + b);
    LinesSplit(line, more);
    LinesSplit(line, more + b);
    RegroupLines(line, LinesOf(more), LinesOf(RestOf(more) + b));
  }

  lemma RegroupLines(line: string, a: seq<string>, b: seq<string>)
    ensures [line] + (a + b) == ([line] + a) + b
  {
  }

  lemma {:induction false} CutAnywhere(a: string, b: string)
    ensures CutsAt(a, b)
    decreases |a|
  {
    if '\n' !in a {
      NoNewline(a);
    } else {
      var line, more := FirstLine(a);
      CutAnywhere(more, b);
      CutsLater(a, line, more, b);
    }
  }

  /** Where the text is cut does not matter: the rest of the first part goes in front of the second. */
  lemma LinesAppend(a: string, b: string)
    ensures LinesOf(a + b) == LinesOf(a) + LinesOf(RestOf(a) + b)
    ensures RestOf(a + b) == RestOf(RestOf(a) + b)
  {
    CutAnywhere(a, b);
  }

  // ---- folding ----

  function Fold<S>(step: (S, string) -> S, s: S, lines: seq<string>): S
  {
    if |lines| == 0 then s else step(Fold(step, s, lines[..|lines| - 1]), lines[|lines| - 1])
  }

  lemma {:induction false} FoldConcat<S>(step: (S, string) -> S, s: S, a: seq<string>, b: seq<string>)
    ensures Fold(step, s, a + b) == Fold(step, Fold(step, s, a), b)
    decreases |b|
  {
    if |b| == 0 {
      assert a + b == a;
    } else {
      FoldConcat(step, s, a, b[..|b| - 1]);
      assert (a + b)[..|a + b| - 1] == a + b[..|b| - 1];
    }
  }

  lemma FoldFirst<S>(step: (S, string) -> S, s: S, line: string, more: seq<string>)
    ensures Fold(step, s, [line] + more) == Fold(step, step(s, line), more)
  {
    FoldConcat(step, s, [line], more);
    assert [line][..0] == [];
    assert Fold(step, s, []) == s;
    assert Fold(step, s, [line]) == step(s, line);
  }
}
