/** Frames that are printed and read back: the three readers agree on complete streams. */
module SseAgreement {
  import opened Text
  import opened Lines
  import opened Sse

  /** An empty text or a carriage return, printed before each newline. */
  predicate Ending(cr: string)
  {
    cr == "" || cr == "\r"
  }

  /** Reading data lines one by one, where put(d) is the reader after the lines d. */
  lemma {:induction false} FoldData<S>(step: (S, string) -> S, data: seq<string>, cr: string, put: seq<string> -> S)
    requires forall d, l :: l in data ==> step(put(d), DataLine(l) + cr) == put(d + [l])
    ensures Fold(step, put([]), Apply(data, (l: string) => DataLine(l) + cr)) == put(data)
  {
    var lines := Apply(data, (l: string) => DataLine(l) + cr);
    if |data| == 0 {
      assert data == [];
    } else {
      var front, last := data[..|data| - 1], data[|data| - 1];
      forall l | l in front ensures l in data { }
      FoldData(step, front, cr, put);
      assert lines[..|lines| - 1] == Apply(front, (l: string) => DataLine(l) + cr);
      assert last in data && front + [last] == data;
    }
  }

  lemma FoldLast<S>(step: (S, string) -> S, s: S, lines: seq<string>, last: string)
    ensures Fold(step, s, lines + [last]) == step(Fold(step, s, lines), last)
  {
    assert (lines + [last])[..|lines|] == lines;
  }

  lemma ApplySnoc<T, U>(xs: seq<T>, x: T, f: T -> U)
    ensures Apply(xs + [x], f) == Apply(xs, f) + [f(x)]
  {
  }

  /** Reading a whole frame takes the reader from having read front to having read one more. */
  ghost predicate ReadsFrame<S>(step: (S, string) -> S, at: seq<Written> -> S, cr: string, front: seq<Written>, w: Written)
  {
    Fold(step, at(front), Opened(w, cr) + [cr]) == at(front + [w])
  }

  /** A reader that reads each frame reads any number of them. */
  lemma {:induction false} ReadsBack<S>(step: (S, string) -> S, at: seq<Written> -> S, ws: seq<Written>, cr: string)
    requires AllWellWritten(ws)
    requires forall front, w :: WellWritten(w) ==> ReadsFrame(step, at, cr, front, w)
    ensures Fold(step, at([]), PrintedAll(ws, cr)) == at(ws)
  {
    if |ws| == 0 {
      assert ws == [];
    } else {
      var front, w := ws[..|ws| - 1], ws[|ws| - 1];
      ReadsBack(step, at, front, cr);
      FoldConcat(step, at([]), PrintedAll(front, cr), Opened(w, cr) + [cr]);
      assert ReadsFrame(step, at, cr, front, w);
      assert front + [w] == ws;
    }
  }

  // ---- streamSSE ----

  lemma TsOpened(r: TsReader, w: Written, cr: string)
    requires WellWritten(w) && Ending(cr) && r.data == []
    ensures Fold(TsLine, r, Opened(w, cr)) == TsReader(w.event, w.data, r.out)
  {
    var put := (d: seq<string>) => TsReader(w.event, d, r.out);
    forall d, l | l in w.data ensures TsLine(put(d), DataLine(l) + cr) == put(d + [l]) {
      TsData(put(d), l);
      assert DataLine(l) + "" == DataLine(l);
    }
    FoldData(TsLine, w.data, cr, put);
    FoldFirst(TsLine, r, EventLine(w.event) + cr, Apply(w.data, (l: string) => DataLine(l) + cr));
    TsEvent(r, w.event);
    assert EventLine(w.event) + "" == EventLine(w.event);
  }

  lemma TsBlank(r: TsReader, cr: string)
    requires Ending(cr) && r.event != "" && r.data != []
    ensures TsLine(r, cr) == TsReader("", [], r.out + [Frame(r.event, Joined(r.data))])
  {
  }

  function TsAt(ws: seq<Written>): TsReader
  {
    TsReader("", [], Apply(ws, FrameOf))
  }

  lemma TsWhole(front: seq<Written>, w: Written, cr: string)
    requires WellWritten(w) && Ending(cr)
    ensures ReadsFrame(TsLine, TsAt, cr, front, w)
  {
    TsOpened(TsAt(front), w, cr);
    FoldLast(TsLine, TsAt(front), Opened(w, cr), cr);
    TsBlank(TsReader(w.event, w.data, TsAt(front).out), cr);
    ApplySnoc(front, w, FrameOf);
  }

  lemma TsReadsBack(ws: seq<Written>, cr: string)
    requires AllWellWritten(ws) && Ending(cr)
    ensures Fold(TsLine, TsStart, PrintedAll(ws, cr)) == TsAt(ws)
  {
    forall front, w | WellWritten(w) ensures ReadsFrame(TsLine, TsAt, cr, front, w) { TsWhole(front, w, cr); }
    ReadsBack(TsLine, TsAt, ws, cr);
  }

  // ---- parse_sse_stream ----

  lemma PyOpened(r: PyReader, w: Written, cr: string)
    requires WellWritten(w) && Ending(cr) && r.data == []
    ensures Fold(PyLine, r, Opened(w, cr)) == PyReader(Some(w.event), w.data, r.out)
  {
    var put := (d: seq<string>) => PyReader(Some(w.event), d, r.out);
    forall d, l | l in w.data ensures PyLine(put(d), DataLine(l) + cr) == put(d + [l]) {
      PyData(put(d), l);
      assert DataLine(l) + "" == DataLine(l);
    }
    FoldData(PyLine, w.data, cr, put);
    FoldFirst(PyLine, r, EventLine(w.event) + cr, Apply(w.data, (l: string) => DataLine(l) + cr));
    PyEvent(r, w.event);
    assert EventLine(w.event) + "" == EventLine(w.event);
  }

  lemma PyBlank(r: PyReader, cr: string)
    requires Ending(cr)
    ensures PyLine(r, cr) == PyReader(None, [], PyFlush(r))
  {
  }

  function PyAt(ws: seq<Written>): PyReader
  {
    PyReader(None, [], Apply(ws, PyFrameOf))
  }

  lemma PyWhole(front: seq<Written>, w: Written, cr: string)
    requires WellWritten(w) && Ending(cr)
    ensures ReadsFrame(PyLine, PyAt, cr, front, w)
  {
    PyOpened(PyAt(front), w, cr);
    FoldLast(PyLine, PyAt(front), Opened(w, cr), cr);
    PyBlank(PyReader(Some(w.event), w.data, PyAt(front).out), cr);
    ApplySnoc(front, w, PyFrameOf);
  }

  lemma PyReadsBack(ws: seq<Written>, cr: string)
    requires AllWellWritten(ws) && Ending(cr)
    ensures Fold(PyLine, PyStart, PrintedAll(ws, cr)) == PyAt(ws)
  {
    forall front, w | WellWritten(w) ensures ReadsFrame(PyLine, PyAt, cr, front, w) { PyWhole(front, w, cr); }
    ReadsBack(PyLine, PyAt, ws, cr);
  }

  // ---- _iter_sse ----

  lemma IterOpened(r: IterReader, w: Written)
    requires WellWritten(w) && r.data == []
    ensures Fold(IterLine, r, Opened(w, "")) == IterReader(w.event, w.data, r.out)
  {
    var put := (d: seq<string>) => IterReader(w.event, d, r.out);
    forall d, l | l in w.data ensures IterLine(put(d), DataLine(l) + "") == put(d + [l]) {
      IterData(put(d), l);
      assert DataLine(l) + "" == DataLine(l);
    }
    FoldData(IterLine, w.data, "", put);
    FoldFirst(IterLine, r, EventLine(w.event) + "", Apply(w.data, (l: string) => DataLine(l) + ""));
    IterEvent(r, w.event);
    assert EventLine(w.event) + "" == EventLine(w.event);
  }

  function IterAt(ws: seq<Written>): IterReader
  {
    IterReader("message", [], Apply(ws, FrameOf))
  }

  lemma IterWhole(front: seq<Written>, w: Written)
    requires WellWritten(w)
    ensures ReadsFrame(IterLine, IterAt, "", front, w)
  {
    IterOpened(IterAt(front), w);
    FoldLast(IterLine, IterAt(front), Opened(w, ""), "");
    ApplySnoc(front, w, FrameOf);
  }

  lemma IterReadsBack(ws: seq<Written>)
    requires AllWellWritten(ws)
    ensures Fold(IterLine, IterStart, PrintedAll(ws, "")) == IterAt(ws)
  {
    forall front, w | WellWritten(w) ensures ReadsFrame(IterLine, IterAt, "", front, w) { IterWhole(front, w); }
    ReadsBack(IterLine, IterAt, ws, "");
  }

  // ---- agreement ----

  lemma {:induction false} PrintedHoldsNoNewline(ws: seq<Written>, cr: string, line: string)
    requires AllWellWritten(ws) && Ending(cr) && line in PrintedAll(ws, cr)
    ensures '\n' !in line
  {
    var front, w := ws[..|ws| - 1], ws[|ws| - 1];
    if line in PrintedAll(front, cr) {
      PrintedHoldsNoNewline(front, cr, line);
    } else {
      OpenedHoldsNoNewline(w, cr, line);
    }
  }

  lemma OpenedHoldsNoNewline(w: Written, cr: string, line: string)
    requires WellWritten(w) && Ending(cr) && line in Opened(w, cr) + [cr]
    ensures '\n' !in line
  {
    var data := Apply(w.data, (l: string) => DataLine(l) + cr);
    if line in data {
      var k :| 0 <= k < |data| && data[k] == line;
      assert w.data[k] in w.data;
    }
  }

  lemma PrintedLinesRead(ws: seq<Written>, cr: string)
    requires AllWellWritten(ws) && Ending(cr)
    ensures LinesOf(Terminated(PrintedAll(ws, cr))) == PrintedAll(ws, cr)
  {
    forall l | l in PrintedAll(ws, cr) ensures '\n' !in l { PrintedHoldsNoNewline(ws, cr, l); }
    LinesOfTerminated(PrintedAll(ws, cr));
  }

  /** Frames printed with plain newlines and read back, in whatever pieces they arrive, give the same names and the
      same data in all three readers; streamSSE and parse_sse_stream also read CRLF line ends. */
  lemma ReadersAgree(ws: seq<Written>, cr: string, chunks: seq<string>)
    requires AllWellWritten(ws) && Ending(cr) && Concat(chunks) == Terminated(PrintedAll(ws, cr))
    ensures TsFrames(Concat(chunks)) == Apply(ws, FrameOf)
    ensures PyFrames(LinesOf(Concat(chunks))) == Apply(ws, PyFrameOf)
    ensures cr == "" ==> IterFrames(LinesOf(Concat(chunks))) == Apply(ws, FrameOf)
  {
    PrintedLinesRead(ws, cr);
    TsReadsBack(ws, cr);
    PyReadsBack(ws, cr);
    if cr == "" { IterReadsBack(ws); }
  }

  /** Without the blank line that ends it the last frame is dropped by streamSSE and kept by both Python readers. */
  lemma UnterminatedLastFrame(ws: seq<Written>, w: Written)
    requires AllWellWritten(ws) && WellWritten(w)
    ensures var lines := PrintedAll(ws, "") + Opened(w, "");
      && TsFrames(Terminated(lines)) == Apply(ws, FrameOf)
      && PyFrames(lines) == Apply(ws, PyFrameOf) + [PyFrameOf(w)]
      && IterFrames(lines) == Apply(ws, FrameOf) + [FrameOf(w)]
  {
    var lines := PrintedAll(ws, "") + Opened(w, "");
    forall l | l in lines ensures '\n' !in l {
      if l in PrintedAll(ws, "") { PrintedHoldsNoNewline(ws, "", l); } else { OpenedHoldsNoNewline(w, "", l); }
    }
    LinesOfTerminated(lines);
    TsLeavesOpen(ws, w);
    PyLeavesOpen(ws, w);
    IterLeavesOpen(ws, w);
  }

  lemma TsLeavesOpen(ws: seq<Written>, w: Written)
    requires AllWellWritten(ws) && WellWritten(w)
    ensures Fold(TsLine, TsStart, PrintedAll(ws, "") + Opened(w, "")).out == Apply(ws, FrameOf)
  {
    TsReadsBack(ws, "");
    FoldConcat(TsLine, TsStart, PrintedAll(ws, ""), Opened(w, ""));
    TsOpened(TsAt(ws), w, "");
  }

  lemma PyLeavesOpen(ws: seq<Written>, w: Written)
    requires AllWellWritten(ws) && WellWritten(w)
    ensures PyFrames(PrintedAll(ws, "") + Opened(w, "")) == Apply(ws, PyFrameOf) + [PyFrameOf(w)]
  {
    PyReadsBack(ws, "");
    FoldConcat(PyLine, PyStart, PrintedAll(ws, ""), Opened(w, ""));
    PyOpened(PyAt(ws), w, "");
  }

  lemma IterLeavesOpen(ws: seq<Written>, w: Written)
    requires AllWellWritten(ws) && WellWritten(w)
    ensures IterFrames(PrintedAll(ws, "") + Opened(w, "")) == Apply(ws, FrameOf) + [FrameOf(w)]
  {
    IterReadsBack(ws);
    FoldConcat(IterLine, IterStart, PrintedAll(ws, ""), Opened(w, ""));
    IterOpened(IterAt(ws), w);
  }

  // ---- where the readers differ ----

  lemma TwoLines<S>(step: (S, string) -> S, s: S, a: string, b: string)
    ensures Fold(step, s, [a, b]) == step(step(s, a), b)
  {
    assert [a, b][..1] == [a] && [a][..0] == [];
    assert Fold(step, s, []) == s;
    assert Fold(step, s, [a]) == step(s, a);
  }

  /** A frame without a name is dropped by streamSSE and called message by both Python readers. */
  lemma UnnamedFrame(x: string)
    requires CleanLine(x) && Plain(x)
    ensures Fold(TsLine, TsStart, [DataLine(x), ""]).out == []
    ensures PyFrames([DataLine(x), ""]) == [PyFrame("message", Some(x))]
    ensures IterFrames([DataLine(x), ""]) == [Frame("message", x)]
  {
    TwoLines(TsLine, TsStart, DataLine(x), "");
    TwoLines(PyLine, PyStart, DataLine(x), "");
    TwoLines(IterLine, IterStart, DataLine(x), "");
    TsData(TsStart, x);
    PyData(PyStart, x);
    IterData(IterStart, x);
  }

  /** A frame without data is kept by parse_sse_stream alone. */
  lemma DatalessFrame(name: string)
    requires CleanName(name) && Plain(name)
    ensures Fold(TsLine, TsStart, [EventLine(name), ""]).out == []
    ensures PyFrames([EventLine(name), ""]) == [PyFrame(name, None)]
    ensures IterFrames([EventLine(name), ""]) == []
  {
    TsDataless(name);
    PyDataless(name);
    IterDataless(name);
  }

  lemma TsDataless(name: string)
    requires CleanName(name) && Plain(name)
    ensures Fold(TsLine, TsStart, [EventLine(name), ""]).out == []
  {
    TwoLines(TsLine, TsStart, EventLine(name), "");
    TsEvent(TsStart, name);
  }

  lemma PyDataless(name: string)
    requires CleanName(name) && Plain(name)
    ensures PyFrames([EventLine(name), ""]) == [PyFrame(name, None)]
  {
    TwoLines(PyLine, PyStart, EventLine(name), "");
    PyEvent(PyStart, name);
  }

  lemma IterDataless(name: string)
    requires name != ""
    ensures IterFrames([EventLine(name), ""]) == []
  {
    TwoLines(IterLine, IterStart, EventLine(name), "");
    IterEvent(IterStart, name);
  }

  lemma PlainLine(x: string)
    requires Plain(x)
    ensures Plain(" " + x) && Plain(DataLine(" " + x))
  {
  }

  lemma TrimTwo(x: string)
    requires x != "" && !PySpace(x[0])
    ensures TrimLeft(" " + (" " + x), PySpace) == x
  {
    assert (" " + (" " + x))[1..] == " " + x && (" " + x)[1..] == x;
  }

  lemma PyTrims(x: string)
    requires x != "" && CleanLine(x) && Plain(x)
    ensures PyLine(PyStart, DataLine(" " + x)).data == [x]
  {
    var line := DataLine(" " + x);
    PlainLine(x);
    CleanCr(line);
    DataLineParts(" " + x);
    TrimTwo(x);
    assert TrimRight(line, IsCr) == line;
  }

  /** Of a data line's leading blanks parse_sse_stream drops all and the others one. */
  lemma IndentedData(x: string)
    requires x != "" && CleanLine(x) && Plain(x)
    ensures TsLine(TsStart, DataLine(" " + x)).data == [" " + x]
    ensures PyLine(PyStart, DataLine(" " + x)).data == [x]
    ensures IterLine(IterStart, DataLine(" " + x)).data == [" " + x]
  {
    PlainLine(x);
    TsData(TsStart, " " + x);
    IterData(IterStart, " " + x);
    PyTrims(x);
  }

  /** Comments, and lines of other fields, change nothing. */
  lemma CommentsIgnored(t: TsReader, p: PyReader, i: IterReader, x: string)
    requires Plain(x)
    ensures TsLine(t, ":" + x) == t && PyLine(p, ":" + x) == p && IterLine(i, ":" + x) == i
  {
    CleanCr(":" + x);
  }
}
