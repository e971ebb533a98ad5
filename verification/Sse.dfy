/** The three readers of server-sent events: streamSSE (clients/ts-agent-loop/src/http.ts), parse_sse_stream and
    _iter_sse (pc_launcher/bridge_client.py). */
module Sse {
  import opened Text
  import opened Lines

  datatype Frame = Frame(event: string, data: string)

  predicate StartsWith(s: string, tag: string)
  {
    tag <= s
  }

  // ---- streamSSE ----

  /** The event being collected and the frames yielded so far. */
  datatype TsReader = TsReader(event: string, data: seq<string>, out: seq<Frame>)

  const TsStart := TsReader("", [], [])

  function WithoutCr(line: string): string
  {
    if |line| > 0 && line[|line| - 1] == '\r' then line[..|line| - 1] else line
  }

  function WithoutSpace(s: string): string
  {
    if |s| > 0 && s[0] == ' ' then s[1..] else s
  }

  function TsLine(r: TsReader, raw: string): TsReader
  {
    var line := WithoutCr(raw);
    if line == "" then
      TsReader("", [], if r.event != "" && |r.data| > 0 then r.out + [Frame(r.event, Joined(r.data))] else r.out)
    else if StartsWith(line, ":") then r
    else if StartsWith(line, "event:") then r.(event := Trim(line[6..], JsSpace))
    else if StartsWith(line, "data:") then r.(data := r.data + [WithoutSpace(line[5..])])
    else r
  }

  /** The frames of a text; what follows the last newline is not read. */
  function TsFrames(text: string): seq<Frame>
  {
    Fold(TsLine, TsStart, LinesOf(text)).out
  }

  /** Read the chunks as they arrive. The frames depend only on the text the chunks make up. */
  method StreamSSE(chunks: seq<string>) returns (frames: seq<Frame>, rest: string)
    ensures frames == TsFrames(Concat(chunks))
    ensures rest == RestOf(Concat(chunks)) && '\n' !in rest
  {
    var buffer, event := "", "";
    var dataLines: seq<string> := [];
    frames := [];
    var i := 0;
    while i < |chunks|
      invariant i <= |chunks| && buffer == RestOf(Concat(chunks[..i])) && '\n' !in buffer
      invariant TsReader(event, dataLines, frames) == Fold(TsLine, TsStart, LinesOf(Concat(chunks[..i])))
    {
      assert chunks[..i + 1][..i] == chunks[..i];
      ghost var before := Concat(chunks[..i]);
      LinesAppend(before, chunks[i]);
      FoldConcat(TsLine, TsStart, LinesOf(before), LinesOf(buffer + chunks[i]));
      buffer := buffer + chunks[i];
      ghost var target := Fold(TsLine, TsReader(event, dataLines, frames), LinesOf(buffer));
      ghost var last := RestOf(buffer);
      var nl := NewlineIn(buffer);
      while nl.Some?
        invariant nl == NewlineIn(buffer) && RestOf(buffer) == last
        invariant Fold(TsLine, TsReader(event, dataLines, frames), LinesOf(buffer)) == target
        decreases |buffer|
      {
        FoldFirst(TsLine, TsReader(event, dataLines, frames), buffer[..nl.value], LinesOf(buffer[nl.value + 1..]));
        var line := buffer[..nl.value];
        buffer := buffer[nl.value + 1..];
        line := WithoutCr(line);
        if line == "" {
          if event != "" && |dataLines| > 0 {
            frames := frames + [Frame(event, Joined(dataLines))];
          }
          event, dataLines := "", [];
        } else if StartsWith(line, ":") {
        } else if StartsWith(line, "event:") {
          event := Trim(line[6..], JsSpace);
        } else if StartsWith(line, "data:") {
          dataLines := dataLines + [WithoutSpace(line[5..])];
        }
        nl := NewlineIn(buffer);
      }
      i := i + 1;
    }
    assert chunks[..|chunks|] == chunks;
    rest := buffer;
  }

  // ---- parse_sse_stream ----

  /** A frame whose data is missing when no data line came before the blank one. */
  datatype PyFrame = PyFrame(event: string, data: Option<string>)

  datatype PyReader = PyReader(event: Option<string>, data: seq<string>, out: seq<PyFrame>)

  const PyStart := PyReader(None, [], [])

  predicate IsCr(c: char)
  {
    c == '\r'
  }

  /** The frame a blank line or the end of the stream completes, if anything was collected. */
  function PyFlush(r: PyReader): seq<PyFrame>
  {
    if r.event.Some? || |r.data| > 0 then
      r.out + [PyFrame(if r.event.Some? && r.event.value != "" then r.event.value else "message",
                       if |r.data| > 0 then Some(Joined(r.data)) else None)]
    else r.out
  }

  function PyLine(r: PyReader, raw: string): PyReader
  {
    var line := TrimRight(raw, IsCr);
    if line == "" then PyReader(None, [], PyFlush(r))
    else if StartsWith(line, ":") then r
    else if StartsWith(line, "event:") then r.(event := Some(Trim(line[6..], PySpace)))
    else if StartsWith(line, "data:") then r.(data := r.data + [TrimLeft(line[5..], PySpace)])
    else r
  }

  function PyFrames(lines: seq<string>): seq<PyFrame>
  {
    PyFlush(Fold(PyLine, PyStart, lines))
  }

  method ParseSseStream(lines: seq<string>) returns (frames: seq<PyFrame>)
    ensures frames == PyFrames(lines)
  {
    var event: Option<string> := None;
    var dataChunks: seq<string> := [];
    frames := [];
    var i := 0;
    while i < |lines|
      invariant i <= |lines| && PyReader(event, dataChunks, frames) == Fold(PyLine, PyStart, lines[..i])
    {
      assert lines[..i + 1][..i] == lines[..i];
      var line := TrimRight(lines[i], IsCr);
      if line == "" {
        if event.Some? || |dataChunks| > 0 {
          var payload := if |dataChunks| > 0 then Some(Joined(dataChunks)) else None;
          frames := frames + [PyFrame(if event.Some? && event.value != "" then event.value else "message", payload)];
        }
        event, dataChunks := None, [];
      } else if StartsWith(line, ":") {
      } else if StartsWith(line, "event:") {
        event := Some(Trim(line[6..], PySpace));
      } else if StartsWith(line, "data:") {
        dataChunks := dataChunks + [TrimLeft(line[5..], PySpace)];
      }
      i := i + 1;
    }
    assert lines[..|lines|] == lines;
    if event.Some? || |dataChunks| > 0 {
      var payload := if |dataChunks| > 0 then Some(Joined(dataChunks)) else None;
      frames := frames + [PyFrame(if event.Some? && event.value != "" then event.value else "message", payload)];
    }
  }

  // ---- _iter_sse ----

  datatype IterReader = IterReader(event: string, data: seq<string>, out: seq<Frame>)

  const IterStart := IterReader("message", [], [])

  /** What a blank line or the end of the stream yields: nothing without a data line. */
  function IterFlush(r: IterReader): seq<Frame>
  {
    if |r.data| > 0 then r.out + [Frame(r.event, Joined(r.data))] else r.out
  }

  /** The field name before the first colon, and the value after it without one leading space. */
  function FieldOf(line: string): (string, string)
  {
    match First(line, (c: char) => c == ':')
    case None => (line, "")
    case Some(k) => (line[..k], WithoutSpace(line[k + 1..]))
  }

  function IterLine(r: IterReader, line: string): IterReader
  {
    if line == "" then IterReader("message", [], IterFlush(r))
    else if StartsWith(line, ":") then r
    else
      var (field, value) := FieldOf(line);
      if field == "event" then r.(event := if value != "" then value else "message")
      else if field == "data" then r.(data := r.data + [value])
      else r
  }

  function IterFrames(lines: seq<string>): seq<Frame>
  {
    IterFlush(Fold(IterLine, IterStart, lines))
  }

  method IterSse(lines: seq<string>) returns (frames: seq<Frame>)
    ensures frames == IterFrames(lines)
  {
    var event := "message";
    var dataLines: seq<string> := [];
    frames := [];
    var i := 0;
    while i < |lines|
      invariant i <= |lines| && IterReader(event, dataLines, frames) == Fold(IterLine, IterStart, lines[..i])
    {
      assert lines[..i + 1][..i] == lines[..i];
      var line := lines[i];
      if line == "" {
        if |dataLines| > 0 { frames := frames + [Frame(event, Joined(dataLines))]; }
        event, dataLines := "message", [];
      } else if !StartsWith(line, ":") {
        var (field, value) := FieldOf(line);
        if field == "event" {
          event := if value != "" then value else "message";
        } else if field == "data" {
          dataLines := dataLines + [value];
        }
      }
      i := i + 1;
    }
    assert lines[..|lines|] == lines;
    if |dataLines| > 0 { frames := frames + [Frame(event, Joined(dataLines))]; }
  }

  // ---- printing ----

  /** A frame as a server writes it: a name and its data lines. */
  datatype Written = Written(event: string, data: seq<string>)

  predicate Plain(s: string)
  {
    '\n' !in s && '\r' !in s
  }

  /** A name that neither Python nor JavaScript trims. */
  predicate CleanName(s: string)
  {
    s != "" && !PySpace(s[0]) && !JsSpace(s[0]) && !PySpace(s[|s| - 1]) && !JsSpace(s[|s| - 1])
  }

  /** A data line that does not start with white space. */
  predicate CleanLine(s: string)
  {
    s == "" || !PySpace(s[0])
  }

  ghost predicate WellWritten(w: Written)
  {
    && CleanName(w.event) && Plain(w.event) && |w.data| > 0
    && forall l :: l in w.data ==> CleanLine(l) && Plain(l)
  }

  ghost predicate AllWellWritten(ws: seq<Written>)
  {
    forall w :: w in ws ==> WellWritten(w)
  }

  function EventLine(name: string): string
  {
    "event: " + name
  }

  function DataLine(line: string): string
  {
    "data: " + line
  }

  /** The lines of a frame up to the blank one, each with cr before its newline. */
  function Opened(w: Written, cr: string): seq<string>
  {
    [EventLine(w.event) + cr] + Apply(w.data, (l: string) => DataLine(l) + cr)
  }

  function PrintedAll(ws: seq<Written>, cr: string): seq<string>
  {
    if |ws| == 0 then [] else PrintedAll(ws[..|ws| - 1], cr) + (Opened(ws[|ws| - 1], cr) + [cr])
  }

  function FrameOf(w: Written): Frame
  {
    Frame(w.event, Joined(w.data))
  }

  function PyFrameOf(w: Written): PyFrame
  {
    PyFrame(w.event, Some(Joined(w.data)))
  }

  // ---- reading one printed line ----

  lemma CleanCr(line: string)
    requires Plain(line)
    ensures WithoutCr(line) == line && TrimRight(line, IsCr) == line
    ensures WithoutCr(line + "\r") == line && TrimRight(line + "\r", IsCr) == line
  {
    var cr := line + "\r";
    assert cr[..|cr| - 1] == line && cr[|cr| - 1] == '\r';
    if |line| > 0 { assert line[|line| - 1] in line; }
  }

  lemma EventLineParts(name: string)
    ensures StartsWith(EventLine(name), "event:") && !StartsWith(EventLine(name), ":") && !StartsWith(EventLine(name), "data:")
    ensures EventLine(name) != "" && EventLine(name)[6..] == " " + name
  {
    assert EventLine(name)[0] == 'e';
  }

  lemma DataLineParts(line: string)
    ensures StartsWith(DataLine(line), "data:") && !StartsWith(DataLine(line), ":") && !StartsWith(DataLine(line), "event:")
    ensures DataLine(line) != "" && DataLine(line)[5..] == " " + line
  {
    assert DataLine(line)[0] == 'd';
  }

  lemma TrimAfterSpace(name: string, space: char -> bool)
    requires name != "" && space(' ') && !space(name[0]) && !space(name[|name| - 1])
    ensures Trim(" " + name, space) == name
  {
    assert (" " + name)[1..] == name;
  }

  lemma TrimLeftOne(line: string, space: char -> bool)
    requires space(' ') && (line == "" || !space(line[0]))
    ensures TrimLeft(" " + line, space) == line
  {
    assert (" " + line)[1..] == line;
  }

  lemma TsEvent(r: TsReader, name: string)
    requires CleanName(name) && Plain(name)
    ensures TsLine(r, EventLine(name)) == TsLine(r, EventLine(name) + "\r") == r.(event := name)
  {
    EventLineParts(name);
    CleanCr(EventLine(name));
    TrimAfterSpace(name, JsSpace);
  }

  lemma TsData(r: TsReader, line: string)
    requires Plain(line)
    ensures TsLine(r, DataLine(line)) == TsLine(r, DataLine(line) + "\r") == r.(data := r.data + [line])
  {
    DataLineParts(line);
    CleanCr(DataLine(line));
    assert (" " + line)[1..] == line;
  }

  lemma PyEvent(r: PyReader, name: string)
    requires CleanName(name) && Plain(name)
    ensures PyLine(r, EventLine(name)) == PyLine(r, EventLine(name) + "\r") == r.(event := Some(name))
  {
    EventLineParts(name);
    CleanCr(EventLine(name));
    TrimAfterSpace(name, PySpace);
  }

  lemma PyData(r: PyReader, line: string)
    requires Plain(line) && CleanLine(line)
    ensures PyLine(r, DataLine(line)) == PyLine(r, DataLine(line) + "\r") == r.(data := r.data + [line])
  {
    DataLineParts(line);
    CleanCr(DataLine(line));
    assert (" " + line)[1..] == line;
    TrimLeftOne(line, PySpace);
  }

  lemma FieldBeforeColon(name: string, value: string)
    requires ':' !in name
    ensures FieldOf(name + ": " + value) == (name, value)
  {
    var line := name + ": " + value;
    var p := (c: char) => c == ':';
    assert p(line[|name|]);
    forall k | 0 <= k < |name| ensures !p(line[k]) { assert line[k] == name[k]; }
    assert First(line, p) == Some(|name|);
    assert line[..|name|] == name && line[|name| + 1..] == " " + value;
    assert (" " + value)[1..] == value;
  }

  lemma IterEvent(r: IterReader, name: string)
    requires name != ""
    ensures IterLine(r, EventLine(name)) == r.(event := name)
  {
    EventLineParts(name);
    FieldBeforeColon("event", name);
    assert EventLine(name) == "event" + ": " + name;
  }

  lemma IterData(r: IterReader, line: string)
    ensures IterLine(r, DataLine(line)) == r.(data := r.data + [line])
  {
    DataLineParts(line);
    FieldBeforeColon("data", line);
    assert DataLine(line) == "data" + ": " + line;
  }
}
