/** The bracketed prefix of a reply (clients/ts-agent-loop/src/agent.ts, parseReplyPrefix and parseInviteTail). */
module ReplyPrefix {
  import opened Text

  const SpeechKinds: set<string> := {
    "claim", "question", "answer", "propose", "agree", "object", "evidence", "block", "defer", "summarize", "react",
    "move_close", "ratify", "invite", "join"
  }

  datatype Invite = Invite(handles: seq<string>, kinds: seq<string>)

  /** The parsed prefix; without an allowed kind the whole trimmed text is the body. */
  datatype Parsed = Parsed(kind: Option<string>, invite: Option<Invite>, body: string)

  // ---- searching and cutting ----

  /** The first position at or after from where the needle occurs. */
  function IndexOf(hay: string, needle: string, from: nat): (r: Option<nat>)
    ensures r.Some? ==> from <= r.value && OccursAt(hay, needle, r.value)
    ensures r.Some? ==> forall k :: from <= k < r.value ==> !OccursAt(hay, needle, k)
    ensures r.None? ==> forall k: nat :: from <= k ==> !OccursAt(hay, needle, k)
    decreases |hay| + 1 - from
  {
    if from + |needle| > |hay| then None
    else if hay[from..from + |needle|] == needle then Some(from)
    else IndexOf(hay, needle, from + 1)
  }

  predicate OccursAt(hay: string, needle: string, k: nat)
  {
    k + |needle| <= |hay| && hay[k..k + |needle|] == needle
  }

  /** White space and commas separate handles and kinds. */
  predicate Separates(c: char)
  {
    JsSpace(c) || c == ','
  }

  /** The pieces between separators, some of them empty. */
  function Pieces(s: string): (r: seq<string>)
    ensures |r| > 0
  {
    if |s| == 0 then [""]
    else
      var rest := Pieces(s[1..]);
      if Separates(s[0]) then [""] + rest else [[s[0]] + rest[0]] + rest[1..]
  }

  predicate TrailingMark(c: char)
  {
    c == ',' || c == ';'
  }

  /** A piece as a handle, if it is one. */
  function HandleOf(piece: string): Option<string>
  {
    var t := Trim(TrimRight(piece, TrailingMark), JsSpace);
    if |t| > 1 && t[0] == '@' then Some(t) else None
  }

  /** The handles among the pieces, each once, in order. */
  function Handles(pieces: seq<string>): seq<string>
  {
    if |pieces| == 0 then []
    else
      var before := Handles(pieces[..|pieces| - 1]);
      match HandleOf(pieces[|pieces| - 1])
      case None => before
      case Some(h) => if h in before then before else before + [h]
  }

  function NonEmpty(pieces: seq<string>): seq<string>
  {
    if |pieces| == 0 then []
    else NonEmpty(pieces[..|pieces| - 1]) + if pieces[|pieces| - 1] == "" then [] else [pieces[|pieces| - 1]]
  }

  const KindsMark := "kinds="

  /** What follows the arrow: handles, then kinds. */
  function InviteTail(tail: string): Invite
  {
    match IndexOf(tail, KindsMark, 0)
    case None => Invite(Handles(Pieces(tail)), [])
    case Some(k) => Invite(Handles(Pieces(tail[..k])), NonEmpty(Pieces(tail[k + |KindsMark|..])))
  }

  const Arrow: string := ['\U{2192}']
  const AsciiArrow := "->"

  /** The text before the first separator present, in the order arrow, ->, @, and what follows it. */
  function Separated(inside: string): Option<(string, string)>
  {
    match IndexOf(inside, Arrow, 0)
    case Some(k) => Some((inside[..k], inside[k + 1..]))
    case None =>
      match IndexOf(inside, AsciiArrow, 0)
      case Some(k) => Some((inside[..k], inside[k + 2..]))
      case None =>
        match IndexOf(inside, "@", 0)
        case Some(k) => Some((inside[..k], inside[k..]))
        case None => None
  }

  const BracketLimit := 200

  /** The bracket a trimmed text starts with, if it closes within the limit, and what follows it. */
  function Bracket(cleaned: string): Option<(string, string)>
  {
    if cleaned == "" || cleaned[0] != '[' then None
    else
      match IndexOf(cleaned, "]", 1)
      case None => None
      case Some(end) => if end > BracketLimit then None else Some((cleaned[1..end], cleaned[end + 1..]))
  }

  function ParseReplyPrefix(speech: set<string>, text: string): Parsed
  {
    var cleaned := Trim(text, JsSpace);
    match Bracket(cleaned)
    case None => Parsed(None, None, cleaned)
    case Some(b) => ParseBracket(speech, cleaned, b.0, b.1)
  }

  /** A bracket and what follows it. */
  function ParseBracket(speech: set<string>, cleaned: string, bracket: string, after: string): Parsed
  {
    var inside := Trim(bracket, JsSpace);
    var body := TrimLeft(after, JsSpace);
    match Separated(inside)
    case None =>
      if Lower(inside) in speech then Parsed(Some(Lower(inside)), None, body) else Parsed(None, None, cleaned)
    case Some(parts) =>
      var kind := Lower(Trim(parts.0, JsSpace));
      if kind !in speech then Parsed(None, None, cleaned)
      else
        var invite := InviteTail(parts.1);
        Parsed(Some(kind), if invite.handles == [] then None else Some(invite), body)
  }

  /** The loop that collects the handles and kinds. */
  method ParseInviteTail(text: string) returns (handles: seq<string>, kinds: seq<string>)
    ensures Invite(handles, kinds) == InviteTail(text)
  {
    var tail := text;
    kinds := [];
    var idx := IndexOf(tail, KindsMark, 0);
    if idx.Some? {
      kinds := NonEmpty(Pieces(tail[idx.value + |KindsMark|..]));
      tail := tail[..idx.value];
    }
    handles := CollectHandles(Pieces(tail));
  }

  method CollectHandles(pieces: seq<string>) returns (handles: seq<string>)
    ensures handles == Handles(pieces)
  {
    handles := [];
    var i := 0;
    while i < |pieces|
      invariant i <= |pieces| && handles == Handles(pieces[..i])
    {
      assert pieces[..i + 1][..i] == pieces[..i];
      var t := HandleOf(pieces[i]);
      if t.Some? && t.value !in handles {
        handles := handles + [t.value];
      }
      i := i + 1;
    }
    assert pieces[..|pieces|] == pieces;
  }

  // ---- rendering ----

  function Commas(xs: seq<string>): string
  {
    if |xs| == 0 then "" else if |xs| == 1 then xs[0] else xs[0] + [','] + Commas(xs[1..])
  }

  function RenderedTail(handles: seq<string>, kinds: seq<string>): string
  {
    Commas(handles) + if kinds == [] then "" else [' '] + KindsMark + Commas(kinds)
  }

  function Inside(kind: string, invite: Option<Invite>): string
  {
    kind + match invite case None => "" case Some(i) => Arrow + RenderedTail(i.handles, i.kinds)
  }

  function Render(kind: string, invite: Option<Invite>, body: string): string
  {
    ['['] + Inside(kind, invite) + [']'] + After(body)
  }

  /** A text without separators and closing brackets. */
  predicate Word(s: string)
  {
    s != "" && forall c :: c in s ==> !Separates(c) && c != ']'
  }

  ghost predicate NiceHandle(h: string)
  {
    Word(h) && |h| > 1 && h[0] == '@' && !TrailingMark(h[|h| - 1]) && forall k: nat :: !OccursAt(h, KindsMark, k)
  }

  ghost predicate NiceInvite(i: Invite)
  {
    && i.handles != [] && (forall h :: h in i.handles ==> NiceHandle(h))
    && (forall j, k :: 0 <= j < k < |i.handles| ==> i.handles[j] != i.handles[k])
    && (forall k :: k in i.kinds ==> Word(k))
  }

  /** A body that trimming leaves alone. */
  predicate CleanBody(body: string)
  {
    body == "" || (!JsSpace(body[0]) && !JsSpace(body[|body| - 1]))
  }

  // ---- searching ----

  lemma FoundAt(hay: string, needle: string, from: nat, k: nat)
    requires from <= k && OccursAt(hay, needle, k) && forall j :: from <= j < k ==> !OccursAt(hay, needle, j)
    ensures IndexOf(hay, needle, from) == Some(k)
  {
  }

  lemma FoundChar(a: string, c: char, b: string, from: nat)
    requires c !in a && from <= |a|
    ensures IndexOf(a + [c] + b, [c], from) == Some(|a|)
  {
    var hay := a + [c] + b;
    assert hay[|a|..|a| + 1] == [c];
    forall j | from <= j < |a| ensures !OccursAt(hay, [c], j) {
      assert hay[j..j + 1][0] == a[j] && a[j] in a;
    }
    FoundAt(hay, [c], from, |a|);
  }

  lemma NotFoundChar(a: string, needle: string, c: char)
    requires c !in a && c in needle
    ensures IndexOf(a, needle, 0) == None
  {
    var i :| 0 <= i < |needle| && needle[i] == c;
    forall k: nat ensures !OccursAt(a, needle, k) {
      if k + |needle| <= |a| { assert a[k..k + |needle|][i] == a[k + i] && a[k + i] in a; }
    }
  }

  /** A needle does not occur across a character it does not hold. */
  lemma NotAcross(hay: string, needle: string, k: nat, m: nat)
    requires k <= m < k + |needle| && m < |hay| && hay[m] !in needle
    ensures !OccursAt(hay, needle, k)
  {
    if k + |needle| <= |hay| { assert hay[k..k + |needle|][m - k] == hay[m] && needle[m - k] in needle; }
  }

  /** A needle without commas occurs in a comma list only inside one of its words. */
  lemma {:induction false} OccursInWord(xs: seq<string>, needle: string, k: nat)
    requires needle != "" && ',' !in needle && OccursAt(Commas(xs), needle, k)
    ensures exists x, j: nat :: x in xs && OccursAt(x, needle, j)
  {
    if |xs| == 1 {
      assert xs[0] in xs;
    } else {
      var x, rest := xs[0], Commas(xs[1..]);
      var hay := x + [','] + rest;
      if k + |needle| <= |x| {
        assert hay[k..k + |needle|] == x[k..k + |needle|];
        assert OccursAt(x, needle, k) && x in xs;
      } else if k <= |x| {
        NotAcross(hay, needle, k, |x|);
        assert false;
      } else {
        var j := k - |x| - 1;
        assert hay[k..k + |needle|] == rest[j..j + |needle|];
        OccursInWord(xs[1..], needle, j);
        var y, i: nat :| y in xs[1..] && OccursAt(y, needle, i);
        assert y in xs;
      }
    }
  }

  // ---- pieces ----

  lemma {:induction false} PiecesOfWord(w: string)
    requires forall c :: c in w ==> !Separates(c)
    ensures Pieces(w) == [w]
  {
    if |w| > 0 {
      assert forall c :: c in w[1..] ==> c in w;
      PiecesOfWord(w[1..]);
      assert w[0] in w && [w[0]] + w[1..] == w;
    }
  }

  lemma {:induction false} PiecesBreak(w: string, c: char, rest: string)
    requires (forall d :: d in w ==> !Separates(d)) && Separates(c)
    ensures Pieces(w + [c] + rest) == [w] + Pieces(rest)
  {
    var s := w + [c] + rest;
    if |w| == 0 {
      assert s[1..] == rest;
    } else {
      assert forall d :: d in w[1..] ==> d in w;
      PiecesBreak(w[1..], c, rest);
      assert s[1..] == w[1..] + [c] + rest;
      assert s[0] == w[0] && w[0] in w && [w[0]] + w[1..] == w;
      assert Pieces(s[1..]) == [w[1..]] + Pieces(rest);
    }
  }

  lemma {:induction false} PiecesOfCommas(xs: seq<string>)
    requires xs != [] && forall x :: x in xs ==> Word(x)
    ensures Pieces(Commas(xs)) == xs
    ensures Pieces(Commas(xs) + [' ']) == xs + [""]
  {
    assert xs[0] in xs;
    if |xs| == 1 {
      PiecesOfWord(xs[0]);
      PiecesBreak(xs[0], ' ', "");
      assert xs[0] + [' '] == xs[0] + [' '] + "";
    } else {
      var rest := Commas(xs[1..]);
      PiecesOfCommas(xs[1..]);
      PiecesBreak(xs[0], ',', rest);
      PiecesBreak(xs[0], ',', rest + [' ']);
      assert (xs[0] + [','] + rest) + [' '] == xs[0] + [','] + (rest + [' ']);
    }
  }

  lemma NiceIsHandle(h: string)
    requires NiceHandle(h)
    ensures HandleOf(h) == Some(h)
  {
    assert h[0] in h && h[|h| - 1] in h;
    assert TrimRight(h, TrailingMark) == h;
    TrimClean(h, JsSpace);
  }

  lemma {:induction false} HandlesOfNice(hs: seq<string>)
    requires (forall h :: h in hs ==> NiceHandle(h)) && forall j, k :: 0 <= j < k < |hs| ==> hs[j] != hs[k]
    ensures Handles(hs) == hs && Handles(hs + [""]) == hs
  {
    assert (hs + [""])[..|hs|] == hs && HandleOf("") == None;
    if |hs| > 0 {
      HandlesOfNice(hs[..|hs| - 1]);
      NiceIsHandle(hs[|hs| - 1]);
    }
  }

  lemma {:induction false} NonEmptyWords(ks: seq<string>)
    requires forall k :: k in ks ==> Word(k)
    ensures NonEmpty(ks) == ks
  {
    if |ks| > 0 {
      assert ks[|ks| - 1] in ks;
      NonEmptyWords(ks[..|ks| - 1]);
    }
  }

  // ---- round trip ----

  lemma NoMarkInHandles(i: Invite, k: nat)
    requires NiceInvite(i)
    ensures !OccursAt(Commas(i.handles), KindsMark, k)
  {
    if OccursAt(Commas(i.handles), KindsMark, k) {
      OccursInWord(i.handles, KindsMark, k);
      assert false;
    }
  }

  lemma MarkFound(i: Invite, more: string)
    requires NiceInvite(i)
    ensures IndexOf(Commas(i.handles) + [' '] + KindsMark + more, KindsMark, 0) == Some(|Commas(i.handles)| + 1)
  {
    var c := Commas(i.handles);
    var hay := c + [' '] + KindsMark + more;
    assert hay[|c| + 1..|c| + 1 + |KindsMark|] == KindsMark;
    forall k | 0 <= k < |c| + 1 ensures !OccursAt(hay, KindsMark, k) {
      if k + |KindsMark| <= |c| {
        assert hay[k..k + |KindsMark|] == c[k..k + |KindsMark|];
        NoMarkInHandles(i, k);
      } else {
        NotAcross(hay, KindsMark, k, |c|);
      }
    }
    FoundAt(hay, KindsMark, 0, |c| + 1);
  }

  lemma PlainTail(i: Invite)
    requires NiceInvite(i)
    ensures InviteTail(Commas(i.handles)) == Invite(i.handles, [])
  {
    var c := Commas(i.handles);
    PiecesOfCommas(i.handles);
    HandlesOfNice(i.handles);
    var r := IndexOf(c, KindsMark, 0);
    if r.Some? { NoMarkInHandles(i, r.value); }
  }

  lemma MarkedTail(i: Invite, more: string)
    requires NiceInvite(i)
    ensures InviteTail(Commas(i.handles) + [' '] + KindsMark + more) == Invite(i.handles, NonEmpty(Pieces(more)))
  {
    var c := Commas(i.handles);
    var tail := c + [' '] + KindsMark + more;
    MarkFound(i, more);
    assert tail[..|c| + 1] == c + [' '];
    assert tail[|c| + 1 + |KindsMark|..] == more;
    PiecesOfCommas(i.handles);
    HandlesOfNice(i.handles);
  }

  lemma TailRoundTrip(i: Invite)
    requires NiceInvite(i)
    ensures InviteTail(RenderedTail(i.handles, i.kinds)) == i
  {
    if i.kinds == [] {
      PlainTail(i);
      assert RenderedTail(i.handles, i.kinds) == Commas(i.handles);
    } else {
      var more := Commas(i.kinds);
      assert RenderedTail(i.handles, i.kinds) == Commas(i.handles) + [' '] + KindsMark + more;
      MarkedTail(i, more);
      PiecesOfCommas(i.kinds);
      NonEmptyWords(i.kinds);
    }
  }

  // ---- the whole prefix ----

  predicate Letter(c: char)
  {
    'a' <= c <= 'z' || 'A' <= c <= 'Z' || c == '_'
  }

  predicate Lettered(s: string)
  {
    s != "" && forall k :: 0 <= k < |s| ==> Letter(s[k])
  }

  predicate AllLettered(speech: set<string>)
  {
    forall k :: k in speech ==> Lettered(k)
  }

  lemma SomeKindsAreLettered()
    ensures Lettered("claim") && Lettered("question") && Lettered("answer") && Lettered("propose") && Lettered("agree")
    ensures Lettered("object") && Lettered("evidence") && Lettered("block")
  {
  }

  lemma OtherKindsAreLettered()
    ensures Lettered("defer") && Lettered("summarize") && Lettered("react") && Lettered("move_close")
    ensures Lettered("ratify") && Lettered("invite") && Lettered("join")
  {
  }

  lemma SpeechKindsAreLettered()
    ensures AllLettered(SpeechKinds)
  {
    SomeKindsAreLettered();
    OtherKindsAreLettered();
  }

  lemma KindsAreLettered(speech: set<string>, kind: string)
    requires AllLettered(speech) && Lower(kind) in speech
    ensures Lettered(kind)
  {
    assert Lettered(Lower(kind));
    forall k | 0 <= k < |kind| ensures Letter(kind[k]) {
      assert Letter(Lower(kind)[k]);
    }
  }

  lemma LetteredHas(kind: string, c: char)
    requires Lettered(kind) && !Letter(c)
    ensures c !in kind
  {
  }

  lemma {:induction false} CommasOpen(xs: seq<string>)
    requires xs != [] && forall x :: x in xs ==> Word(x)
    ensures ']' !in Commas(xs)
  {
    assert xs[0] in xs;
    if |xs| > 1 { CommasOpen(xs[1..]); }
  }

  lemma {:induction false} CommasEnd(xs: seq<string>)
    requires xs != [] && forall x :: x in xs ==> Word(x)
    ensures Commas(xs) != "" && !JsSpace(Commas(xs)[|Commas(xs)| - 1])
  {
    assert xs[0] in xs;
    if |xs| > 1 { CommasEnd(xs[1..]); } else { assert xs[0][|xs[0]| - 1] in xs[0]; }
  }

  lemma SeparatedAt(inside: string, k: nat)
    requires IndexOf(inside, Arrow, 0) == Some(k)
    ensures Separated(inside) == Some((inside[..k], inside[k + 1..]))
  {
  }

  lemma ArrowInside(kind: string, tail: string)
    requires Lettered(kind)
    ensures Separated(kind + Arrow + tail) == Some((kind, tail))
  {
    var inside := kind + Arrow + tail;
    LetteredHas(kind, Arrow[0]);
    assert inside == kind + [Arrow[0]] + tail && [Arrow[0]] == Arrow;
    FoundChar(kind, Arrow[0], tail, 0);
    SeparatedAt(inside, |kind|);
    assert inside[..|kind|] == kind && inside[|kind| + 1..] == tail;
  }

  lemma ArrowTrim(kind: string, tail: string)
    requires Lettered(kind) && tail != "" && !JsSpace(tail[|tail| - 1])
    ensures Trim(kind, JsSpace) == kind && Trim(kind + Arrow + tail, JsSpace) == kind + Arrow + tail
  {
    var inside := kind + Arrow + tail;
    assert inside[0] == kind[0] && inside[|inside| - 1] == tail[|tail| - 1];
    TrimClean(kind, JsSpace);
    TrimClean(inside, JsSpace);
  }

  lemma InsideParts(kind: string, i: Invite, tail: string)
    requires tail == RenderedTail(i.handles, i.kinds)
    ensures Inside(kind, Some(i)) == kind + Arrow + tail
  {
  }

  /** Reading back an invitation, however its kind is spelled in upper and lower case. */
  lemma InsideReads(kind: string, i: Invite, tail: string)
    requires Lettered(kind) && tail == RenderedTail(i.handles, i.kinds)
    requires tail != "" && !JsSpace(tail[|tail| - 1]) && ']' !in tail
    ensures Separated(Inside(kind, Some(i))) == Some((kind, tail))
    ensures Trim(kind, JsSpace) == kind && Trim(Inside(kind, Some(i)), JsSpace) == Inside(kind, Some(i))
    ensures ']' !in Inside(kind, Some(i))
  {
    InsideParts(kind, i, tail);
    ArrowInside(kind, tail);
    ArrowTrim(kind, tail);
    LetteredHas(kind, ']');
  }

  lemma TailEnds(i: Invite)
    requires NiceInvite(i)
    ensures var tail := RenderedTail(i.handles, i.kinds);
      tail != "" && !JsSpace(tail[|tail| - 1]) && ']' !in tail
  {
    CommasOpen(i.handles);
    CommasEnd(i.handles);
    if i.kinds != [] {
      CommasOpen(i.kinds);
      CommasEnd(i.kinds);
    }
  }

  lemma TerminalInside(speech: set<string>, kind: string)
    requires AllLettered(speech) && Lower(kind) in speech
    ensures Separated(kind) == None && Trim(kind, JsSpace) == kind && ']' !in kind
  {
    KindsAreLettered(speech, kind);
    LetteredHas(kind, Arrow[0]);
    LetteredHas(kind, '>');
    LetteredHas(kind, '@');
    LetteredHas(kind, ']');
    NotFoundChar(kind, Arrow, Arrow[0]);
    NotFoundChar(kind, AsciiArrow, '>');
    NotFoundChar(kind, "@", '@');
    TrimClean(kind, JsSpace);
  }

  /** A bracket without a closing bracket inside is found again, if it fits the limit. */
  lemma BracketFound(inside: string, after: string)
    requires ']' !in inside && |inside| + 1 <= BracketLimit
    ensures Bracket(['['] + inside + [']'] + after) == Some((inside, after))
  {
    var text := ['['] + inside + [']'] + after;
    assert text == (['['] + inside) + [']'] + after;
    FoundChar(['['] + inside, ']', after, 1);
    assert text[1..|inside| + 1] == inside && text[|inside| + 2..] == after;
  }

  function After(body: string): string
  {
    if body == "" then "" else [' '] + body
  }

  lemma AfterTrims(body: string)
    requires CleanBody(body)
    ensures TrimLeft(After(body), JsSpace) == body
  {
    if body != "" {
      assert ([' '] + body)[1..] == body;
      assert TrimLeft(body, JsSpace) == body;
    }
  }

  lemma WholeTrims(bracket: string, body: string, text: string)
    requires |bracket| > 1 && bracket[0] == '[' && bracket[|bracket| - 1] == ']' && CleanBody(body)
    requires text == bracket + After(body)
    ensures Trim(text, JsSpace) == text
  {
    TextEnds(bracket, body);
    TrimClean(text, JsSpace);
  }

  lemma Bracketed(inside: string) returns (b: string)
    ensures b == ['['] + inside + [']'] && |b| > 1 && b[0] == '[' && b[|b| - 1] == ']'
  {
    b := ['['] + inside + [']'];
  }

  lemma RenderTrims(inside: string, body: string)
    requires CleanBody(body)
    ensures Trim(['['] + inside + [']'] + After(body), JsSpace) == ['['] + inside + [']'] + After(body)
  {
    var b := Bracketed(inside);
    WholeTrims(b, body, b + After(body));
  }

  lemma TextEnds(bracket: string, body: string)
    requires |bracket| > 1 && bracket[0] == '[' && bracket[|bracket| - 1] == ']' && CleanBody(body)
    ensures var text := bracket + After(body); text != "" && !JsSpace(text[0]) && !JsSpace(text[|text| - 1])
  {
    var text := bracket + After(body);
    assert text[0] == bracket[0];
    if body == "" {
      assert text == bracket;
    } else {
      assert text[|text| - 1] == body[|body| - 1];
    }
  }

  lemma InviteBracket(
    speech: set<string>, text: string, inside: string, after: string, kind: string, tail: string, i: Invite)
    requires Lower(kind) in speech && i.handles != [] && InviteTail(tail) == i
    requires Separated(inside) == Some((kind, tail)) && Trim(kind, JsSpace) == kind && Trim(inside, JsSpace) == inside
    ensures ParseBracket(speech, text, inside, after) == Parsed(Some(Lower(kind)), Some(i), TrimLeft(after, JsSpace))
  {
  }

  lemma InviteRoundTrip(speech: set<string>, text: string, kind: string, i: Invite, after: string)
    requires AllLettered(speech) && Lower(kind) in speech && NiceInvite(i)
    ensures ParseBracket(speech, text, Inside(kind, Some(i)), after) == Parsed(Some(Lower(kind)), Some(i), TrimLeft(after, JsSpace))
    ensures ']' !in Inside(kind, Some(i))
  {
    var tail := RenderedTail(i.handles, i.kinds);
    KindsAreLettered(speech, kind);
    TailEnds(i);
    TailRoundTrip(i);
    InsideReads(kind, i, tail);
    InviteBracket(speech, text, Inside(kind, Some(i)), after, kind, tail, i);
  }

  lemma BracketRoundTrip(speech: set<string>, text: string, kind: string, invite: Option<Invite>, after: string)
    requires AllLettered(speech) && Lower(kind) in speech && (invite.Some? ==> NiceInvite(invite.value))
    ensures ParseBracket(speech, text, Inside(kind, invite), after) == Parsed(Some(Lower(kind)), invite, TrimLeft(after, JsSpace))
    ensures ']' !in Inside(kind, invite)
  {
    match invite {
      case None =>
        TerminalInside(speech, kind);
        assert Inside(kind, None) == kind;
      case Some(i) =>
        InviteRoundTrip(speech, text, kind, i, after);
    }
  }

  /** Rendering an allowed kind, an invitation or none, and a body, and parsing the text gives them back. */
  lemma RenderRoundTrip(speech: set<string>, kind: string, invite: Option<Invite>, body: string)
    requires AllLettered(speech) && Lower(kind) in speech && CleanBody(body) && |Inside(kind, invite)| + 1 <= BracketLimit
    requires invite.Some? ==> NiceInvite(invite.value)
    ensures ParseReplyPrefix(speech, Render(kind, invite, body)) == Parsed(Some(Lower(kind)), invite, body)
  {
    var inside, text := Inside(kind, invite), Render(kind, invite, body);
    AfterTrims(body);
    RenderTrims(inside, body);
    BracketRoundTrip(speech, text, kind, invite, After(body));
    BracketFound(inside, After(body));
  }

  /** An arrow of either kind and the bare sign before the first handle say the same. */
  lemma ThreeSeparators(kind: string, rest: string)
    requires forall c :: c in kind || c in rest ==> c !in {'\U{2192}', '-', '@'}
    ensures Separated(kind + Arrow + ("@" + rest)) == Some((kind, "@" + rest))
    ensures Separated(kind + AsciiArrow + ("@" + rest)) == Some((kind, "@" + rest))
    ensures Separated(kind + ("@" + rest)) == Some((kind, "@" + rest))
  {
    var tail := "@" + rest;
    FirstOccurs(kind, Arrow, tail);
    FirstOccurs(kind, AsciiArrow, tail);
    FirstOccurs(kind, "@", rest);
    Absent(kind + AsciiArrow + tail, Arrow);
    Absent(kind + tail, Arrow);
    Absent(kind + tail, AsciiArrow);
    assert kind + tail == kind + "@" + rest;
    assert (kind + Arrow + tail)[|kind| + 1..] == tail && (kind + AsciiArrow + tail)[|kind| + 2..] == tail;
    assert (kind + tail)[|kind|..] == tail;
  }

  lemma OccursStart(text: string, mark: string, k: nat)
    requires mark != "" && OccursAt(text, mark, k)
    ensures k < |text| && text[k] == mark[0]
  {
    assert text[k..k + |mark|][0] == text[k];
  }

  lemma FirstOccurs(before: string, mark: string, after: string)
    requires mark != "" && mark[0] !in before
    ensures IndexOf(before + mark + after, mark, 0) == Some(|before|) && (before + mark + after)[..|before|] == before
  {
    var text := before + mark + after;
    assert text[|before|..|before| + |mark|] == mark;
    forall k: nat | k < |before| ensures !OccursAt(text, mark, k) {
      if OccursAt(text, mark, k) { OccursStart(text, mark, k); }
    }
    assert OccursAt(text, mark, |before|);
  }

  lemma Absent(text: string, mark: string)
    requires mark != "" && mark[0] !in text
    ensures IndexOf(text, mark, 0).None?
  {
    forall k: nat ensures !OccursAt(text, mark, k) {
      if OccursAt(text, mark, k) { OccursStart(text, mark, k); }
    }
  }

  /** A comma or semicolon written behind a handle is not part of it. */
  lemma MarkedHandle(name: string, mark: char)
    requires name != "" && mark in {',', ';'} && !TrailingMark(name[|name| - 1]) && !JsSpace(name[|name| - 1])
    ensures HandleOf("@" + name) == Some("@" + name) && HandleOf("@" + name + [mark]) == Some("@" + name)
  {
    var h := "@" + name;
    assert (h + [mark])[..|h|] == h && h[|h| - 1] == name[|name| - 1];
    TrimClean(h, JsSpace);
  }

  /** Empty pieces between separators are no kinds. */
  lemma {:induction false} NonEmptyAre(pieces: seq<string>, kind: string)
    ensures kind in NonEmpty(pieces) <==> kind != "" && kind in pieces
  {
    if |pieces| > 0 {
      NonEmptyAre(pieces[..|pieces| - 1], kind);
      assert pieces == pieces[..|pieces| - 1] + [pieces[|pieces| - 1]];
    }
  }

  /** A trimmed text has a bracket exactly when it starts with one that closes within 200 characters. */
  lemma BracketIff(text: string)
    ensures Bracket(text).Some? <==> text != "" && text[0] == '[' && exists k: nat :: 1 <= k <= 200 && OccursAt(text, "]", k)
  {
    if text != "" && text[0] == '[' && IndexOf(text, "]", 1).Some? { assert OccursAt(text, "]", IndexOf(text, "]", 1).value); }
  }

  /** What is not an allowed prefix is left whole: the body is the trimmed text, and nobody is invited. */
  lemma RejectedIsWhole(speech: set<string>, text: string)
    requires ParseReplyPrefix(speech, text).kind == None
    ensures ParseReplyPrefix(speech, text) == Parsed(None, None, Trim(text, JsSpace))
  {
  }

  /** An accepted kind is an allowed one, and an invitation comes with a kind and names somebody, each once. */
  predicate Proper(speech: set<string>, r: Parsed)
  {
    && (r.kind.Some? ==> r.kind.value in speech)
    && (r.invite.Some? ==> r.kind.Some? && r.invite.value.handles != [] && Distinct(r.invite.value.handles))
  }

  lemma KindedIsProper(speech: set<string>, kind: string, invite: Invite, body: string)
    requires Distinct(invite.handles)
    ensures kind in speech ==> Proper(speech, Parsed(Some(kind), if invite.handles == [] then None else Some(invite), body))
  {
  }

  lemma BracketAccepts(speech: set<string>, cleaned: string, bracket: string, after: string)
    ensures Proper(speech, ParseBracket(speech, cleaned, bracket, after))
  {
    var parts := Separated(Trim(bracket, JsSpace));
    if parts.Some? {
      TailDistinct(parts.value.1);
      KindedIsProper(speech, Lower(Trim(parts.value.0, JsSpace)), InviteTail(parts.value.1), TrimLeft(after, JsSpace));
    }
  }

  predicate Distinct(xs: seq<string>)
  {
    forall j, k :: 0 <= j < k < |xs| ==> xs[j] != xs[k]
  }

  lemma TailDistinct(tail: string)
    ensures Distinct(InviteTail(tail).handles)
  {
    match IndexOf(tail, KindsMark, 0) {
      case None => HandlesDistinct(Pieces(tail));
      case Some(k) => HandlesDistinct(Pieces(tail[..k]));
    }
  }

  lemma {:induction false} HandlesDistinct(pieces: seq<string>)
    ensures Distinct(Handles(pieces))
  {
    if |pieces| > 0 {
      var before := Handles(pieces[..|pieces| - 1]);
      HandlesDistinct(pieces[..|pieces| - 1]);
      assert Handles(pieces) == before || exists h :: h !in before && Handles(pieces) == before + [h];
    }
  }

  /** Whatever the text, an accepted prefix is proper. */
  lemma AcceptedIsProper(speech: set<string>, text: string)
    ensures Proper(speech, ParseReplyPrefix(speech, text))
  {
    var cleaned := Trim(text, JsSpace);
    var b := Bracket(cleaned);
    if b.Some? { BracketAccepts(speech, cleaned, b.value.0, b.value.1); }
  }

  /** The round trip for the kinds of the protocol. */
  lemma PrefixRoundTrip(kind: string, invite: Option<Invite>, body: string)
    requires Lower(kind) in SpeechKinds && CleanBody(body) && |Inside(kind, invite)| + 1 <= BracketLimit
    requires invite.Some? ==> NiceInvite(invite.value)
    ensures ParseReplyPrefix(SpeechKinds, Render(kind, invite, body)) == Parsed(Some(Lower(kind)), invite, body)
  {
    SpeechKindsAreLettered();
    RenderRoundTrip(SpeechKinds, kind, invite, body);
  }
}
