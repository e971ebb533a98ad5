/** The agent client's dispatch loop (clients/ts-agent-loop/src/index.ts and agent.ts). */
module AgentLoop {
  import opened Text
  import opened Sse
  import ReplyPrefix

  datatype Envelope = Envelope(
    eventId: string, operationId: string, kind: string, actorId: string, text: string,
    addressed: seq<string>, expected: Option<seq<string>>)

  /** A post the client attempts. */
  datatype Post = Post(operationId: string, repliesTo: string, kind: string, text: string)

  /** How frame data decodes: the actor id of an open frame, and an envelope; None when the data does not parse. */
  datatype Wire = Wire(actorIn: string -> Option<string>, envelope: string -> Option<Envelope>)

  /** The agent's state, and the posts it has attempted. */
  datatype Mind = Mind(actorId: Option<string>, seen: set<string>, posts: seq<Post>)

  predicate ShouldRespond(handle: string, actorId: Option<string>, env: Envelope)
  {
    && "chat.speech." <= env.kind
    && actorId != Some(env.actorId)
    && match env.expected
       case Some(handles) => handle in handles
       case None => actorId.Some? && actorId.value in env.addressed
  }

  function BuildReply(env: Envelope): Option<string>
  {
    if env.kind == "chat.speech.question"
    then Some("Acknowledged via ts-agent-loop: " + if |env.text| <= 200 then env.text else env.text[..200])
    else None
  }

  /** The agent would reply to the envelope. */
  predicate Selected(handle: string, actorId: Option<string>, env: Envelope)
  {
    ShouldRespond(handle, actorId, env) && BuildReply(env).Some?
  }

  function PostOf(env: Envelope): Post
  {
    var parsed := ReplyPrefix.ParseReplyPrefix(ReplyPrefix.SpeechKinds, if BuildReply(env).Some? then BuildReply(env).value else "");
    Post(env.operationId, env.eventId, if parsed.kind.Some? then "speech." + parsed.kind.value else "speech.answer", parsed.body)
  }

  /** The envelope a frame delivers, if it does. */
  function Delivers(wire: Wire, f: Frame): Option<Envelope>
  {
    if f.event == "v2.event" then wire.envelope(f.data) else None
  }

  /** The actor id a frame announces, if it does. */
  function Opens(wire: Wire, f: Frame): Option<string>
  {
    if f.event == "open" && wire.actorIn(f.data).Some? && wire.actorIn(f.data).value != "" then wire.actorIn(f.data) else None
  }

  function Hear(handle: string, wire: Wire, m: Mind, f: Frame): Mind
  {
    match Opens(wire, f)
    case Some(id) => m.(actorId := Some(id))
    case None =>
      match Delivers(wire, f)
      case None => m
      case Some(env) =>
        if env.eventId in m.seen then m
        else m.(seen := m.seen + {env.eventId},
                posts := if Selected(handle, m.actorId, env) then m.posts + [PostOf(env)] else m.posts)
  }

  function HearAll(handle: string, wire: Wire, m: Mind, frames: seq<Frame>): Mind
  {
    if |frames| == 0 then m
    else Hear(handle, wire, HearAll(handle, wire, m, frames[..|frames| - 1]), frames[|frames| - 1])
  }

  const Newborn := Mind(None, {}, [])

  /** The frames of all connections, one after the other. */
  function Flat(connections: seq<seq<Frame>>): seq<Frame>
  {
    if |connections| == 0 then [] else Flat(connections[..|connections| - 1]) + connections[|connections| - 1]
  }

  lemma HearSnoc(handle: string, wire: Wire, m: Mind, frames: seq<Frame>, f: Frame)
    ensures HearAll(handle, wire, m, frames + [f]) == Hear(handle, wire, HearAll(handle, wire, m, frames), f)
  {
    assert (frames + [f])[..|frames|] == frames;
  }

  lemma OneMoreFrame(before: seq<Frame>, frames: seq<Frame>, k: nat)
    requires k < |frames|
    ensures before + frames[..k] + [frames[k]] == before + frames[..k + 1]
  {
  }

  class Agent {
    const handle: string
    const wire: Wire
    var actorId: Option<string>
    var seen: set<string>
    var posts: seq<Post>

    constructor (handle: string, wire: Wire)
      ensures this.handle == handle && this.wire == wire && State() == Newborn
    {
      this.handle, this.wire := handle, wire;
      actorId, seen, posts := None, {}, [];
    }

    ghost function State(): Mind
      reads this
    {
      Mind(actorId, seen, posts)
    }

    /** Whether the event is new; a resend is dropped. */
    method MarkSeen(eventId: string) returns (isNew: bool)
      modifies this`seen
      ensures isNew <==> eventId !in old(seen)
      ensures seen == old(seen) + {eventId}
    {
      isNew := eventId !in seen;
      seen := seen + {eventId};
    }

    method Dispatch(f: Frame)
      modifies this
      ensures State() == Hear(handle, wire, old(State()), f)
    {
      if f.event == "open" {
        var id := wire.actorIn(f.data);
        if id.Some? && id.value != "" { actorId := id; }
        return;
      }
      if f.event != "v2.event" { return; }
      var env := wire.envelope(f.data);
      if env.None? { return; }
      var isNew := MarkSeen(env.value.eventId);
      if !isNew { return; }
      if !ShouldRespond(handle, actorId, env.value) { return; }
      var reply := BuildReply(env.value);
      if reply.None? { return; }
      posts := posts + [PostOf(env.value)];
    }

    /** Each connection yields its frames until it ends or fails; the agent's memory outlives it. */
    method ConsumeSSE(connections: seq<seq<Frame>>)
      modifies this
      ensures State() == HearAll(handle, wire, old(State()), Flat(connections))
    {
      ghost var heard: seq<Frame> := [];
      var i := 0;
      while i < |connections|
        invariant i <= |connections| && heard == Flat(connections[..i])
        invariant State() == HearAll(handle, wire, old(State()), heard)
      {
        assert connections[..i + 1][..i] == connections[..i];
        ghost var before := heard;
        var frames := connections[i];
        var k := 0;
        while k < |frames|
          invariant k <= |frames| && heard == before + frames[..k]
          invariant State() == HearAll(handle, wire, old(State()), heard)
        {
          HearSnoc(handle, wire, old(State()), heard, frames[k]);
          OneMoreFrame(before, frames, k);
          Dispatch(frames[k]);
          heard := heard + [frames[k]];
          k := k + 1;
        }
        assert frames[..|frames|] == frames;
        i := i + 1;
      }
      assert connections[..|connections|] == connections;
    }
  }

  // ---- what a run of frames leaves ----

  ghost predicate DeliversId(wire: Wire, f: Frame, id: string)
  {
    Opens(wire, f) == None && Delivers(wire, f).Some? && Delivers(wire, f).value.eventId == id
  }

  /** Frame k is the first one that delivers the event. */
  ghost predicate FirstDelivery(wire: Wire, frames: seq<Frame>, id: string, k: nat)
  {
    k < |frames| && DeliversId(wire, frames[k], id) && forall j :: 0 <= j < k ==> !DeliversId(wire, frames[j], id)
  }

  /** Frame k delivers the event first, and the routing selects it with the actor id known by then. */
  ghost predicate FirstSelected(handle: string, wire: Wire, frames: seq<Frame>, id: string, k: nat)
  {
    && FirstDelivery(wire, frames, id, k)
    && Selected(handle, HearAll(handle, wire, Newborn, frames[..k]).actorId, Delivers(wire, frames[k]).value)
  }

  ghost predicate Posted(m: Mind, id: string)
  {
    exists i :: 0 <= i < |m.posts| && m.posts[i].repliesTo == id
  }

  ghost predicate OncePerEvent(m: Mind)
  {
    && (forall i, j :: 0 <= i < j < |m.posts| ==> m.posts[i].repliesTo != m.posts[j].repliesTo)
    && (forall i :: 0 <= i < |m.posts| ==> m.posts[i].repliesTo in m.seen)
  }

  lemma HearKeepsOnce(handle: string, wire: Wire, m: Mind, f: Frame)
    requires OncePerEvent(m)
    ensures OncePerEvent(Hear(handle, wire, m, f))
  {
    var out := Hear(handle, wire, m, f);
    if out.posts == m.posts {
      assert m.seen <= out.seen;
    } else {
      var env := Delivers(wire, f).value;
      PostRepliesTo(env);
      NewPostKeepsOnce(m, out, PostOf(env), env.eventId);
    }
  }

  lemma NewPostKeepsOnce(m: Mind, out: Mind, post: Post, id: string)
    requires OncePerEvent(m) && post.repliesTo == id && id !in m.seen
    requires out.posts == m.posts + [post] && out.seen == m.seen + {id}
    ensures OncePerEvent(out)
  {
  }

  lemma PostRepliesTo(env: Envelope)
    ensures PostOf(env).repliesTo == env.eventId
  {
  }

  /** The agent posts at most once per event, over any frames, resends and reconnections. */
  lemma {:induction false} AtMostOnePost(handle: string, wire: Wire, frames: seq<Frame>)
    ensures OncePerEvent(HearAll(handle, wire, Newborn, frames))
  {
    if |frames| > 0 {
      AtMostOnePost(handle, wire, frames[..|frames| - 1]);
      HearKeepsOnce(handle, wire, HearAll(handle, wire, Newborn, frames[..|frames| - 1]), frames[|frames| - 1]);
    }
  }

  ghost predicate Delivered(wire: Wire, frames: seq<Frame>, id: string)
  {
    exists k :: 0 <= k < |frames| && DeliversId(wire, frames[k], id)
  }

  /** Seen are exactly the events delivered. */
  lemma {:induction false} SeenIffDelivered(handle: string, wire: Wire, frames: seq<Frame>, id: string)
    ensures id in HearAll(handle, wire, Newborn, frames).seen <==> Delivered(wire, frames, id)
  {
    if |frames| > 0 {
      var front, last := frames[..|frames| - 1], frames[|frames| - 1];
      SeenIffDelivered(handle, wire, front, id);
      if Delivered(wire, front, id) {
        var k :| 0 <= k < |front| && DeliversId(wire, front[k], id);
        assert DeliversId(wire, frames[k], id);
      }
      if DeliversId(wire, last, id) { assert DeliversId(wire, frames[|frames| - 1], id); }
      if k :| 0 <= k < |frames| - 1 && DeliversId(wire, frames[k], id) { assert DeliversId(wire, front[k], id); }
    }
  }

  ghost predicate SomeFirstSelected(handle: string, wire: Wire, frames: seq<Frame>, id: string)
  {
    exists k: nat :: FirstSelected(handle, wire, frames, id, k)
  }

  lemma FirstSelectedGrows(handle: string, wire: Wire, front: seq<Frame>, f: Frame, id: string, k: nat)
    requires k < |front|
    ensures FirstSelected(handle, wire, front, id, k) <==> FirstSelected(handle, wire, front + [f], id, k)
  {
    assert (front + [f])[..k] == front[..k];
  }

  lemma LastFirstSelected(handle: string, wire: Wire, front: seq<Frame>, f: Frame, id: string)
    ensures FirstSelected(handle, wire, front + [f], id, |front|) <==>
      var m := HearAll(handle, wire, Newborn, front);
      DeliversId(wire, f, id) && id !in m.seen && Selected(handle, m.actorId, Delivers(wire, f).value)
  {
    var frames := front + [f];
    assert frames[..|front|] == front;
    SeenIffDelivered(handle, wire, front, id);
    if Delivered(wire, front, id) {
      var j :| 0 <= j < |front| && DeliversId(wire, front[j], id);
      assert DeliversId(wire, frames[j], id);
    }
  }

  lemma HearPosts(handle: string, wire: Wire, m: Mind, f: Frame, id: string)
    ensures Posted(Hear(handle, wire, m, f), id) <==>
      Posted(m, id) || (DeliversId(wire, f, id) && id !in m.seen && Selected(handle, m.actorId, Delivers(wire, f).value))
  {
    var out := Hear(handle, wire, m, f);
    if Posted(m, id) {
      var i :| 0 <= i < |m.posts| && m.posts[i].repliesTo == id;
      assert out.posts[i].repliesTo == id;
    }
    if |out.posts| > |m.posts| { assert out.posts[|m.posts|].repliesTo == Delivers(wire, f).value.eventId; }
  }

  /** An event is replied to exactly when its first delivery is one the routing selects; nothing that is delivered
      later, and no actor id that becomes known later, changes that. */
  lemma {:induction false} PostedIffFirstSelected(handle: string, wire: Wire, frames: seq<Frame>, id: string)
    ensures Posted(HearAll(handle, wire, Newborn, frames), id) <==> SomeFirstSelected(handle, wire, frames, id)
  {
    if |frames| > 0 {
      var front, f := frames[..|frames| - 1], frames[|frames| - 1];
      assert frames == front + [f];
      PostedIffFirstSelected(handle, wire, front, id);
      HearPosts(handle, wire, HearAll(handle, wire, Newborn, front), f, id);
      LastFirstSelected(handle, wire, front, f, id);
      if k: nat :| FirstSelected(handle, wire, front, id, k) {
        FirstSelectedGrows(handle, wire, front, f, id, k);
      }
      if k: nat :| FirstSelected(handle, wire, frames, id, k) {
        if k < |front| { FirstSelectedGrows(handle, wire, front, f, id, k); }
      }
    }
  }
}
