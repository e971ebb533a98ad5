/** Which events the agent answers, and with what. */
module Replies {
  import opened Text
  import opened Sse
  import opened AgentLoop
  import ReplyPrefix

  // ---- the actor id ----

  /** The last frame that announces an actor id is number k. */
  ghost predicate LastAnnounces(frames: seq<Frame>, wire: Wire, k: nat, id: string)
  {
    && k < |frames| && Announces(wire, frames[k], id)
    && forall j :: k < j < |frames| ==> !AnnouncesAny(wire, frames[j])
  }

  ghost predicate Announces(wire: Wire, f: Frame, id: string)
  {
    f.event == "open" && wire.actorIn(f.data) == Some(id) && id != ""
  }

  ghost predicate AnnouncesAny(wire: Wire, f: Frame)
  {
    exists id :: Announces(wire, f, id)
  }

  lemma NoneAnnounced(wire: Wire, f: Frame)
    requires Opens(wire, f).None?
    ensures !AnnouncesAny(wire, f)
  {
  }

  /** The actor id is the last one that an open frame announced, or unknown if none did. */
  lemma {:induction false} ActorIsLastAnnounced(handle: string, wire: Wire, frames: seq<Frame>)
    ensures match HearAll(handle, wire, Newborn, frames).actorId
      case None => forall k :: 0 <= k < |frames| ==> !AnnouncesAny(wire, frames[k])
      case Some(id) => exists k: nat :: LastAnnounces(frames, wire, k, id)
  {
    if |frames| > 0 {
      var front, f := frames[..|frames| - 1], frames[|frames| - 1];
      ActorIsLastAnnounced(handle, wire, front);
      assert HearAll(handle, wire, Newborn, frames) == Hear(handle, wire, HearAll(handle, wire, Newborn, front), f);
      if Opens(wire, f).Some? {
        assert frames[|front|] == f && Announces(wire, f, Opens(wire, f).value);
        assert LastAnnounces(frames, wire, |front|, Opens(wire, f).value);
      } else {
        NoneAnnounced(wire, f);
        var before := HearAll(handle, wire, Newborn, front).actorId;
        if before.Some? {
          var k: nat :| LastAnnounces(front, wire, k, before.value);
          assert LastAnnounces(frames, wire, k, before.value);
        }
      }
    }
  }

  // ---- what is answered ----

  /** The event is a question by somebody else, and the agent is meant: by its handle where the event says who shall
      respond, and otherwise by its actor id, which it must know. */
  ghost predicate Asks(handle: string, actorId: Option<string>, env: Envelope)
  {
    && env.kind == "chat.speech.question" && actorId != Some(env.actorId)
    && (env.expected.Some? ==> handle in env.expected.value)
    && (env.expected.None? ==> actorId.Some? && actorId.value in env.addressed)
  }

  lemma QuestionsAreSpeech()
    ensures "chat.speech." <= "chat.speech.question"
  {
    assert "chat.speech.question"[..12] == "chat.speech.";
  }

  lemma SelectedIff(handle: string, actorId: Option<string>, env: Envelope)
    ensures Selected(handle, actorId, env) <==> Asks(handle, actorId, env)
  {
    QuestionsAreSpeech();
  }

  ghost predicate AskedAt(handle: string, wire: Wire, frames: seq<Frame>, id: string, k: nat)
  {
    && FirstDelivery(wire, frames, id, k)
    && Asks(handle, HearAll(handle, wire, Newborn, frames[..k]).actorId, Delivers(wire, frames[k]).value)
  }

  /** The agent answers an event exactly when its first delivery asks it something. */
  lemma AnsweredIffAsked(handle: string, wire: Wire, frames: seq<Frame>, id: string)
    ensures Posted(HearAll(handle, wire, Newborn, frames), id) <==> exists k: nat :: AskedAt(handle, wire, frames, id, k)
  {
    PostedIffFirstSelected(handle, wire, frames, id);
    forall k: nat ensures FirstSelected(handle, wire, frames, id, k) <==> AskedAt(handle, wire, frames, id, k) {
      if FirstDelivery(wire, frames, id, k) {
        SelectedIff(handle, HearAll(handle, wire, Newborn, frames[..k]).actorId, Delivers(wire, frames[k]).value);
      }
    }
  }

  // ---- what it answers ----

  const Acknowledged := "Acknowledged via ts-agent-loop: "

  /** A text that does not begin with a bracket is its own body. */
  lemma PlainIsWhole(text: string)
    requires text != "" && !JsSpace(text[0]) && text[0] != '['
    ensures ReplyPrefix.ParseReplyPrefix(ReplyPrefix.SpeechKinds, text)
      == ReplyPrefix.Parsed(None, None, Trim(text, JsSpace))
  {
  }

  /** The reply to a question goes to its operation, names the event and is an answer that repeats its first 200
      characters. */
  lemma ReplyIsAnswer(env: Envelope)
    requires env.kind == "chat.speech.question"
    ensures PostOf(env) == Post(env.operationId, env.eventId, "speech.answer",
      Trim(Acknowledged + (if |env.text| <= 200 then env.text else env.text[..200]), JsSpace))
  {
    var text := Acknowledged + if |env.text| <= 200 then env.text else env.text[..200];
    assert text[0] == 'A';
    PlainIsWhole(text);
  }
}
