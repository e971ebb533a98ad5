/** The control blocks a worker emits with its output, and the requests the bridge accepts from them
    (_extract_control_updates in nas_bridge/app/session_service.py).  A block is what the block pattern
    has matched, its body stripped; the scopes that the body's lines name come with it. */
module ControlBlocks {
  import opened Text
  import opened Rows
  import opened HandoffBody
  import TaskKeys

  const MAX_HANDOFFS_PER_COMPLETION := 4
  const MAX_DISCUSSIONS_PER_COMPLETION := 4

  datatype HandoffBlock = HandoffBlock(
    agent: string, body: string, semantic: Option<string>, files: set<string>)

  datatype HandoffRequest = HandoffRequest(
    target: string, body: string, taskId: Option<string>, semantic: Option<string>, files: set<string>)

  datatype DiscussKind = OpenTalk | ReplyTalk | ResolveTalk | EscalateTalk | UnsupportedTalk

  datatype DiscussBlock = DiscussBlock(kind: DiscussKind, body: string, asks: seq<string>, to: string)

  datatype DiscussRequest = DiscussRequest(kind: DiscussKind, asks: seq<string>, to: Option<string>)

  datatype Rejection =
    | OverLimit | UnknownAgent | SelfTarget | EmptyBody | InvalidBody | Unsupported | NobodyAsked | MissingTarget

  datatype Verdict<+T> = Accept(request: T) | Reject(reason: Rejection)

  datatype Extracted<+T> = Extracted(accepted: seq<T>, rejected: seq<Rejection>)

  /** The verdict on one handoff block once the limit is not in the way. */
  function JudgeHandoff(agents: seq<Agent>, source: string, b: HandoffBlock): Verdict<HandoffRequest>
  {
    match AgentCalled(agents, b.agent)
    case None => Reject(UnknownAgent)
    case Some(target) =>
      if Lower(target) == Lower(source) then Reject(SelfTarget)
      else if b.body == "" then Reject(EmptyBody)
      else if !ValidBody(b.body) then Reject(InvalidBody)
      else Accept(HandoffRequest(target, b.body, ExtractTaskId(b.body), b.semantic, b.files))
  }

  /** The known agents among names, in order. */
  function ResolveAsks(agents: seq<Agent>, names: seq<string>): seq<string>
  {
    if |names| == 0 then []
    else
      var rest := ResolveAsks(agents, names[..|names| - 1]);
      match AgentCalled(agents, names[|names| - 1])
      case None => rest
      case Some(a) => rest + [a]
  }

  function Without(names: seq<string>, source: string): seq<string>
  {
    if |names| == 0 then []
    else
      var rest := Without(names[..|names| - 1], source);
      if Lower(names[|names| - 1]) == Lower(source) then rest else rest + [names[|names| - 1]]
  }

  /** The verdict on one discuss block once the limit is not in the way. */
  function JudgeDiscuss(agents: seq<Agent>, source: string, b: DiscussBlock): Verdict<DiscussRequest>
  {
    var asks := ResolveAsks(agents, b.asks);
    var to := if b.to == "" then None else AgentCalled(agents, b.to);
    if b.kind == UnsupportedTalk then Reject(Unsupported)
    else if b.body == "" then Reject(EmptyBody)
    else if exists k :: 0 <= k < |b.asks| && AgentCalled(agents, b.asks[k]).None? then Reject(UnknownAgent)
    else if b.to != "" && to.None? then Reject(UnknownAgent)
    else if b.kind == OpenTalk && Without(asks, source) == [] then Reject(NobodyAsked)
    else if b.kind == ReplyTalk && to.None? then Reject(MissingTarget)
    else Accept(DiscussRequest(b.kind, if b.kind == OpenTalk then Without(asks, source) else asks, to))
  }

  /** Judge the blocks in text order: once limit requests are accepted, every later block is refused. */
  function Collect<B, T>(blocks: seq<B>, judge: B -> Verdict<T>, limit: nat): Extracted<T>
  {
    if |blocks| == 0 then Extracted([], [])
    else
      var before := Collect(blocks[..|blocks| - 1], judge, limit);
      if |before.accepted| >= limit then before.(rejected := before.rejected + [OverLimit])
      else match judge(blocks[|blocks| - 1])
        case Accept(r) => before.(accepted := before.accepted + [r])
        case Reject(why) => before.(rejected := before.rejected + [why])
  }

  function ExtractHandoffs(agents: seq<Agent>, source: string, blocks: seq<HandoffBlock>): Extracted<HandoffRequest>
  {
    Collect(blocks, (b: HandoffBlock) => JudgeHandoff(agents, source, b), MAX_HANDOFFS_PER_COMPLETION)
  }

  function ExtractDiscussions(agents: seq<Agent>, source: string, blocks: seq<DiscussBlock>): Extracted<DiscussRequest>
  {
    Collect(blocks, (b: DiscussBlock) => JudgeDiscuss(agents, source, b), MAX_DISCUSSIONS_PER_COMPLETION)
  }

  /** Every request that would be accepted were there no limit, in text order. */
  function Acceptable<B, T>(blocks: seq<B>, judge: B -> Verdict<T>): seq<T>
  {
    if |blocks| == 0 then []
    else match judge(blocks[0])
      case Accept(r) => [r] + Acceptable(blocks[1..], judge)
      case Reject(_) => Acceptable(blocks[1..], judge)
  }

  lemma {:induction false} AcceptableOfPrefix<B, T>(blocks: seq<B>, judge: B -> Verdict<T>)
    requires |blocks| > 0
    ensures Acceptable(blocks, judge)
         == Acceptable(blocks[..|blocks| - 1], judge)
            + match judge(blocks[|blocks| - 1]) case Accept(r) => [r] case Reject(_) => []
  {
    if |blocks| > 1 {
      AcceptableOfPrefix(blocks[1..], judge);
      assert blocks[1..][..|blocks| - 2] == blocks[..|blocks| - 1][1..];
    }
  }

  /** Blocks are conserved: each becomes one request or one rejection, and the accepted requests are
      exactly the first limit acceptable ones, in text order. */
  lemma {:induction false} BlocksConserved<B, T>(blocks: seq<B>, judge: B -> Verdict<T>, limit: nat)
    ensures var out, good := Collect(blocks, judge, limit), Acceptable(blocks, judge);
      && |out.accepted| + |out.rejected| == |blocks|
      && out.accepted == good[..if |good| < limit then |good| else limit]
  {
    if |blocks| > 0 {
      BlocksConserved(blocks[..|blocks| - 1], judge, limit);
      AcceptableOfPrefix(blocks, judge);
    }
  }

  lemma {:induction false} AcceptableComesFromBlock<B, T>(blocks: seq<B>, judge: B -> Verdict<T>, r: T)
    requires r in Acceptable(blocks, judge)
    ensures exists b :: b in blocks && judge(b) == Accept(r)
  {
    if judge(blocks[0]) == Accept(r) {
      assert blocks[0] in blocks;
    } else {
      AcceptableComesFromBlock(blocks[1..], judge, r);
      var b :| b in blocks[1..] && judge(b) == Accept(r);
      assert b in blocks;
    }
  }

  /** What an accepted handoff is: it goes to an agent of the session other than its source, and its body passes
      the checks and gives its task id. */
  ghost predicate SoundRequest(agents: seq<Agent>, source: string, r: HandoffRequest)
  {
    && (exists a :: a in agents && a.name == r.target) && Lower(r.target) != Lower(source)
    && r.body != "" && ValidBody(r.body) && r.taskId == ExtractTaskId(r.body)
  }

  lemma JudgedIsSound(agents: seq<Agent>, source: string, b: HandoffBlock, r: HandoffRequest)
    requires JudgeHandoff(agents, source, b) == Accept(r)
    ensures SoundRequest(agents, source, r) && r.body == b.body && AgentCalled(agents, b.agent) == Some(r.target)
  {
  }

  /** An accepted handoff is sound, and comes from a block naming its target. */
  lemma AcceptedHandoffIsSound(agents: seq<Agent>, source: string, blocks: seq<HandoffBlock>, r: HandoffRequest)
    requires r in ExtractHandoffs(agents, source, blocks).accepted
    ensures SoundRequest(agents, source, r)
    ensures exists b :: b in blocks && r.body == b.body && AgentCalled(agents, b.agent) == Some(r.target)
  {
    var judge := (b: HandoffBlock) => JudgeHandoff(agents, source, b);
    BlocksConserved(blocks, judge, MAX_HANDOFFS_PER_COMPLETION);
    AcceptableComesFromBlock(blocks, judge, r);
    var b :| b in blocks && judge(b) == Accept(r);
    JudgedIsSound(agents, source, b, r);
  }

  /** An accepted handoff always names its task, by a canonical key. */
  lemma AcceptedHandoffNamesTask(agents: seq<Agent>, source: string, blocks: seq<HandoffBlock>, r: HandoffRequest)
    requires r in ExtractHandoffs(agents, source, blocks).accepted
    ensures r.taskId.Some? && TaskKeys.Number(r.taskId.value).Some?
  {
    AcceptedHandoffIsSound(agents, source, blocks, r);
    ValidBodyNamesTask(r.body);
  }

  // ---- which blocks are accepted ----

  /** An agent of the session is called by the name, ignoring case. */
  ghost predicate Called(agents: seq<Agent>, name: string)
  {
    exists a :: a in agents && Lower(a.name) == Lower(name)
  }

  lemma CalledIff(agents: seq<Agent>, name: string)
    ensures AgentCalled(agents, name).Some? <==> Called(agents, name)
  {
  }

  /** But for the limit, a handoff block is accepted exactly when it calls an agent of the session other than its source
      and its body passes the checks. */
  lemma HandoffAcceptedIff(agents: seq<Agent>, source: string, b: HandoffBlock)
    ensures JudgeHandoff(agents, source, b).Accept?
      <==> Called(agents, b.agent) && Lower(b.agent) != Lower(source) && b.body != "" && ValidBody(b.body)
  {
    CalledIff(agents, b.agent);
  }

  lemma {:induction false} ResolvedAre(agents: seq<Agent>, names: seq<string>, n: string)
    ensures n in ResolveAsks(agents, names) <==> exists k :: 0 <= k < |names| && AgentCalled(agents, names[k]) == Some(n)
  {
    if |names| > 0 {
      var front := names[..|names| - 1];
      ResolvedAre(agents, front, n);
      if k :| 0 <= k < |front| && AgentCalled(agents, front[k]) == Some(n) { assert names[k] == front[k]; }
      if k :| 0 <= k < |names| && AgentCalled(agents, names[k]) == Some(n) {
        if k < |front| { assert front[k] == names[k]; }
      }
    }
  }

  lemma {:induction false} OthersAre(names: seq<string>, source: string, n: string)
    ensures n in Without(names, source) <==> n in names && Lower(n) != Lower(source)
  {
    if |names| > 0 {
      OthersAre(names[..|names| - 1], source, n);
      assert names == names[..|names| - 1] + [names[|names| - 1]];
    }
  }

  /** The block asks agent n: n is the session's agent of a name that it lists. */
  ghost predicate AsksFor(agents: seq<Agent>, b: DiscussBlock, n: string)
  {
    exists k :: 0 <= k < |b.asks| && AgentCalled(agents, b.asks[k]) == Some(n)
  }

  /** It asks somebody other than the source. */
  ghost predicate AsksOther(agents: seq<Agent>, source: string, b: DiscussBlock)
  {
    exists n :: AsksFor(agents, b, n) && Lower(n) != Lower(source)
  }

  lemma AsksOtherIff(agents: seq<Agent>, source: string, b: DiscussBlock)
    ensures Without(ResolveAsks(agents, b.asks), source) != [] <==> AsksOther(agents, source, b)
  {
    var others := Without(ResolveAsks(agents, b.asks), source);
    if others != [] {
      assert others[0] in others;
      OthersAre(ResolveAsks(agents, b.asks), source, others[0]);
      ResolvedAre(agents, b.asks, others[0]);
      assert AsksFor(agents, b, others[0]);
    }
    if n :| AsksFor(agents, b, n) && Lower(n) != Lower(source) {
      ResolvedAre(agents, b.asks, n);
      OthersAre(ResolveAsks(agents, b.asks), source, n);
    }
  }

  /** But for the limit, a discuss block is accepted exactly when it is of a supported kind, has a body, names only agents
      of the session, asks another one if it opens a discussion, and says whom it replies to if it replies. */
  lemma DiscussAcceptedIff(agents: seq<Agent>, source: string, b: DiscussBlock)
    ensures JudgeDiscuss(agents, source, b).Accept?
      <==> && b.kind != UnsupportedTalk && b.body != ""
           && (forall k :: 0 <= k < |b.asks| ==> Called(agents, b.asks[k])) && (b.to != "" ==> Called(agents, b.to))
           && (b.kind == OpenTalk ==> AsksOther(agents, source, b)) && (b.kind == ReplyTalk ==> b.to != "")
  {
    AsksOtherIff(agents, source, b);
    CalledIff(agents, b.to);
    forall k | 0 <= k < |b.asks| ensures AgentCalled(agents, b.asks[k]).Some? <==> Called(agents, b.asks[k]) {
      CalledIff(agents, b.asks[k]);
    }
  }

  /** An opening that is accepted asks exactly the other agents that its block lists, and a reply goes to the one it
      names. */
  lemma AcceptedDiscussionAsks(agents: seq<Agent>, source: string, b: DiscussBlock, n: string)
    requires JudgeDiscuss(agents, source, b).Accept?
    ensures var r := JudgeDiscuss(agents, source, b).request;
      && r.kind == b.kind && (r.to == if b.to == "" then None else AgentCalled(agents, b.to))
      && (b.kind == OpenTalk ==> (n in r.asks <==> AsksFor(agents, b, n) && Lower(n) != Lower(source)))
  {
    ResolvedAre(agents, b.asks, n);
    OthersAre(ResolveAsks(agents, b.asks), source, n);
  }

  /** A completion's first four acceptable handoffs and first four acceptable discussions are accepted, no more. */
  lemma FourOfEach(agents: seq<Agent>, source: string, handoffs: seq<HandoffBlock>, talks: seq<DiscussBlock>)
    ensures var good := Acceptable(handoffs, (b: HandoffBlock) => JudgeHandoff(agents, source, b));
      ExtractHandoffs(agents, source, handoffs).accepted == good[..if |good| < 4 then |good| else 4]
    ensures var good := Acceptable(talks, (b: DiscussBlock) => JudgeDiscuss(agents, source, b));
      ExtractDiscussions(agents, source, talks).accepted == good[..if |good| < 4 then |good| else 4]
  {
    BlocksConserved(handoffs, (b: HandoffBlock) => JudgeHandoff(agents, source, b), MAX_HANDOFFS_PER_COMPLETION);
    BlocksConserved(talks, (b: DiscussBlock) => JudgeDiscuss(agents, source, b), MAX_DISCUSSIONS_PER_COMPLETION);
  }
}
