/** A concrete run, step by step, on which a pause strands a task. */
module Witnesses {
  import opened Text
  import opened Rows
  import opened ControlBlocks
  import opened HandoffBody
  import opened Protocol
  import opened Invariants
  import opened Runs
  import opened History
  import opened Guarantees
  import TaskKeys

  const ANN := Agent("ann", "dev", AgentIdle, WantReady, None)
  const BOB := Agent("bob", "dev", AgentIdle, WantReady, None)
  const CURATOR := Agent("curator", "dev", AgentIdle, WantReady, None)

  const START := Session(Requested, WantReady, false, 1, 1, [ANN, BOB, CURATOR], [], [], [], 0)

  const DONE_BY_ANN := Callback(0, "ann", "w1", None, None, None)
  const JOB0 := Job("ann", Message, InProgress, None, None, 1, 0, Some(0), Some("w1"))
  const EVENT := NewJob("curator", CurationEvent, 1)
  const JOB2 := Job("bob", HandoffWork, InProgress, Some(0), Some(0), 1, 1, Some(1), Some("w2"))

  /** The work ann hands to bob: a body that passes the checks, and the task key it names. */
  datatype Work = Work(key: string, body: string)

  ghost predicate Offered(w: Work)
  {
    w.body != "" && ValidBody(w.body) && ExtractTaskId(w.body) == Some(w.key) && TaskKeys.Number(w.key).Some?
  }

  function Sample(id: string, summary: string): Work
  {
    Work(id, SampleBody(id, summary))
  }

  lemma SampleIsOffered(id: string, summary: string)
    requires SampleId(id) && (summary == "" || Solid(summary))
    ensures Offered(Sample(id, summary)) && |Sample(id, summary).body| == |FirstHalf(id)| + 9 + |summary|
  {
    SampleIsValid(id, summary);
  }

  lemma SampleIdsAreFine()
    ensures SampleId("T-001") && SampleId("T-002")
  {
    assert "T-001"[2..] == "001" && "T-002"[2..] == "002";
  }

  function HandoffFor(w: Work): Handoff
  {
    Handoff(0, "ann", "bob", "dev", Queued, 1, 1, w.body, None)
  }

  function BlockFor(w: Work): HandoffBlock
  {
    HandoffBlock("bob", w.body, None, {})
  }

  function OutputFor(w: Work): Output
  {
    Output([BlockFor(w)], [], false)
  }

  function RequestFor(w: Work): HandoffRequest
  {
    HandoffRequest("bob", w.body, Some(w.key), None, {})
  }

  function TaskFor(w: Work): Task
  {
    Task(w.key, "dev", Some("bob"), "ann", TaskReady, 1, 1, None, None, w.body, None, {})
  }

  // ---- looking rows up ----

  lemma Names()
    ensures "ann" != "bob" && "ann" != "curator" && "bob" != "curator"
    ensures Lower("ann") == "ann" && Lower("bob") == "bob" && Lower("curator") == "curator"
  {
    assert "ann"[0] == 'a' && "bob"[0] == 'b' && "curator"[0] == 'c';
  }

  lemma Roles()
    ensures !IsCurator(ANN) && !IsCurator(BOB) && !IsCurator(BOB.(worker := Some("w4"))) && IsCurator(CURATOR)
  {
    Names();
    assert !Contains("dev", "curat") && !Contains("dev", "coordination");
  }

  lemma Found(agents: seq<Agent>, name: string, i: nat)
    requires i < |agents| && agents[i].name == name && forall k :: 0 <= k < i ==> agents[k].name != name
    ensures FindAgent(agents, name) == Some(i)
  {
  }

  lemma FoundActive(jobs: seq<Job>, name: string, j: nat)
    requires j < |jobs| && jobs[j].agent == name && jobs[j].status == InProgress
    requires forall k :: 0 <= k < j ==> jobs[k].agent != name
    ensures ActiveJob(jobs, name) == Some(j)
  {
  }

  lemma FoundPending(jobs: seq<Job>, name: string, j: nat)
    requires j < |jobs| && jobs[j].agent == name && jobs[j].status == Pending
    requires forall k :: 0 <= k < j ==> jobs[k].agent != name
    ensures OldestPending(jobs, name) == Some(j)
  {
  }

  // ---- ann gets a message, claims it and hands a task to bob ----

  const S1 := START.(jobs := [NewJob("ann", Message, 1)])
  const S2 := START.(jobs := [JOB0], nextLease := 1, agents := [ANN.(status := AgentBusy), BOB, CURATOR])
  const DONE := START.(jobs := [JOB0.(status := Completed)], nextLease := 1)

  function Queued3(w: Work): Session
  {
    DONE.(tasks := [TaskFor(w)], handoffs := [HandoffFor(w)])
  }

  function S3(w: Work): Session
  {
    Queued3(w).(jobs := [JOB0.(status := Completed), EVENT])
  }

  lemma Claims2()
    ensures Step(START, Route("ann", Message)).0 == S1
    ensures Step(S1, Claim("ann", "w1", NoReason)).0 == S2
  {
    Found(START.agents, "ann", 0);
    assert ActiveJob(S1.jobs, "ann").None?;
    FoundPending(S1.jobs, "ann", 0);
    assert Running(S1.jobs) == {};
  }

  lemma CallsBob()
    ensures AgentCalled(S2.agents, "bob") == Some("bob") && Lower("bob") != Lower("ann")
  {
    Names();
    assert S2.agents[..2] == [ANN.(status := AgentBusy), BOB];
    assert AgentCalled(S2.agents[..2], "bob") == Some("bob");
  }

  /** A block that calls bob and whose body passes the checks is accepted. */
  lemma JudgesWell(agents: seq<Agent>, source: string, w: Work)
    requires AgentCalled(agents, "bob") == Some("bob") && Lower("bob") != Lower(source) && Offered(w)
    ensures JudgeHandoff(agents, source, BlockFor(w)) == Accept(RequestFor(w))
  {
  }

  lemma Judges3(w: Work)
    requires Offered(w)
    ensures JudgeHandoff(S2.agents, "ann", BlockFor(w)) == Accept(RequestFor(w))
  {
    CallsBob();
    JudgesWell(S2.agents, "ann", w);
  }

  lemma CollectOne(b: HandoffBlock, judge: HandoffBlock -> Verdict<HandoffRequest>, r: HandoffRequest, limit: nat)
    requires judge(b) == Accept(r) && limit > 0
    ensures Collect([b], judge, limit) == Extracted([r], [])
  {
    assert [b][..0] == [];
    assert Collect([], judge, limit) == Extracted([], []);
  }

  lemma Accepts3(w: Work)
    requires Offered(w)
    ensures AcceptedHandoffs(S2, DONE_BY_ANN, OutputFor(w)) == Extracted([RequestFor(w)], [])
  {
    var judge := (b: HandoffBlock) => JudgeHandoff(S2.agents, "ann", b);
    Judges3(w);
    CollectOne(BlockFor(w), judge, RequestFor(w), MAX_HANDOFFS_PER_COMPLETION);
  }

  lemma Hands3(w: Work)
    requires TaskKeys.Number(w.key).Some?
    ensures FindAgent(DONE.agents, "bob") == Some(1)
    ensures QueueHandoff(DONE, "ann", RequestFor(w)) == (Queued3(w), true)
  {
    Names();
    Found(DONE.agents, "bob", 1);
    var mid := DONE.(tasks := [TaskFor(w)]);
    assert FindTask(DONE.tasks, KeyFor(DONE.tasks, RequestFor(w))).None?;
    assert DONE.tasks + [TaskFor(w)] == mid.tasks;
    assert Enqueue(mid, 0, "ann", "dev", RequestFor(w)).handoffs == [HandoffFor(w)];
  }

  lemma Wakes3(w: Work)
    ensures QueueCuratorEvent(Queued3(w), "ann") == S3(w)
  {
    Names();
    var agents := Queued3(w).agents;
    assert agents[0] == ANN && agents[1] == BOB && agents[2] == CURATOR;
    assert FindCurator(agents) == Some(2);
    assert !HasOpenJob(Queued3(w).jobs, "curator", {CurationEvent, CurationSweep});
  }

  lemma Queues3(w: Work)
    requires TaskKeys.Number(w.key).Some?
    ensures KnownTargets(DONE.agents, [RequestFor(w)])
    ensures QueueHandoffs(DONE, "ann", [RequestFor(w)]) == S3(w)
  {
    var r := RequestFor(w);
    Hands3(w);
    assert [r][..0] == [];
    assert QueueEach(DONE, "ann", []) == (DONE, false);
    assert QueueEach(DONE, "ann", [r]) == (Queued3(w), true);
    Wakes3(w);
  }

  lemma Marks3(w: Work)
    ensures Admit(S2, DONE_BY_ANN) == Applied && MarkCompleted(S2, DONE_BY_ANN, OutputFor(w)) == DONE
  {
    Found(S2.agents, "ann", 0);
    assert S2.agents[0 := S2.agents[0].(status := AgentIdle)] == DONE.agents;
  }

  /** A completion without discussions, rejections and task ends where its handoffs leave it. */
  lemma CompletesTo(s: Session, c: Callback, out: Output, rs: seq<HandoffRequest>, done: Session, end: Session)
    requires Admit(s, c) == Applied && MarkCompleted(s, c, out) == done && s.jobs[c.job].task.None?
    requires AcceptedHandoffs(s, c, out) == Extracted(rs, []) && out.discussions == []
    requires KnownTargets(done.agents, rs) && QueueHandoffs(done, c.agent, rs) == end
    ensures CompleteJob(s, c, out).0 == end
  {
    assert ExtractDiscussions(s.agents, c.agent, []) == Extracted([], []);
  }

  lemma Completes3(w: Work)
    requires TaskKeys.Number(w.key).Some?
    requires AcceptedHandoffs(S2, DONE_BY_ANN, OutputFor(w)) == Extracted([RequestFor(w)], [])
    ensures Step(S2, Complete(DONE_BY_ANN, OutputFor(w))).0 == S3(w)
  {
    Marks3(w);
    Queues3(w);
    CompletesTo(S2, DONE_BY_ANN, OutputFor(w), [RequestFor(w)], DONE, S3(w));
  }

  // ---- bob and the curator claim, bob's worker is replaced ----

  function S4(w: Work): Session
  {
    S3(w).(
      jobs := [JOB0.(status := Completed), EVENT, JOB2], nextLease := 2,
      agents := [ANN, BOB.(status := AgentBusy), CURATOR],
      tasks := [TaskFor(w).(state := TaskInProgress, lease := Some(1), worker := Some("w2"))],
      handoffs := [HandoffFor(w).(state := Claimed, claimedBy := Some(2))])
  }

  lemma Claims4(w: Work)
    ensures Step(S3(w), Claim("bob", "w2", NoReason)).0 == S4(w)
  {
    var s := S3(w);
    Names();
    Found(s.agents, "bob", 1);
    assert ActiveJob(s.jobs, "bob").None?;
    assert OldestPending(s.jobs, "bob").None?;
    assert Running(s.jobs) == {};
    assert Admissible(s, BOB, HandoffFor(w));
    assert ReadyHandoff(s, BOB) == Some(0);
  }

  function S5(w: Work): Session
  {
    S4(w).(
      jobs := [JOB0.(status := Completed), EVENT.(status := InProgress, lease := Some(2), worker := Some("w3")), JOB2],
      nextLease := 3,
      agents := [ANN, BOB.(status := AgentBusy), CURATOR.(status := AgentBusy)])
  }

  lemma Claims5(w: Work)
    ensures Step(S4(w), Claim("curator", "w3", NoReason)).0 == S5(w)
  {
    var s := S4(w);
    Roles();
    Names();
    Found(s.agents, "curator", 2);
    assert ActiveJob(s.jobs, "curator").None?;
    FoundPending(s.jobs, "curator", 1);
  }

  function S6(w: Work): Session
  {
    S5(w).(status := Launching, agents := [ANN, BOB.(worker := Some("w4")), CURATOR.(status := AgentBusy)])
  }

  lemma Registers6(w: Work)
    ensures Step(S5(w), Register("bob", "w4", {})).0 == S6(w)
  {
    var s := S5(w);
    Names();
    Found(s.agents, "bob", 1);
    var agents := s.agents[1 := BOB.(worker := Some("w4"))];
    assert agents == S6(w).agents;
    assert !Attached(agents[0], {"bob"}) && Attached(agents[1], {"bob"});
  }

  function S7(w: Work): Session
  {
    S6(w).(
      jobs := [S5(w).jobs[0], S5(w).jobs[1], JOB2.(status := Pending, worker := None)])
  }

  lemma Recovers7(w: Work)
    ensures Step(S6(w), Claim("bob", "w4", NoReason)).0 == S7(w)
  {
    var s := S6(w);
    Roles();
    Names();
    Found(s.agents, "bob", 1);
    FoundActive(s.jobs, "bob", 2);
    assert Recover(s, 2).jobs == S7(w).jobs;
    assert Running(S7(w).jobs) == {1};
    assert s.agents[1 := s.agents[1].(status := AgentIdle)] == s.agents;
  }

  // ---- the run ----

  lemma RunFirst(s: Session, op: Op, more: seq<Op>)
    ensures Run(s, [op] + more) == Run(Step(s, op).0, more)
  {
    RunSplit(s, [op], more);
    assert [op][..0] == [];
    assert Run(s, []) == s;
  }

  function LastOps(w: Work): seq<Op>
  {
    [Claim("bob", "w2", NoReason)] + ([Claim("curator", "w3", NoReason)]
      + ([Register("bob", "w4", {})] + ([Claim("bob", "w4", NoReason)] + [])))
  }

  function FirstOps(w: Work): seq<Op>
  {
    [Route("ann", Message)] + ([Claim("ann", "w1", NoReason)] + ([Complete(DONE_BY_ANN, OutputFor(w))] + LastOps(w)))
  }

  lemma LastRun(w: Work)
    ensures Run(S3(w), LastOps(w)) == S7(w)
  {
    Claims4(w);
    Claims5(w);
    Registers6(w);
    Recovers7(w);
    RunFirst(S6(w), Claim("bob", "w4", NoReason), []);
    RunFirst(S5(w), Register("bob", "w4", {}), [Claim("bob", "w4", NoReason)] + []);
    RunFirst(S4(w), Claim("curator", "w3", NoReason), [Register("bob", "w4", {})] + ([Claim("bob", "w4", NoReason)] + []));
    RunFirst(S3(w), Claim("bob", "w2", NoReason), LastOps(w)[1..]);
    assert LastOps(w)[1..] == [Claim("curator", "w3", NoReason)]
      + ([Register("bob", "w4", {})] + ([Claim("bob", "w4", NoReason)] + []));
  }

  lemma WholeRun(w: Work)
    requires Offered(w)
    ensures Run(START, FirstOps(w)) == S7(w)
  {
    Claims2();
    Accepts3(w);
    Completes3(w);
    LastRun(w);
    var third := [Complete(DONE_BY_ANN, OutputFor(w))] + LastOps(w);
    RunFirst(S2, Complete(DONE_BY_ANN, OutputFor(w)), LastOps(w));
    RunFirst(S1, Claim("ann", "w1", NoReason), third);
    RunFirst(START, Route("ann", Message), [Claim("ann", "w1", NoReason)] + third);
  }

  lemma StrandedAt(w: Work)
    requires Offered(w)
    requires Run(START, FirstOps(w)) == S7(w)
    ensures Created(START) && !S7(w).closed && Linked(S7(w)) && !Linked(PauseSession(S7(w)))
  {
    StartIsCreated();
    NoPauseFirst(w);
    RunKeepsInv(START, FirstOps(w));
    WaitsAt7(w);
    WaitingServerIsLost(S7(w), 2);
  }

  lemma NoPauseFirst(w: Work)
    ensures Pause !in FirstOps(w)
  {
  }

  lemma StartIsCreated()
    ensures Created(START)
  {
    Names();
  }

  lemma WaitsAt7(w: Work)
    ensures WaitingServer(S7(w), 2) && !S7(w).closed
  {
  }

  /** A reachable open session on which a pause leaves a task in progress that no unfinished job holds:
      a job recovered while the cap is full waits as pending, and the pause cancels it. */
  lemma PauseStrandsTask()
    ensures exists start, ops ::
      && Created(start) && !Run(start, ops).closed
      && Linked(Run(start, ops)) && !Linked(PauseSession(Run(start, ops)))
  {
    var w := Sample("T-001", "");
    SampleIdsAreFine();
    SampleIsOffered("T-001", "");
    WholeRun(w);
    StrandedAt(w);
    var ops := FirstOps(w);
    assert Run(START, ops) == S7(w);
  }
}
