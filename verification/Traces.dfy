/** Reachable sessions in which repeated, late and stale messages do more than they should. */
module Traces {
  import opened Text
  import opened Rows
  import opened ControlBlocks
  import opened HandoffBody
  import opened Protocol
  import opened Runs
  import opened Guarantees
  import opened Reemission
  import opened Starvation
  import opened Overlaps
  import opened Witnesses
  import TaskKeys

  // ---- another agent of the role takes the handoff ----

  const JOB_OF_ANN := JOB2.(agent := "ann", worker := Some("w1"))

  function TakenByAnn(w: Work): Session
  {
    S3(w).(
      jobs := [JOB0.(status := Completed), EVENT, JOB_OF_ANN], nextLease := 2,
      agents := [ANN.(status := AgentBusy), BOB, CURATOR],
      tasks := [TaskFor(w).(state := TaskInProgress, lease := Some(1), worker := Some("w1"), assignee := Some("ann"))],
      handoffs := [HandoffFor(w).(state := Claimed, claimedBy := Some(2))])
  }

  lemma AnnTakes(w: Work)
    ensures Step(S3(w), Claim("ann", "w1", NoReason)).0 == TakenByAnn(w)
  {
    var s := S3(w);
    Names();
    Found(s.agents, "ann", 0);
    assert ActiveJob(s.jobs, "ann").None?;
    assert OldestPending(s.jobs, "ann").None?;
    assert Running(s.jobs) == {};
    assert Admissible(s, ANN, HandoffFor(w));
    assert ReadyHandoff(s, ANN) == Some(0);
  }

  function FirstThree(w: Work): seq<Op>
  {
    [Route("ann", Message)] + ([Claim("ann", "w1", NoReason)] + ([Complete(DONE_BY_ANN, OutputFor(w))] + []))
  }

  lemma RunToThree(w: Work)
    requires Offered(w)
    ensures Run(START, FirstThree(w)) == S3(w)
  {
    Claims2();
    Accepts3(w);
    Completes3(w);
    RunFirst(S2, Complete(DONE_BY_ANN, OutputFor(w)), []);
    RunFirst(S1, Claim("ann", "w1", NoReason), [Complete(DONE_BY_ANN, OutputFor(w))] + []);
    RunFirst(START, Route("ann", Message), [Claim("ann", "w1", NoReason)] + ([Complete(DONE_BY_ANN, OutputFor(w))] + []));
    assert Run(S3(w), []) == S3(w);
  }

  lemma TakenRepeats(w: Work)
    ensures var s := TakenByAnn(w);
      && Repeats(s, 0, RequestFor(w)) && FindAgent(s.agents, "bob").Some? && s.handoffs[0].state == Claimed
      && !StillMeant(s.tasks[0], "bob")
  {
    Names();
    Found(TakenByAnn(w).agents, "bob", 1);
  }

  lemma RunToTaken(w: Work)
    requires Offered(w)
    ensures Run(START, FirstThree(w) + [Claim("ann", "w1", NoReason)]) == TakenByAnn(w)
  {
    RunToThree(w);
    AnnTakes(w);
    RunSnoc(START, FirstThree(w), Claim("ann", "w1", NoReason));
  }

  lemma ReachedRepeat(ops: seq<Op>, s: Session, h: nat, r: HandoffRequest)
    requires Run(START, ops) == s && Repeats(s, h, r) && FindAgent(s.agents, r.target).Some?
    requires !StillMeant(s.tasks[s.handoffs[h].task], r.target)
    ensures Created(START) && HandsOver(s, h, QueueHandoff(s, "curator", r))
  {
    StartIsCreated();
    LiveReemissionIff(START, ops, h, "curator", r);
  }

  /** A live handoff of s that is emitted again and hands its task over afresh. */
  ghost predicate HandedOverAfresh(s: Session, h: nat, r: HandoffRequest)
  {
    && Repeats(s, h, r) && FindAgent(s.agents, r.target).Some? && HandsOver(s, h, QueueHandoff(s, "curator", r))
  }

  lemma TakenIsHandedOver(w: Work)
    requires Offered(w)
    ensures Created(START) && HandedOverAfresh(TakenByAnn(w), 0, RequestFor(w))
  {
    RunToTaken(w);
    TakenRepeats(w);
    ReachedRepeat(FirstThree(w) + [Claim("ann", "w1", NoReason)], TakenByAnn(w), 0, RequestFor(w));
  }

  /** A run from a created session to s. */
  ghost predicate Reached(s: Session)
  {
    exists start, ops :: Created(start) && Pause !in ops && Run(start, ops) == s
  }

  lemma RunReaches(ops: seq<Op>, s: Session)
    requires Run(START, ops) == s && Pause !in ops
    ensures Reached(s)
  {
    StartIsCreated();
  }

  lemma NoPauseTaken(w: Work)
    ensures Pause !in FirstThree(w) + [Claim("ann", "w1", NoReason)]
  {
    assert FirstThree(w) + [Claim("ann", "w1", NoReason)]
      == [Route("ann", Message), Claim("ann", "w1", NoReason), Complete(DONE_BY_ANN, OutputFor(w)), Claim("ann", "w1", NoReason)];
  }

  lemma TakenIsReached(w: Work)
    requires Offered(w)
    ensures Reached(TakenByAnn(w))
  {
    RunToTaken(w);
    NoPauseTaken(w);
    RunReaches(FirstThree(w) + [Claim("ann", "w1", NoReason)], TakenByAnn(w));
  }

  /** A reachable session in which a claimed handoff is emitted again and its running task is handed over afresh:
      another agent of the target's role had taken it. */
  lemma TakenHandoffIsHandedOver()
    ensures exists s, h: nat, r :: Reached(s) && HandedOverAfresh(s, h, r) && s.handoffs[h].state == Claimed
  {
    var w := Sample("T-001", "");
    SampleIdsAreFine();
    SampleIsOffered("T-001", "");
    TakenIsReached(w);
    TakenIsHandedOver(w);
    assert TakenByAnn(w).handoffs[0].state == Claimed;
  }

  // ---- the worker that was replaced reports ----

  const FROM_OLD_WORKER := Callback(2, "bob", "w2", Some(1), Some(1), Some(1))
  const FROM_ANYBODY := Callback(2, "bob", "anybody", None, None, None)

  lemma BothAdmitted(w: Work)
    ensures var s := S7(w);
      && s.jobs[2].status == Pending && s.agents[1].worker == Some("w4") && s.agents[1].name == s.jobs[2].agent
      && Admit(s, FROM_OLD_WORKER) == Applied && Admit(s, FROM_ANYBODY) == Applied
  {
    Names();
    Found(S7(w).agents, "bob", 1);
  }

  /** A reachable session in which a job recovered from a lost worker waits, its agent already has another worker, and
      a callback of the lost worker, or of any other, still finishes it. */
  lemma RecoveredJobTakesAnyWorker()
    ensures exists s, late: Callback, other: Callback ::
      && Reached(s) && late.job == other.job < |s.jobs| && late.worker != other.worker
      && s.jobs[late.job].status == Pending && Admit(s, late) == Applied && Admit(s, other) == Applied
  {
    var w := Sample("T-001", "");
    SampleIdsAreFine();
    SampleIsOffered("T-001", "");
    WholeRun(w);
    NoPauseFirst(w);
    RunReaches(FirstOps(w), S7(w));
    BothAdmitted(w);
    DifferentWorkers();
    assert Reached(S7(w)) && FROM_OLD_WORKER.job == FROM_ANYBODY.job;
  }

  lemma DifferentWorkers()
    ensures FROM_OLD_WORKER.worker != FROM_ANYBODY.worker
  {
    assert "w2"[0] == 'w' && "anybody"[0] == 'a';
  }

  // ---- a running task is handed over again ----

  /** What ann hands to bob at first, what the curator hands to him instead while he works on it, and another task that
      the curator hands to him behind that. */
  datatype Plan = Plan(first: Work, again: Work, other: Work)

  ghost predicate Planned(p: Plan)
  {
    && Offered(p.first) && Offered(p.again) && Offered(p.other)
    && p.again.key == p.first.key != p.other.key && p.again.body != p.first.body
  }

  ghost predicate KeysFit(p: Plan)
  {
    && TaskKeys.Number(p.again.key).Some? && TaskKeys.Number(p.other.key).Some?
    && p.again.key == p.first.key != p.other.key
  }

  const BY_CURATOR := Callback(1, "curator", "w3", None, None, None)
  const NOTHING := Output([], [], false)

  function OutputForBoth(p: Plan): Output
  {
    Output([BlockFor(p.again), BlockFor(p.other)], [], false)
  }

  function RequestsFor(p: Plan): seq<HandoffRequest>
  {
    [RequestFor(p.again)] + [RequestFor(p.other)]
  }

  function Marked6(p: Plan): Session
  {
    S5(p.first).(
      jobs := [JOB0.(status := Completed), EVENT.(status := Completed, lease := Some(2), worker := Some("w3")), JOB2],
      agents := [ANN, BOB.(status := AgentBusy), CURATOR])
  }

  /** The first task handed over again. */
  function Rehanded6(p: Plan): Session
  {
    Marked6(p).(
      tasks := [TaskFor(p.first).(source := "curator", revision := 2, body := p.again.body)],
      handoffs := [HandoffFor(p.first).(state := Superseded, claimedBy := Some(2)),
                   Handoff(0, "curator", "bob", "dev", Queued, 2, 1, p.again.body, None)])
  }

  /** And the other one behind it. */
  function Handed6(p: Plan): Session
  {
    Rehanded6(p).(
      tasks := Rehanded6(p).tasks + [TaskFor(p.other).(source := "curator")],
      handoffs := Rehanded6(p).handoffs + [Handoff(1, "curator", "bob", "dev", Queued, 1, 1, p.other.body, None)])
  }

  lemma Marks6(p: Plan)
    ensures Admit(S5(p.first), BY_CURATOR) == Applied
    ensures MarkCompleted(S5(p.first), BY_CURATOR, OutputForBoth(p)) == Marked6(p)
  {
    Names();
    var s := S5(p.first);
    Found(s.agents, "curator", 2);
    assert s.agents[2 := s.agents[2].(status := AgentIdle)] == Marked6(p).agents;
  }

  lemma CallsBob6(w: Work)
    ensures AgentCalled(S5(w).agents, "bob") == Some("bob") && Lower("bob") != Lower("curator")
  {
    Names();
    var agents := S5(w).agents;
    assert agents[..2] == [ANN, BOB.(status := AgentBusy)];
    assert AgentCalled(agents[..2], "bob") == Some("bob");
  }

  lemma Judges6(p: Plan, v: Work)
    requires Offered(v)
    ensures JudgeHandoff(S5(p.first).agents, "curator", BlockFor(v)) == Accept(RequestFor(v))
  {
    CallsBob6(p.first);
    JudgesWell(S5(p.first).agents, "curator", v);
  }

  lemma CollectTwo(
    a: HandoffBlock, b: HandoffBlock, judge: HandoffBlock -> Verdict<HandoffRequest>, q: HandoffRequest, r: HandoffRequest,
    limit: nat)
    requires judge(a) == Accept(q) && judge(b) == Accept(r) && limit > 1
    ensures Collect([a, b], judge, limit) == Extracted([q] + [r], [])
  {
    CollectOne(a, judge, q, limit);
    assert [a, b][..1] == [a];
  }

  lemma ExtractTwo(agents: seq<Agent>, source: string, a: HandoffBlock, b: HandoffBlock, q: HandoffRequest, r: HandoffRequest)
    requires JudgeHandoff(agents, source, a) == Accept(q) && JudgeHandoff(agents, source, b) == Accept(r)
    ensures ExtractHandoffs(agents, source, [a, b]) == Extracted([q] + [r], [])
  {
    CollectTwo(a, b, (x: HandoffBlock) => JudgeHandoff(agents, source, x), q, r, MAX_HANDOFFS_PER_COMPLETION);
  }

  lemma Accepts6(p: Plan)
    requires Planned(p)
    ensures AcceptedHandoffs(S5(p.first), BY_CURATOR, OutputForBoth(p)) == Extracted(RequestsFor(p), [])
  {
    Judges6(p, p.again);
    Judges6(p, p.other);
    ExtractTwo(S5(p.first).agents, "curator", BlockFor(p.again), BlockFor(p.other), RequestFor(p.again), RequestFor(p.other));
  }

  lemma FilesAgain6(p: Plan)
    ensures var s, r := Marked6(p), RequestFor(p.again);
      Enqueue(s.(tasks := s.tasks[0 := Rehanded(s, s.tasks[0], "curator", "dev", r)]), 0, "curator", "dev", r) == Rehanded6(p)
  {
    var s, r := Marked6(p), RequestFor(p.again);
    var mid := s.(tasks := s.tasks[0 := Rehanded(s, s.tasks[0], "curator", "dev", r)]);
    assert mid.tasks == Rehanded6(p).tasks;
    assert Enqueue(mid, 0, "curator", "dev", r).handoffs == Rehanded6(p).handoffs;
  }

  lemma FindsBob(p: Plan)
    ensures FindAgent(Marked6(p).agents, "bob") == Some(1)
  {
    Names();
    Found(Marked6(p).agents, "bob", 1);
  }

  lemma NamedKey(tasks: seq<Task>, r: HandoffRequest)
    requires r.taskId.Some? && TaskKeys.Number(r.taskId.value).Some?
    ensures KeyFor(tasks, r) == r.taskId.value
  {
  }

  lemma NewBody(s: Session, t: nat, r: HandoffRequest)
    requires t < |s.tasks| && s.tasks[t].body != r.body
    ensures !Duplicate(s, t, r)
  {
  }

  lemma FindsAgain6(p: Plan)
    requires KeysFit(p) && p.again.body != p.first.body
    ensures var s, r := Marked6(p), RequestFor(p.again);
      FindTask(s.tasks, KeyFor(s.tasks, r)) == Some(0) && !Duplicate(s, 0, r)
  {
    var s, r := Marked6(p), RequestFor(p.again);
    NamedKey(s.tasks, r);
    FoundTask(s.tasks, 0, p.first.key);
    NewBody(s, 0, r);
  }

  lemma HandsAgain6(p: Plan)
    requires KeysFit(p) && p.again.body != p.first.body
    ensures FindAgent(Marked6(p).agents, "bob").Some?
    ensures QueueHandoff(Marked6(p), "curator", RequestFor(p.again)) == (Rehanded6(p), true)
  {
    FindsBob(p);
    FindsAgain6(p);
    RehandIsEnqueue(Marked6(p), "curator", RequestFor(p.again), 0, "dev");
    FilesAgain6(p);
  }

  lemma FilesOther6(p: Plan)
    ensures var s, r := Rehanded6(p), RequestFor(p.other);
      Enqueue(s.(tasks := s.tasks + [TaskFor(p.other).(source := "curator")]), 1, "curator", "dev", r) == Handed6(p)
  {
    var s, r := Rehanded6(p), RequestFor(p.other);
    var mid := s.(tasks := s.tasks + [TaskFor(p.other).(source := "curator")]);
    assert mid.tasks[1].revision == 1;
    assert Enqueue(mid, 1, "curator", "dev", r).handoffs == Handed6(p).handoffs;
  }

  lemma FindsOther6(p: Plan)
    requires KeysFit(p)
    ensures var s, r := Rehanded6(p), RequestFor(p.other);
      KeyFor(s.tasks, r) == p.other.key && FindTask(s.tasks, p.other.key).None?
  {
    NamedKey(Rehanded6(p).tasks, RequestFor(p.other));
    OneOtherTask(Rehanded6(p).tasks, p.other.key);
  }

  lemma OneOtherTask(tasks: seq<Task>, key: string)
    requires |tasks| == 1 && tasks[0].key != key
    ensures FindTask(tasks, key).None?
  {
  }

  /** A request with an unknown key opens a task. */
  lemma OpensTask(s: Session, source: string, role: string, r: HandoffRequest, task: Task)
    requires FindAgent(s.agents, r.target).Some? && role == s.agents[FindAgent(s.agents, r.target).value].role
    requires FindTask(s.tasks, KeyFor(s.tasks, r)).None?
    requires task == Task(KeyFor(s.tasks, r), role, Some(r.target), source, TaskReady, 1, s.epoch, None, None, r.body, r.semantic, r.files)
    ensures QueueHandoff(s, source, r) == (Enqueue(s.(tasks := s.tasks + [task]), |s.tasks|, source, role, r), true)
  {
  }

  lemma HandsOther6(p: Plan)
    requires KeysFit(p)
    ensures FindAgent(Rehanded6(p).agents, "bob").Some?
    ensures QueueHandoff(Rehanded6(p), "curator", RequestFor(p.other)) == (Handed6(p), true)
  {
    FindsBob(p);
    FindsOther6(p);
    OpensTask(Rehanded6(p), "curator", "dev", RequestFor(p.other), TaskFor(p.other).(source := "curator"));
    FilesOther6(p);
  }

  lemma KnownNext(agents: seq<Agent>, front: seq<HandoffRequest>, r: HandoffRequest)
    requires KnownTargets(agents, front) && FindAgent(agents, r.target).Some?
    ensures KnownTargets(agents, front + [r])
  {
    var rs := front + [r];
    forall k | 0 <= k < |rs| ensures FindAgent(agents, rs[k].target).Some? {
      if k < |front| { assert rs[k] == front[k]; } else { assert rs[k] == r; }
    }
  }

  lemma QueueNext(s: Session, source: string, front: seq<HandoffRequest>, r: HandoffRequest, before: (Session, bool), end: Session)
    requires KnownTargets(s.agents, front) && QueueEach(s, source, front) == before
    requires FindAgent(s.agents, r.target).Some? && before.0.agents == s.agents && QueueHandoff(before.0, source, r) == (end, true)
    ensures KnownTargets(s.agents, front + [r]) && QueueEach(s, source, front + [r]) == (end, true)
  {
    KnownNext(s.agents, front, r);
    assert (front + [r])[..|front|] == front;
  }

  lemma QueuesAgain6(p: Plan)
    requires KeysFit(p) && p.again.body != p.first.body
    ensures KnownTargets(Marked6(p).agents, [RequestFor(p.again)])
    ensures QueueEach(Marked6(p), "curator", [RequestFor(p.again)]) == (Rehanded6(p), true)
  {
    HandsAgain6(p);
    FindsBob(p);
    QueueNext(Marked6(p), "curator", [], RequestFor(p.again), (Marked6(p), false), Rehanded6(p));
    assert [] + [RequestFor(p.again)] == [RequestFor(p.again)];
  }

  lemma QueuesAll(s: Session, source: string, rs: seq<HandoffRequest>, end: Session)
    requires KnownTargets(s.agents, rs) && QueueEach(s, source, rs) == (end, true)
    ensures QueueHandoffs(s, source, rs) == QueueCuratorEvent(end, source)
  {
  }

  lemma Queues6(p: Plan)
    requires KeysFit(p) && p.again.body != p.first.body
    ensures KnownTargets(Marked6(p).agents, RequestsFor(p))
    ensures QueueHandoffs(Marked6(p), "curator", RequestsFor(p)) == Handed6(p)
  {
    QueuesAgain6(p);
    HandsOther6(p);
    FindsBob(p);
    QueueNext(Marked6(p), "curator", [RequestFor(p.again)], RequestFor(p.other), (Rehanded6(p), true), Handed6(p));
    QueuesAll(Marked6(p), "curator", [RequestFor(p.again)] + [RequestFor(p.other)], Handed6(p));
    CuratorSleeps(p);
  }

  lemma CuratorSleeps(p: Plan)
    ensures QueueCuratorEvent(Handed6(p), "curator") == Handed6(p)
  {
    Names();
    var agents := Handed6(p).agents;
    assert agents[0] == ANN && agents[1].name == "bob" && agents[2] == CURATOR;
    assert FindCurator(agents) == Some(2);
  }

  lemma Completes6(p: Plan)
    requires KeysFit(p) && p.again.body != p.first.body
    requires AcceptedHandoffs(S5(p.first), BY_CURATOR, OutputForBoth(p)) == Extracted(RequestsFor(p), [])
    ensures Step(S5(p.first), Complete(BY_CURATOR, OutputForBoth(p))).0 == Handed6(p)
  {
    Marks6(p);
    Queues6(p);
    CompletesTo(S5(p.first), BY_CURATOR, OutputForBoth(p), RequestsFor(p), Marked6(p), Handed6(p));
  }

  function FirstFive(w: Work): seq<Op>
  {
    FirstThree(w) + [Claim("bob", "w2", NoReason)] + [Claim("curator", "w3", NoReason)]
  }

  function HandedOps(p: Plan): seq<Op>
  {
    FirstFive(p.first) + [Complete(BY_CURATOR, OutputForBoth(p))]
  }

  lemma RunToFive(w: Work)
    requires Offered(w)
    ensures Run(START, FirstFive(w)) == S5(w)
  {
    RunToThree(w);
    Claims4(w);
    Claims5(w);
    RunSnoc(START, FirstThree(w), Claim("bob", "w2", NoReason));
    RunSnoc(START, FirstThree(w) + [Claim("bob", "w2", NoReason)], Claim("curator", "w3", NoReason));
  }

  lemma RunToHanded(p: Plan)
    requires Planned(p)
    ensures Run(START, HandedOps(p)) == Handed6(p)
  {
    RunToFive(p.first);
    Accepts6(p);
    Completes6(p);
    RunSnoc(START, FirstFive(p.first), Complete(BY_CURATOR, OutputForBoth(p)));
  }

  lemma NoPauseHanded(p: Plan)
    ensures Pause !in HandedOps(p)
  {
  }

  lemma OneMoreReaches(p: Plan, op: Op, s: Session)
    requires Planned(p) && Step(Handed6(p), op).0 == s && op != Pause
    ensures Run(START, HandedOps(p) + [op]) == s && Reached(s)
  {
    RunToHanded(p);
    RunSnoc(START, HandedOps(p), op);
    NoPauseHanded(p);
    RunReaches(HandedOps(p) + [op], s);
  }

  function SamplePlan(): Plan
  {
    Plan(Sample("T-001", ""), Sample("T-001", "again"), Sample("T-002", ""))
  }

  lemma SamplePlanned()
    ensures Planned(SamplePlan())
  {
    var p := SamplePlan();
    SampleIdsAreFine();
    assert Solid("again");
    SampleIsOffered("T-001", "");
    SampleIsOffered("T-001", "again");
    SampleIsOffered("T-002", "");
    assert |p.first.body| != |p.again.body|;
    assert p.first.key[4] != p.other.key[4];
  }

  // ---- a second job is started on it ----

  const JOB_OF_CURATOR := Job("curator", HandoffWork, InProgress, Some(0), Some(1), 1, 2, Some(3), Some("w3"))

  /** The curator, of the target's role, takes the task that bob's job still works on. */
  function Shared7(p: Plan): Session
  {
    Handed6(p).(
      jobs := Handed6(p).jobs + [JOB_OF_CURATOR], nextLease := 4,
      agents := [ANN, BOB.(status := AgentBusy), CURATOR.(status := AgentBusy)],
      tasks := Handed6(p).tasks[0 := Handed6(p).tasks[0].(
        state := TaskInProgress, lease := Some(3), worker := Some("w3"), assignee := Some("curator"))],
      handoffs := Handed6(p).handoffs[1 := Handed6(p).handoffs[1].(state := Claimed, claimedBy := Some(3))])
  }

  lemma CuratorMayTake(p: Plan)
    ensures ReadyHandoff(Handed6(p), CURATOR) == Some(1)
  {
    var s := Handed6(p);
    assert CanSelfClaim(s.tasks, 0);
    assert Admissible(s, CURATOR, s.handoffs[1]) && !Admissible(s, CURATOR, s.handoffs[0]);
  }

  lemma CuratorIsFree(p: Plan)
    ensures ActiveJob(Handed6(p).jobs, "curator").None? && OldestPending(Handed6(p).jobs, "curator").None?
  {
    Names();
  }

  lemma Claims7(p: Plan)
    ensures Step(Handed6(p), Claim("curator", "w3", NoReason)).0 == Shared7(p)
  {
    var s := Handed6(p);
    Roles();
    Names();
    Found(s.agents, "curator", 2);
    CuratorIsFree(p);
    CuratorMayTake(p);
  }

  lemma SharedJobs(p: Plan)
    ensures Sharing(Shared7(p), 2, 3) && Lost(Shared7(p), 2)
  {
    var s := Shared7(p);
    assert WorksOn(s, 2, 0) && WorksOn(s, 3, 0) && Overlap(s.tasks, 0, 0);
  }

  /** A reachable session in which two running jobs work on one task: it was handed over again while the first one was
      working on it, and another agent of the role took it. */
  lemma TwoJobsShareTask()
    ensures exists s, j: nat, k: nat :: Reached(s) && Sharing(s, j, k) && Lost(s, j)
  {
    var p := SamplePlan();
    SamplePlanned();
    Claims7(p);
    OneMoreReaches(p, Claim("curator", "w3", NoReason), Shared7(p));
    SharedJobs(p);
  }

  // ---- the first job finishes it ----

  /** Bob's first job is done: the task is done, and its new handoff still waits, before the other task's. */
  function Stale7(p: Plan): Session
  {
    Handed6(p).(
      jobs := [JOB0.(status := Completed), EVENT.(status := Completed, lease := Some(2), worker := Some("w3")),
               JOB2.(status := Completed)],
      agents := [ANN, BOB, CURATOR],
      tasks := Handed6(p).tasks[0 := Handed6(p).tasks[0].(state := TaskDone, revision := 3)])
  }

  lemma NothingFollows(s: Session, c: Callback)
    requires Admit(s, c) == Applied
    ensures AcceptedHandoffs(s, c, NOTHING).accepted == []
    ensures CompleteJob(s, c, NOTHING).0 == SyncCompleted(MarkCompleted(s, c, NOTHING), s.jobs[c.job], false, [])
  {
    assert AcceptedHandoffs(s, c, NOTHING) == Extracted([], []);
    assert ExtractDiscussions(s.agents, c.agent, []) == Extracted([], []);
  }

  lemma Completes7(p: Plan)
    ensures Step(Handed6(p), Complete(FROM_OLD_WORKER, NOTHING)).0 == Stale7(p)
  {
    var s := Handed6(p);
    Names();
    Found(s.agents, "bob", 1);
    NothingFollows(s, FROM_OLD_WORKER);
    assert MarkCompleted(s, FROM_OLD_WORKER, NOTHING).agents == Stale7(p).agents;
    assert MarkCompleted(s, FROM_OLD_WORKER, NOTHING).jobs == Stale7(p).jobs;
    assert !SameTask([], p.first.key);
  }

  lemma StaleIsReached(p: Plan)
    requires Planned(p)
    ensures Run(START, HandedOps(p) + [Complete(FROM_OLD_WORKER, NOTHING)]) == Stale7(p) && Reached(Stale7(p))
  {
    Completes7(p);
    OneMoreReaches(p, Complete(FROM_OLD_WORKER, NOTHING), Stale7(p));
  }

  /** Handoff h is stuck, and its target is given no work although handoff k behind it could be started. */
  ghost predicate HoldsUp(s: Session, h: nat, k: nat, i: nat)
  {
    && Stuck(s, h) && h < k < |s.handoffs| && i < |s.agents| && s.agents[i].name == s.handoffs[h].target
    && Admissible(s, s.agents[i], s.handoffs[k]) && ReadyState(s.tasks[s.handoffs[k].task].state)
    && s.tasks[s.handoffs[k].task].epoch == s.epoch
    && ReadyHandoff(s, s.agents[i]).None?
  }

  lemma StuckHides(s: Session, a: Agent, h: nat)
    requires Stuck(s, h) && Admissible(s, a, s.handoffs[h]) && forall k :: 0 <= k < h ==> !Admissible(s, a, s.handoffs[k])
    ensures ReadyHandoff(s, a).None?
  {
  }

  lemma StaleHoldsUp(p: Plan)
    ensures HoldsUp(Stale7(p), 1, 2, 1)
  {
    var s := Stale7(p);
    assert s.agents[1] == BOB;
    assert CanSelfClaim(s.tasks, 0) && CanSelfClaim(s.tasks, 1);
    StuckHides(s, BOB, 1);
  }

  lemma StaleHoldsUpReset(p: Plan)
    ensures HoldsUp(ResetSession(Stale7(p)), 1, 2, 1)
  {
    var s := ResetSession(Stale7(p));
    ResetLeavesStuck(Stale7(p), 1);
    assert s.agents[1] == BOB;
    assert CanSelfClaim(s.tasks, 0) && CanSelfClaim(s.tasks, 1);
    StuckHides(s, BOB, 1);
  }

  /** A reachable session, never paused and still open, in which an agent is given no work, neither now nor after a
      reset, although there is a handoff it could start: the one before it is stuck, because the job that its task's
      first handoff started finished after the task was handed over again. */
  lemma StaleCompletionStarves()
    ensures exists s, h: nat, k: nat, i: nat :: Reached(s) && !s.closed && HoldsUp(s, h, k, i) && HoldsUp(ResetSession(s), h, k, i)
  {
    var p := SamplePlan();
    SamplePlanned();
    StaleIsReached(p);
    StaleHoldsUp(p);
    StaleHoldsUpReset(p);
    assert !Stale7(p).closed;
  }

  lemma StaleRepeats(p: Plan)
    requires p.again.key == p.first.key
    ensures var s := Stale7(p);
      && Repeats(s, 1, RequestFor(p.again)) && FindAgent(s.agents, "bob").Some? && s.handoffs[1].state == Queued
      && !StillMeant(s.tasks[0], "bob")
  {
    Names();
    Found(Stale7(p).agents, "bob", 1);
  }

  lemma StaleIsHandedOver(p: Plan)
    requires Planned(p)
    ensures HandedOverAfresh(Stale7(p), 1, RequestFor(p.again))
  {
    StaleIsReached(p);
    StaleRepeats(p);
    ReachedRepeat(HandedOps(p) + [Complete(FROM_OLD_WORKER, NOTHING)], Stale7(p), 1, RequestFor(p.again));
  }

  lemma StaleWaits(p: Plan)
    ensures var s := Stale7(p); s.handoffs[1].state == Queued && s.tasks[s.handoffs[1].task].assignee == Some("bob")
  {
  }

  /** A reachable session in which a handoff that nobody has taken yet is emitted again and queued a second time: its
      task is done already, and still meant for the target. */
  lemma WaitingHandoffIsHandedOver()
    ensures exists s, h: nat, r ::
      && Reached(s) && HandedOverAfresh(s, h, r) && s.handoffs[h].state == Queued
      && s.tasks[s.handoffs[h].task].assignee == Some(r.target)
  {
    var p := SamplePlan();
    SamplePlanned();
    StaleIsReached(p);
    StaleIsHandedOver(p);
    StaleWaits(p);
    assert RequestFor(p.again).target == "bob";
  }
}
