/** Runs of the orchestration protocol and what holds over all of them. */
module Runs {
  import opened Text
  import opened Rows
  import opened ControlBlocks
  import opened Protocol
  import opened Invariants
  import opened Steps

  /** Administer stands for the launcher, resume and recovery services: they set statuses, desired
      statuses and worker attachments, and never touch jobs, tasks or handoffs while the session is open. */
  datatype Op =
    | Claim(name: string, worker: string, sweep: Sweep)
    | Complete(callback: Callback, output: Output)
    | Fail(callback: Callback)
    | Reset
    | Route(name: string, kind: JobKind)
    | RestartAgent(name: string)
    | Register(name: string, worker: string, recent: set<string>)
    | Beat(name: string, worker: string, status: AgentStatus, recent: set<string>)
    | Close
    | Pause
    | Administer(sessionStatus: SessionStatus, desired: Desired, agents: seq<Agent>)

  function Step(s: Session, op: Op): (Session, Reply)
  {
    match op
    case Claim(name, worker, sweep) => ClaimNextJob(s, name, worker, sweep)
    case Complete(c, out) => CompleteJob(s, c, out)
    case Fail(c) => FailJob(s, c)
    case Reset => (ResetSession(s), Applied)
    case Route(name, kind) => RouteMessage(s, name, kind)
    case RestartAgent(name) => EnqueueRestart(s, name)
    case Register(name, worker, recent) => RegisterWorker(s, name, worker, recent)
    case Beat(name, worker, status, recent) => Heartbeat(s, name, worker, status, recent)
    case Close => (CloseSession(s), Applied)
    case Pause => (PauseSession(s), Applied)
    case Administer(st, desired, agents) =>
      if SameAgents(s.agents, agents) then (s.(status := st, desired := desired, agents := agents), Applied)
      else (s, Ignored)
  }

  function Run(s: Session, ops: seq<Op>): Session
  {
    if |ops| == 0 then s else Step(Run(s, ops[..|ops| - 1]), ops[|ops| - 1]).0
  }

  /** A session just created from its manifest. */
  ghost predicate Created(s: Session)
  {
    && s.status == Requested && s.desired == WantReady && !s.closed
    && s.jobs == [] && s.tasks == [] && s.handoffs == []
    && UniqueNames(s.agents)
  }

  // ---- the invariant over runs ----

  lemma CreatedOk(s: Session)
    requires Created(s)
    ensures Inv(s) && Linked(s)
  {
    assert Counted(s.jobs, s.agents) == {};
  }

  lemma OneJobKeeps(s: Session, name: string, kind: JobKind)
    requires Inv(s)
    ensures Inv(AddJob(s, name, kind)) && KeepsLinks(s, AddJob(s, name, kind))
  {
    OnlyBlankJobsKeeps(s, AddJob(s, name, kind), None);
  }

  lemma RegisterKeeps(s: Session, name: string, worker: string, recent: set<string>)
    requires Inv(s)
    ensures var r := RegisterWorker(s, name, worker, recent).0; Inv(r) && KeepsLinks(s, r)
  {
    SameWorkKeeps(s, RegisterWorker(s, name, worker, recent).0);
  }

  lemma HeartbeatKeeps(s: Session, name: string, worker: string, status: AgentStatus, recent: set<string>)
    requires Inv(s)
    ensures var r := Heartbeat(s, name, worker, status, recent).0; Inv(r) && KeepsLinks(s, r)
  {
    SameWorkKeeps(s, Heartbeat(s, name, worker, status, recent).0);
  }

  lemma CallbackStepKeeps(s: Session, op: Op)
    requires Inv(s) && (op.Claim? || op.Complete? || op.Fail? || op.Register? || op.Beat?)
    ensures Inv(Step(s, op).0) && KeepsLinks(s, Step(s, op).0)
  {
    match op
    case Claim(name, worker, sweep) => ClaimKeeps(s, name, worker, sweep);
    case Complete(c, out) => CompleteKeeps(s, c, out);
    case Fail(c) => FailKeeps(s, c);
    case Register(name, worker, recent) => RegisterKeeps(s, name, worker, recent);
    case Beat(name, worker, status, recent) => HeartbeatKeeps(s, name, worker, status, recent);
    case _ =>
  }

  lemma ServiceStepKeeps(s: Session, op: Op)
    requires Inv(s) && !(op.Claim? || op.Complete? || op.Fail? || op.Register? || op.Beat?)
    ensures Inv(Step(s, op).0)
    ensures op != Pause && op != Close ==> KeepsLinks(s, Step(s, op).0)
  {
    match op
    case Reset => ResetKeeps(s);
    case Route(name, kind) => OneJobKeeps(s, name, kind);
    case RestartAgent(name) => OneJobKeeps(s, name, Restart);
    case Close => CloseKeeps(s);
    case Pause => PauseKeepsInv(s);
    case Administer(st, desired, agents) =>
      if SameAgents(s.agents, agents) { SameWorkKeeps(s, Step(s, op).0); }
    case _ =>
  }

  lemma StepKeepsInv(s: Session, op: Op)
    requires Inv(s)
    ensures Inv(Step(s, op).0)
    ensures op != Pause && op != Close ==> KeepsLinks(s, Step(s, op).0)
  {
    if op.Claim? || op.Complete? || op.Fail? || op.Register? || op.Beat? {
      CallbackStepKeeps(s, op);
    } else {
      ServiceStepKeeps(s, op);
    }
  }

  lemma ClaimWhenFreeKeepsClosed(s: Session, i: nat, worker: string, sweep: Sweep)
    requires i < |s.agents|
    ensures ClaimWhenFree(s, i, worker, sweep).0.closed == s.closed
  {
  }

  lemma ClaimKeepsClosed(s: Session, name: string, worker: string, sweep: Sweep)
    ensures ClaimNextJob(s, name, worker, sweep).0.closed == s.closed
  {
    ClaimIsFree(s, name, worker, sweep);
    if FindAgent(s.agents, name).Some? {
      var i := FindAgent(s.agents, name).value;
      ClaimWhenFreeKeepsClosed(s, i, worker, sweep);
      if ActiveJob(s.jobs, name).Some? { ClaimWhenFreeKeepsClosed(Recover(s, ActiveJob(s.jobs, name).value), i, worker, sweep); }
    }
  }

  lemma {:induction false} QueueEachKeepsClosed(s: Session, source: string, rs: seq<HandoffRequest>)
    requires KnownTargets(s.agents, rs)
    ensures QueueEach(s, source, rs).0.closed == s.closed
  {
    if |rs| > 0 { QueueEachKeepsClosed(s, source, rs[..|rs| - 1]); }
  }

  lemma CompleteKeepsClosed(s: Session, c: Callback, out: Output)
    ensures CompleteJob(s, c, out).0.closed == s.closed
  {
    if Admit(s, c) == Applied {
      QueueEachKeepsClosed(MarkCompleted(s, c, out), c.agent, AcceptedHandoffs(s, c, out).accepted);
    }
  }

  /** Only closing closes, and nothing opens again. */
  lemma StepClosed(s: Session, op: Op)
    ensures Step(s, op).0.closed <==> s.closed || op == Close
  {
    match op
    case Claim(name, worker, sweep) => ClaimKeepsClosed(s, name, worker, sweep);
    case Complete(c, out) => CompleteKeepsClosed(s, c, out);
    case _ =>
  }

  /** Over every run the invariant holds; while the session is open, and unless it was paused, so do the
      links between tasks, handoffs and jobs. */
  lemma {:induction false} RunKeepsInv(s: Session, ops: seq<Op>)
    requires Created(s)
    ensures Inv(Run(s, ops))
    ensures Pause !in ops && !Run(s, ops).closed ==> Linked(Run(s, ops))
  {
    if |ops| == 0 {
      CreatedOk(s);
    } else {
      RunKeepsInv(s, ops[..|ops| - 1]);
      StepKeepsInv(Run(s, ops[..|ops| - 1]), ops[|ops| - 1]);
      StepClosed(Run(s, ops[..|ops| - 1]), ops[|ops| - 1]);
      assert ops[|ops| - 1] in ops;
    }
  }
}
