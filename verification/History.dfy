/** What only ever moves one way, step after step. */
module History {
  import opened Text
  import opened Rows
  import opened ControlBlocks
  import opened Protocol
  import opened Steps
  import opened Runs

  /** A finished job never changes again; no job changes its agent, its task or a lease it has. */
  ghost predicate JobLater(a: Job, b: Job)
  {
    && b.agent == a.agent && b.kind == a.kind && b.task == a.task && b.handoff == a.handoff
    && b.revision == a.revision
    && (a.lease.Some? ==> b.lease == a.lease)
    && (Terminal(a) ==> b == a)
  }

  ghost predicate TaskLater(a: Task, b: Task)
  {
    b.key == a.key && a.revision <= b.revision
  }

  /** A handoff that is no longer live keeps its state. */
  ghost predicate HandoffLater(a: Handoff, b: Handoff)
  {
    && b.task == a.task && b.source == a.source && b.target == a.target && b.targetRole == a.targetRole
    && b.body == a.body && b.revision == a.revision
    && (!Live(a) ==> b.state == a.state)
  }

  ghost predicate JobsLater(a: seq<Job>, b: seq<Job>)
  {
    |a| <= |b| && forall j :: 0 <= j < |a| ==> JobLater(a[j], b[j])
  }

  ghost predicate TasksLater(a: seq<Task>, b: seq<Task>)
  {
    |a| <= |b| && forall t :: 0 <= t < |a| ==> TaskLater(a[t], b[t])
  }

  ghost predicate HandoffsLater(a: seq<Handoff>, b: seq<Handoff>)
  {
    |a| <= |b| && forall h :: 0 <= h < |a| ==> HandoffLater(a[h], b[h])
  }

  ghost predicate Later(a: Session, b: Session)
  {
    && JobsLater(a.jobs, b.jobs) && TasksLater(a.tasks, b.tasks) && HandoffsLater(a.handoffs, b.handoffs)
    && a.epoch <= b.epoch && a.nextLease <= b.nextLease && a.cap == b.cap
    && SameAgents(a.agents, b.agents)
  }

  lemma LaterTransitive(a: Session, b: Session, c: Session)
    requires Later(a, b) && Later(b, c)
    ensures Later(a, c)
  {
    forall j | 0 <= j < |a.jobs| ensures JobLater(a.jobs[j], c.jobs[j]) {
      assert JobLater(a.jobs[j], b.jobs[j]) && JobLater(b.jobs[j], c.jobs[j]);
    }
    forall t | 0 <= t < |a.tasks| ensures TaskLater(a.tasks[t], c.tasks[t]) {
      assert TaskLater(a.tasks[t], b.tasks[t]) && TaskLater(b.tasks[t], c.tasks[t]);
    }
    forall h | 0 <= h < |a.handoffs| ensures HandoffLater(a.handoffs[h], c.handoffs[h]) {
      assert HandoffLater(a.handoffs[h], b.handoffs[h]) && HandoffLater(b.handoffs[h], c.handoffs[h]);
    }
  }

  lemma ClaimPendingLater(s: Session, i: nat, j: nat, worker: string)
    requires i < |s.agents| && j < |s.jobs| && s.jobs[j].status == Pending
    ensures Later(s, ClaimPending(s, i, j, worker).0)
  {
  }

  lemma ClaimHandoffLater(s: Session, i: nat, k: nat, worker: string)
    requires i < |s.agents| && k < |s.handoffs| && s.handoffs[k].task < |s.tasks| && s.handoffs[k].state == Queued
    ensures Later(s, ClaimHandoff(s, i, k, worker).0)
  {
  }

  lemma ClaimSweepLater(s: Session, i: nat, worker: string)
    requires i < |s.agents|
    ensures Later(s, ClaimSweep(s, i, worker).0)
  {
  }

  lemma ClaimWhenFreeLater(s: Session, i: nat, worker: string, sweep: Sweep)
    requires i < |s.agents|
    ensures Later(s, ClaimWhenFree(s, i, worker, sweep).0)
  {
    var a := s.agents[i];
    SameWorkLater(s, s);
    SameWorkLater(s, SetAgent(s, i, AgentIdle));
    if |Running(s.jobs)| < s.cap || IsCurator(a) {
      match OldestPending(s.jobs, a.name)
      case Some(j) => ClaimPendingLater(s, i, j, worker);
      case None =>
        match ReadyHandoff(s, a)
        case Some(k) => ClaimHandoffLater(s, i, k, worker);
        case None => ClaimSweepLater(s, i, worker);
    }
  }

  lemma RecoveredClaimLater(s: Session, i: nat, j: nat, worker: string, sweep: Sweep)
    requires i < |s.agents| && j < |s.jobs| && s.jobs[j].status == InProgress
    ensures Later(s, ClaimWhenFree(Recover(s, j), i, worker, sweep).0)
  {
    ClaimWhenFreeLater(Recover(s, j), i, worker, sweep);
    LaterTransitive(s, Recover(s, j), ClaimWhenFree(Recover(s, j), i, worker, sweep).0);
  }

  lemma ClaimLater(s: Session, name: string, worker: string, sweep: Sweep)
    ensures Later(s, ClaimNextJob(s, name, worker, sweep).0)
  {
    var r := ClaimNextJob(s, name, worker, sweep).0;
    if s.status != Closed && FindAgent(s.agents, name).Some? {
      var i := FindAgent(s.agents, name).value;
      if s.desired == WantPaused || s.status in {Paused, AwaitingLauncher, WakingExecutionPlane} {
        SameWorkLater(s, r);
      } else {
        match ActiveJob(s.jobs, name)
        case None => ClaimWhenFreeLater(s, i, worker, sweep);
        case Some(j) =>
          if Orphaned(s.agents[i], s.jobs[j], worker) {
            RecoveredClaimLater(s, i, j, worker, sweep);
          } else {
            SameWorkLater(s, r);
          }
      }
    }
  }

  lemma EnqueueLater(s: Session, t: nat, source: string, role: string, r: HandoffRequest)
    requires t < |s.tasks|
    ensures Later(s, Enqueue(s, t, source, role, r))
  {
  }

  lemma QueueHandoffLater(s: Session, source: string, r: HandoffRequest)
    requires FindAgent(s.agents, r.target).Some?
    ensures Later(s, QueueHandoff(s, source, r).0)
  {
    var role := s.agents[FindAgent(s.agents, r.target).value].role;
    var key := KeyFor(s.tasks, r);
    match FindTask(s.tasks, key)
    case None =>
      var task := Task(key, role, Some(r.target), source, TaskReady, 1, s.epoch, None, None, r.body, r.semantic, r.files);
      var mid := s.(tasks := s.tasks + [task]);
      EnqueueLater(mid, |s.tasks|, source, role, r);
      LaterTransitive(s, mid, Enqueue(mid, |s.tasks|, source, role, r));
    case Some(t) =>
      var mid := s.(tasks := s.tasks[t := Rehanded(s, s.tasks[t], source, role, r)]);
      EnqueueLater(mid, t, source, role, r);
      LaterTransitive(s, mid, Enqueue(mid, t, source, role, r));
  }

  lemma {:induction false} QueueEachLater(s: Session, source: string, rs: seq<HandoffRequest>)
    requires KnownTargets(s.agents, rs)
    ensures Later(s, QueueEach(s, source, rs).0)
  {
    if |rs| > 0 {
      var mid := QueueEach(s, source, rs[..|rs| - 1]).0;
      QueueEachLater(s, source, rs[..|rs| - 1]);
      QueueHandoffLater(mid, source, rs[|rs| - 1]);
      LaterTransitive(s, mid, QueueHandoff(mid, source, rs[|rs| - 1]).0);
    }
  }

  lemma BlankLater(s: Session, r: Session)
    requires OnlyBlankJobs(s, r)
    ensures Later(s, r)
  {
    assert forall j :: 0 <= j < |s.jobs| ==> r.jobs[j] == s.jobs[j];
  }

  lemma SyncLater(s: Session, was: Job, question: bool, rs: seq<HandoffRequest>)
    ensures Later(s, SyncCompleted(s, was, question, rs)) && Later(s, SyncFailed(s, was))
  {
  }

  lemma QueuedLater(s: Session, c: Callback, out: Output)
    requires Admit(s, c) == Applied
    ensures Later(s, QueueHandoffs(MarkCompleted(s, c, out), c.agent, AcceptedHandoffs(s, c, out).accepted))
  {
    var rs := AcceptedHandoffs(s, c, out).accepted;
    var done := MarkCompleted(s, c, out);
    var each := QueueEach(done, c.agent, rs).0;
    QueueEachLater(done, c.agent, rs);
    LaterTransitive(s, done, each);
    CuratorEventIsBlank(each, c.agent);
    BlankLater(each, QueueCuratorEvent(each, c.agent));
    LaterTransitive(s, each, QueueCuratorEvent(each, c.agent));
  }

  lemma CompleteLater(s: Session, c: Callback, out: Output)
    ensures Later(s, CompleteJob(s, c, out).0)
  {
    if Admit(s, c) == Applied {
      var hs := AcceptedHandoffs(s, c, out);
      var ds := ExtractDiscussions(s.agents, c.agent, out.discussions).accepted;
      QueuedLater(s, c, out);
      var queued := QueueHandoffs(MarkCompleted(s, c, out), c.agent, hs.accepted);
      var talked := QueueDiscussions(queued, c.agent, ds);
      var repaired := QueueRepair(talked, c.agent, hs.rejected);
      DiscussionsAreBlank(queued, c.agent, ds);
      BlankLater(queued, talked);
      RepairIsBlank(talked, c.agent, hs.rejected);
      BlankLater(talked, repaired);
      SyncLater(repaired, s.jobs[c.job], out.question, hs.accepted);
      LaterTransitive(s, queued, talked);
      LaterTransitive(s, talked, repaired);
      LaterTransitive(s, repaired, CompleteJob(s, c, out).0);
    }
  }

  lemma FailLater(s: Session, c: Callback)
    ensures Later(s, FailJob(s, c).0)
  {
    if Admit(s, c) == Applied {
      var finished := FinishJob(s, c.job, Failed, FindAgent(s.agents, c.agent).value);
      var synced := SyncFailed(finished, s.jobs[c.job]);
      SyncLater(finished, s.jobs[c.job], false, []);
      RecoveryIsBlank(synced, c.agent, s.jobs[c.job].kind);
      BlankLater(synced, FailJob(s, c).0);
      LaterTransitive(s, finished, synced);
      LaterTransitive(s, synced, FailJob(s, c).0);
    }
  }

  lemma ResetLater(s: Session)
    ensures Later(s, ResetSession(s))
  {
    ResetCancels(s);
  }

  lemma CloseLater(s: Session)
    ensures Later(s, CloseSession(s))
  {
  }

  lemma PauseLater(s: Session)
    ensures Later(s, PauseSession(s))
  {
  }

  lemma SameWorkLater(s: Session, r: Session)
    requires SameWork(s, r)
    ensures Later(s, r)
  {
  }

  lemma RegisterLater(s: Session, name: string, worker: string, recent: set<string>)
    ensures Later(s, RegisterWorker(s, name, worker, recent).0)
  {
    SameWorkLater(s, RegisterWorker(s, name, worker, recent).0);
  }

  lemma HeartbeatLater(s: Session, name: string, worker: string, status: AgentStatus, recent: set<string>)
    ensures Later(s, Heartbeat(s, name, worker, status, recent).0)
  {
    SameWorkLater(s, Heartbeat(s, name, worker, status, recent).0);
  }

  lemma ServiceStepLater(s: Session, op: Op)
    requires op.Route? || op.RestartAgent? || op.Administer?
    ensures Later(s, Step(s, op).0)
  {
    if op.Administer? {
      SameWorkLater(s, Step(s, op).0);
    } else {
      BlankLater(s, Step(s, op).0);
    }
  }

  lemma StepLater(s: Session, op: Op)
    ensures Later(s, Step(s, op).0)
  {
    match op
    case Claim(name, worker, sweep) => ClaimLater(s, name, worker, sweep);
    case Complete(c, out) => CompleteLater(s, c, out);
    case Fail(c) => FailLater(s, c);
    case Reset => ResetLater(s);
    case Close => CloseLater(s);
    case Pause => PauseLater(s);
    case Register(name, worker, recent) => RegisterLater(s, name, worker, recent);
    case Beat(name, worker, status, recent) => HeartbeatLater(s, name, worker, status, recent);
    case _ => ServiceStepLater(s, op);
  }

  /** Over every run, from any session: finished jobs and ended handoffs stay as they are, no task's
      revision decreases, the epoch never goes back and no lease token is issued twice. */
  lemma {:induction false} RunLater(s: Session, ops: seq<Op>)
    ensures Later(s, Run(s, ops))
  {
    if |ops| > 0 {
      var mid := Run(s, ops[..|ops| - 1]);
      RunLater(s, ops[..|ops| - 1]);
      StepLater(mid, ops[|ops| - 1]);
      LaterTransitive(s, mid, Run(s, ops));
    }
  }

  lemma {:induction false} RunSplit(s: Session, ops: seq<Op>, more: seq<Op>)
    ensures Run(s, ops + more) == Run(Run(s, ops), more)
  {
    if |more| == 0 {
      assert ops + more == ops;
    } else {
      RunSplit(s, ops, more[..|more| - 1]);
      assert (ops + more)[..|ops + more| - 1] == ops + more[..|more| - 1];
    }
  }
}
