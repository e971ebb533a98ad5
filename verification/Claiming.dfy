/** Which work a claim hands out, and what can happen to a task. */
module Claiming {
  import opened Text
  import opened Rows
  import opened ControlBlocks
  import opened Protocol
  import opened Invariants
  import opened Steps
  import opened Runs
  import opened History
  import opened Guarantees
  import TaskKeys

  /** The session hands out work at all. */
  predicate Serving(s: Session)
  {
    s.status !in {Closed, Paused, AwaitingLauncher, WakingExecutionPlane} && s.desired != WantPaused
  }

  predicate HasOpenWork(s: Session, name: string)
  {
    exists j :: 0 <= j < |s.jobs| && s.jobs[j].agent == name && !Terminal(s.jobs[j])
  }

  // ---- what is granted ----

  /** Job j is the agent's first unfinished job. */
  ghost predicate FirstOpen(s: Session, name: string, j: nat)
  {
    && j < |s.jobs| && s.jobs[j].agent == name && !Terminal(s.jobs[j])
    && forall k :: 0 <= k < j && s.jobs[k].agent == name ==> Terminal(s.jobs[k])
  }

  /** The new job j was made for handoff k: the earliest queued one meant for the agent whose scopes are
      free, with its task ready; the task is now in progress under the job's lease. */
  ghost predicate StartsHandoff(s: Session, r: Session, a: Agent, j: nat, k: nat)
  {
    && k < |s.handoffs| && Admissible(s, a, s.handoffs[k])
    && (forall h :: 0 <= h < k ==> !Admissible(s, a, s.handoffs[h]))
    && ReadyState(s.tasks[s.handoffs[k].task].state)
    && j < |r.jobs| && r.jobs[j].handoff == Some(k) && r.jobs[j].task == Some(s.handoffs[k].task)
    && k < |r.handoffs| && r.handoffs[k].state == Claimed && r.handoffs[k].claimedBy == Some(j)
    && |r.tasks| == |s.tasks|
    && r.tasks[s.handoffs[k].task].state == TaskInProgress
    && r.tasks[s.handoffs[k].task].lease == r.jobs[j].lease
    && r.tasks[s.handoffs[k].task].assignee == Some(a.name)
    && r.jobs[j].revision == s.tasks[s.handoffs[k].task].revision
    && r.jobs[j].kind == if s.tasks[s.handoffs[k].task].role == "verification" then Verification else HandoffWork
  }

  /** What a granted job is. */
  ghost predicate Granting(s: Session, r: Session, a: Agent, worker: string, j: nat)
  {
    && j < |r.jobs| && r.jobs[j].status == InProgress && r.jobs[j].agent == a.name
    && r.jobs[j].worker == Some(worker) && r.jobs[j].lease.Some? && r.jobs[j].epoch == s.epoch
    && (exists i :: 0 <= i < |s.agents| && s.agents[i] == a && r.agents == s.agents[i := a.(status := AgentBusy)])
    && (j < |s.jobs| ==> FirstOpen(s, a.name, j))
    && (j >= |s.jobs| ==>
          && j == |s.jobs| && !HasOpenWork(s, a.name)
          && ((exists k :: StartsHandoff(s, r, a, j, k)) || (IsCurator(a) && r.jobs[j].kind == CurationSweep && ReadyHandoff(s, a).None?)))
  }

  lemma FreeGrant(s: Session, i: nat, worker: string, sweep: Sweep)
    requires i < |s.agents| && ActiveJob(s.jobs, s.agents[i].name).None?
    ensures var out := ClaimWhenFree(s, i, worker, sweep);
      out.1.Granted? ==> Granting(s, out.0, s.agents[i], worker, out.1.job)
  {
    var a := s.agents[i];
    var out := ClaimWhenFree(s, i, worker, sweep);
    if out.1.Granted? && OldestPending(s.jobs, a.name).None? {
      if ReadyHandoff(s, a).Some? {
        var k := ReadyHandoff(s, a).value;
        assert StartsHandoff(s, out.0, a, out.1.job, k);
      }
    }
  }

  lemma RecoveredGrant(s: Session, i: nat, j: nat, worker: string, sweep: Sweep)
    requires Inv(s) && i < |s.agents| && ActiveJob(s.jobs, s.agents[i].name) == Some(j) && j < |s.jobs|
    ensures var out := ClaimWhenFree(Recover(s, j), i, worker, sweep);
      out.1.Granted? ==> Granting(s, out.0, s.agents[i], worker, out.1.job)
  {
    var mid := Recover(s, j);
    RecoverKeeps(s, j);
    FreeGrant(mid, i, worker, sweep);
    assert mid.jobs[j].agent == s.agents[i].name && !Terminal(mid.jobs[j]);
    assert HasOpenWork(mid, s.agents[i].name);
    assert forall k :: 0 <= k < |s.jobs| ==> (Terminal(mid.jobs[k]) <==> Terminal(s.jobs[k])) && mid.jobs[k].agent == s.jobs[k].agent;
  }

  /** A claim grants only a running job of the claiming agent and worker: the agent's first unfinished job,
      or, when it has none, the earliest handoff it may start, or for a curator a sweep. */
  lemma ClaimGrants(s: Session, name: string, worker: string, sweep: Sweep)
    requires Inv(s)
    ensures var out := ClaimNextJob(s, name, worker, sweep);
      out.1.Granted? ==>
        && Serving(s) && FindAgent(s.agents, name).Some?
        && Granting(s, out.0, s.agents[FindAgent(s.agents, name).value], worker, out.1.job)
  {
    if Serving(s) && FindAgent(s.agents, name).Some? {
      var i := FindAgent(s.agents, name).value;
      match ActiveJob(s.jobs, name)
      case None => FreeGrant(s, i, worker, sweep);
      case Some(j) => RecoveredGrant(s, i, j, worker, sweep);
    }
  }

  /** The reasons for a curator's sweep: the sweep has one, and it is a partial attachment or others are busy. */
  predicate SweepDue(s: Session, sweep: Sweep)
  {
    sweep.Reason?
    && (sweep.partialAttachment || exists i :: 0 <= i < |s.agents| && s.agents[i].status == AgentBusy && !IsCurator(s.agents[i]))
  }

  lemma FreeGrantIff(s: Session, i: nat, worker: string, sweep: Sweep)
    requires i < |s.agents|
    ensures var a := s.agents[i];
      var due := OldestPending(s.jobs, a.name).Some? || ReadyHandoff(s, a).Some?;
      ClaimWhenFree(s, i, worker, sweep).1.Granted?
      <==> if IsCurator(a) then due || SweepDue(s, sweep) else |Running(s.jobs)| < s.cap && due
  {
  }

  lemma PendingIffOpen(s: Session, name: string)
    requires ActiveJob(s.jobs, name).None?
    ensures OldestPending(s.jobs, name).Some? <==> HasOpenWork(s, name)
  {
    if HasOpenWork(s, name) {
      var k :| 0 <= k < |s.jobs| && s.jobs[k].agent == name && !Terminal(s.jobs[k]);
      assert s.jobs[k].status == Pending;
    }
  }

  lemma RecoverFreesOne(s: Session, j: nat)
    requires Inv(s) && j < |s.jobs| && s.jobs[j].status == InProgress
    ensures |Running(Recover(s, j).jobs)| == |Running(s.jobs)| - 1
    ensures OldestPending(Recover(s, j).jobs, s.jobs[j].agent).Some?
  {
    var mid := Recover(s, j);
    assert Running(mid.jobs) == Running(s.jobs) - {j};
    assert mid.jobs[j].status == Pending && mid.jobs[j].agent == s.jobs[j].agent;
  }

  /** When an agent gets work: the session serves, and it has unfinished work of its own or a handoff it may start,
      or is a curator with a sweep due; others than curators need room under the cap; and while it runs a job it gets
      work only as the replacement of that job's worker. */
  lemma ClaimGrantsIff(s: Session, i: nat, worker: string, sweep: Sweep)
    requires Inv(s) && i < |s.agents|
    ensures var a := s.agents[i];
      ClaimNextJob(s, a.name, worker, sweep).1.Granted?
      <==> && Serving(s)
           && match ActiveJob(s.jobs, a.name)
              case None =>
                var due := HasOpenWork(s, a.name) || ReadyHandoff(s, a).Some?;
                if IsCurator(a) then due || SweepDue(s, sweep) else |Running(s.jobs)| < s.cap && due
              case Some(j) =>
                && s.jobs[j].worker != Some(worker) && a.worker == Some(worker)
                && (IsCurator(a) || |Running(s.jobs)| <= s.cap)
  {
    var a := s.agents[i];
    match ActiveJob(s.jobs, a.name)
    case None =>
      GrantedWhenFree(s, i, worker, sweep);
      FreeGrantIff(s, i, worker, sweep);
      PendingIffOpen(s, a.name);
    case Some(j) =>
      GrantedWhenBusy(s, i, j, worker, sweep);
      RecoverFreesOne(s, j);
      FreeGrantIff(Recover(s, j), i, worker, sweep);
  }

  lemma GrantedWhenFree(s: Session, i: nat, worker: string, sweep: Sweep)
    requires Inv(s) && i < |s.agents| && ActiveJob(s.jobs, s.agents[i].name).None?
    ensures ClaimNextJob(s, s.agents[i].name, worker, sweep).1.Granted?
      <==> Serving(s) && ClaimWhenFree(s, i, worker, sweep).1.Granted?
  {
    assert FindAgent(s.agents, s.agents[i].name) == Some(i);
  }

  lemma GrantedWhenBusy(s: Session, i: nat, j: nat, worker: string, sweep: Sweep)
    requires Inv(s) && i < |s.agents| && ActiveJob(s.jobs, s.agents[i].name) == Some(j)
    ensures j < |s.jobs|
    ensures ClaimNextJob(s, s.agents[i].name, worker, sweep).1.Granted?
      <==> && Serving(s) && s.jobs[j].worker != Some(worker) && s.agents[i].worker == Some(worker)
           && ClaimWhenFree(Recover(s, j), i, worker, sweep).1.Granted?
  {
    assert FindAgent(s.agents, s.agents[i].name) == Some(i);
    assert JobRow(s.jobs[j], s.agents, s.epoch, s.nextLease);
  }

  // ---- what can happen to a task ----

  lemma OtherKeyOtherTask(s: Session, r: HandoffRequest, u: nat, t: nat)
    requires t < |s.tasks| && r.taskId != Some(s.tasks[t].key) && FindTask(s.tasks, KeyFor(s.tasks, r)) == Some(u)
    ensures u != t
  {
    if r.taskId.None? || TaskKeys.Number(r.taskId.value).None? { UnnamedIsNew(s, r); }
  }

  lemma QueueHandoffOtherTask(s: Session, source: string, r: HandoffRequest, t: nat)
    requires FindAgent(s.agents, r.target).Some? && t < |s.tasks| && r.taskId != Some(s.tasks[t].key)
    ensures var out := QueueHandoff(s, source, r).0; t < |out.tasks| && out.tasks[t] == s.tasks[t]
  {
    match FindTask(s.tasks, KeyFor(s.tasks, r))
    case None =>
    case Some(u) => OtherKeyOtherTask(s, r, u, t);
  }

  lemma {:induction false} QueueEachOtherTask(s: Session, source: string, rs: seq<HandoffRequest>, t: nat)
    requires KnownTargets(s.agents, rs) && t < |s.tasks| && !SameTask(rs, s.tasks[t].key)
    ensures var out := QueueEach(s, source, rs).0; t < |out.tasks| && out.tasks[t] == s.tasks[t]
  {
    if |rs| > 0 {
      assert forall k :: 0 <= k < |rs| ==> rs[k].taskId != Some(s.tasks[t].key);
      QueueEachOtherTask(s, source, rs[..|rs| - 1], t);
      QueueHandoffOtherTask(QueueEach(s, source, rs[..|rs| - 1]).0, source, rs[|rs| - 1], t);
    }
  }

  /** What a completion has filed before it settles its own task leaves t alone. */
  lemma FiledOtherTask(s: Session, c: Callback, out: Output, t: nat, filed: Session)
    requires Admit(s, c) == Applied && t < |s.tasks| && !SameTask(AcceptedHandoffs(s, c, out).accepted, s.tasks[t].key)
    requires var hs := AcceptedHandoffs(s, c, out);
      var ds := ExtractDiscussions(s.agents, c.agent, out.discussions).accepted;
      filed == QueueRepair(
        QueueDiscussions(QueueHandoffs(MarkCompleted(s, c, out), c.agent, hs.accepted), c.agent, ds), c.agent, hs.rejected)
    ensures CompleteJob(s, c, out).0 == SyncCompleted(filed, s.jobs[c.job], out.question, AcceptedHandoffs(s, c, out).accepted)
    ensures t < |filed.tasks| && filed.tasks[t] == s.tasks[t]
  {
    var hs := AcceptedHandoffs(s, c, out);
    var ds := ExtractDiscussions(s.agents, c.agent, out.discussions).accepted;
    var done := MarkCompleted(s, c, out);
    QueueHandoffsOtherTask(done, c.agent, hs.accepted, t);
    FollowUpsKeepTasks(QueueHandoffs(done, c.agent, hs.accepted), c.agent, ds, hs.rejected);
  }

  lemma SyncOtherTask(s: Session, was: Job, question: bool, rs: seq<HandoffRequest>, t: nat)
    requires t < |s.tasks| && was.task != Some(t)
    ensures var r := SyncCompleted(s, was, question, rs); t < |r.tasks| && r.tasks[t] == s.tasks[t]
  {
  }

  lemma CompleteOtherTask(s: Session, c: Callback, out: Output, t: nat)
    requires Admit(s, c) == Applied && t < |s.tasks| && s.jobs[c.job].task != Some(t)
    requires !SameTask(AcceptedHandoffs(s, c, out).accepted, s.tasks[t].key)
    ensures var r := CompleteJob(s, c, out).0; t < |r.tasks| && r.tasks[t] == s.tasks[t]
  {
    var hs := AcceptedHandoffs(s, c, out);
    var ds := ExtractDiscussions(s.agents, c.agent, out.discussions).accepted;
    var filed := QueueRepair(
      QueueDiscussions(QueueHandoffs(MarkCompleted(s, c, out), c.agent, hs.accepted), c.agent, ds), c.agent, hs.rejected);
    FiledOtherTask(s, c, out, t, filed);
    SyncOtherTask(filed, s.jobs[c.job], out.question, hs.accepted, t);
  }

  /** A completion decides the state of its job's task, whatever lease the task has by then, unless it hands the
      task over again: a job whose task was handed over meanwhile still finishes it. */
  lemma CompletionDecidesTask(s: Session, c: Callback, out: Output, t: nat)
    requires Admit(s, c) == Applied && t < |s.tasks| && s.jobs[c.job].task == Some(t)
    requires !SameTask(AcceptedHandoffs(s, c, out).accepted, s.tasks[t].key)
    ensures var r := CompleteJob(s, c, out).0;
      t < |r.tasks| && r.tasks[t] == s.tasks[t].(
        state := if out.question then TaskBlocked else TaskDone, revision := s.tasks[t].revision + 1, lease := None, worker := None)
  {
    var hs := AcceptedHandoffs(s, c, out);
    var ds := ExtractDiscussions(s.agents, c.agent, out.discussions).accepted;
    var filed := QueueRepair(
      QueueDiscussions(QueueHandoffs(MarkCompleted(s, c, out), c.agent, hs.accepted), c.agent, ds), c.agent, hs.rejected);
    FiledOtherTask(s, c, out, t, filed);
    SyncOwnTask(filed, s.jobs[c.job], out.question, hs.accepted, t);
  }

  lemma SyncOwnTask(s: Session, was: Job, question: bool, rs: seq<HandoffRequest>, t: nat)
    requires t < |s.tasks| && was.task == Some(t) && !SameTask(rs, s.tasks[t].key)
    ensures var r := SyncCompleted(s, was, question, rs);
      t < |r.tasks| && r.tasks[t] == s.tasks[t].(
        state := if question then TaskBlocked else TaskDone, revision := s.tasks[t].revision + 1, lease := None, worker := None)
  {
  }

  lemma QueueHandoffsOtherTask(s: Session, source: string, rs: seq<HandoffRequest>, t: nat)
    requires KnownTargets(s.agents, rs) && t < |s.tasks| && !SameTask(rs, s.tasks[t].key)
    ensures var out := QueueHandoffs(s, source, rs); t < |out.tasks| && out.tasks[t] == s.tasks[t]
  {
    QueueEachOtherTask(s, source, rs, t);
    CuratorEventIsBlank(QueueEach(s, source, rs).0, source);
  }

  lemma FollowUpsKeepTasks(s: Session, source: string, ds: seq<DiscussRequest>, rejected: seq<Rejection>)
    ensures QueueRepair(QueueDiscussions(s, source, ds), source, rejected).tasks == s.tasks
  {
    DiscussionsAreBlank(s, source, ds);
    RepairIsBlank(QueueDiscussions(s, source, ds), source, rejected);
  }

  lemma ClaimedTaskOnly(s: Session, i: nat, worker: string, sweep: Sweep, t: nat)
    requires i < |s.agents| && t < |s.tasks|
    ensures var out := ClaimWhenFree(s, i, worker, sweep);
      && t < |out.0.tasks|
      && (out.0.tasks[t] != s.tasks[t] ==>
            && out.1.Granted? && out.1.job < |out.0.jobs| && out.0.jobs[out.1.job].task == Some(t)
            && ReadyState(s.tasks[t].state) && CanSelfClaim(s.tasks, t))
  {
  }

  /** The ways a task row can change. */
  ghost predicate MovedBy(s: Session, op: Op, t: nat)
    requires t < |s.tasks|
  {
    var out := Step(s, op);
    || op.Reset?
    || (op.Claim? && out.1.Granted? && out.1.job < |out.0.jobs| && out.0.jobs[out.1.job].task == Some(t)
        && ReadyState(s.tasks[t].state) && CanSelfClaim(s.tasks, t))
    || (exists j :: 0 <= j < |s.jobs| && Accepts(s, op, j) && s.jobs[j].task == Some(t))
    || (op.Complete? && out.1 == Applied && SameTask(AcceptedHandoffs(s, op.callback, op.output).accepted, s.tasks[t].key))
  }

  /** A task changes only in a reset, when it is claimed while ready and free of scope clashes, when a job
      started for it finishes, or when a finishing job hands it over by its key. */
  lemma TaskMovesOnlySo(s: Session, op: Op, t: nat)
    requires t < |s.tasks|
    ensures t < |Step(s, op).0.tasks|
    ensures Step(s, op).0.tasks[t] != s.tasks[t] ==> MovedBy(s, op, t)
  {
    StepLater(s, op);
    if op.Claim? {
      ClaimMovesOnlySo(s, op, t);
    } else if op.Complete? || op.Fail? {
      CallbackMovesOnlySo(s, op, t);
    }
  }

  lemma ClaimMovesOnlySo(s: Session, op: Op, t: nat)
    requires op.Claim? && t < |s.tasks| && t < |Step(s, op).0.tasks|
    ensures Step(s, op).0.tasks[t] != s.tasks[t] ==> MovedBy(s, op, t)
  {
    if FindAgent(s.agents, op.name).Some? {
      var i := FindAgent(s.agents, op.name).value;
      match ActiveJob(s.jobs, op.name)
      case None => ClaimedTaskOnly(s, i, op.worker, op.sweep, t);
      case Some(j) => ClaimedTaskOnly(Recover(s, j), i, op.worker, op.sweep, t);
    }
  }

  lemma CallbackMovesOnlySo(s: Session, op: Op, t: nat)
    requires (op.Complete? || op.Fail?) && t < |s.tasks| && t < |Step(s, op).0.tasks|
    ensures Step(s, op).0.tasks[t] != s.tasks[t] ==> MovedBy(s, op, t)
  {
    var c := op.callback;
    if Admit(s, c) == Applied {
      if s.jobs[c.job].task == Some(t) {
        assert Accepts(s, op, c.job);
      } else if op.Complete? && !SameTask(AcceptedHandoffs(s, c, op.output).accepted, s.tasks[t].key) {
        CompleteOtherTask(s, c, op.output, t);
      }
    }
  }
}
