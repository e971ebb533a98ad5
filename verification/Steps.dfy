/** Every transaction keeps the invariant, and all but a pause keep the links. */
module Steps {
  import opened Text
  import opened Rows
  import opened ControlBlocks
  import opened Protocol
  import opened Invariants

  /** r differs from s at most in statuses and worker attachments. */
  ghost predicate SameWork(s: Session, r: Session)
  {
    && SameAgents(s.agents, r.agents)
    && r.epoch == s.epoch && r.cap == s.cap && r.nextLease == s.nextLease
    && r.jobs == s.jobs && r.tasks == s.tasks && r.handoffs == s.handoffs
  }

  lemma SameWorkKeeps(s: Session, r: Session)
    requires Inv(s) && SameWork(s, r)
    ensures Inv(r)
    ensures forall c :: LinkedBut(s, c) ==> LinkedBut(r, c)
  {
    AgentsEdit(s.jobs, s.agents, r.agents, s.epoch, s.nextLease, s.cap);
  }

  // ---- claiming ----

  /** A claim leaves jobs, tasks and handoffs alone, or is that of a free agent, possibly after recovering its running job. */
  lemma ClaimIsFree(s: Session, name: string, worker: string, sweep: Sweep)
    ensures var r := ClaimNextJob(s, name, worker, sweep).0;
      (r.jobs == s.jobs && r.tasks == s.tasks && r.handoffs == s.handoffs && r.closed == s.closed)
      || (FindAgent(s.agents, name).Some?
          && match ActiveJob(s.jobs, name)
             case None => r == ClaimWhenFree(s, FindAgent(s.agents, name).value, worker, sweep).0
             case Some(k) => r == ClaimWhenFree(Recover(s, k), FindAgent(s.agents, name).value, worker, sweep).0)
  {
  }

  /** The claim of a free agent changes tasks and handoffs only by starting a handoff. */
  lemma FreeStarts(s: Session, i: nat, worker: string, sweep: Sweep)
    requires i < |s.agents|
    ensures var r := ClaimWhenFree(s, i, worker, sweep).0;
      (r.tasks == s.tasks && r.handoffs == s.handoffs)
      || (ReadyHandoff(s, s.agents[i]).Some?
          && ReadyHandoff(s, s.agents[i]).value < |s.handoffs|
          && s.handoffs[ReadyHandoff(s, s.agents[i]).value].task < |s.tasks|
          && r == ClaimHandoff(s, i, ReadyHandoff(s, s.agents[i]).value, worker).0)
  {
  }

  /** The links survive in r if they held in s. */
  ghost predicate KeepsLinks(s: Session, r: Session)
  {
    Linked(s) ==> Linked(r)
  }

  lemma RecoverKeeps(s: Session, j: nat)
    requires Inv(s) && j < |s.jobs| && s.jobs[j].status == InProgress
    ensures Inv(Recover(s, j)) && KeepsLinks(s, Recover(s, j))
    ensures ActiveJob(Recover(s, j).jobs, s.jobs[j].agent).None?
  {
    var now := s.jobs[j].(status := Pending, worker := None);
    assert JobRow(s.jobs[j], s.agents, s.epoch, s.nextLease);
    JobMovedOk(s.jobs, j, now, s.agents, s.epoch, s.nextLease, s.nextLease);
    JobMovedRefs(s.jobs, j, now, |s.tasks|, s.handoffs, s.nextLease, s.nextLease);
    JobMovedCapped(s.jobs, j, now, s.agents, s.cap);
    if Linked(s) { JobMovedLinked(s, j, now, s.nextLease, s.nextLease, None); }
  }

  /** The agent may start one more job: it runs none, and there is room unless it is a curator. */
  ghost predicate MayStart(s: Session, i: nat)
  {
    && i < |s.agents|
    && ActiveJob(s.jobs, s.agents[i].name).None?
    && (IsCurator(s.agents[i]) || |Running(s.jobs)| < s.cap)
  }

  lemma MayStartFacts(s: Session, i: nat)
    requires MayStart(s, i)
    ensures NamesCurator(s.agents, s.agents[i].name) || |Running(s.jobs)| < s.cap
    ensures FindAgent(s.agents, s.agents[i].name).Some?
    ensures forall k :: 0 <= k < |s.jobs| && s.jobs[k].status == InProgress ==> s.jobs[k].agent != s.agents[i].name
  {
  }

  lemma ClaimPendingKeeps(s: Session, i: nat, j: nat, worker: string)
    requires Inv(s) && MayStart(s, i)
    requires j < |s.jobs| && s.jobs[j].agent == s.agents[i].name && s.jobs[j].status == Pending
    ensures var r := ClaimPending(s, i, j, worker).0; Inv(r) && KeepsLinks(s, r)
  {
    MayStartFacts(s, i);
    var r := ClaimPending(s, i, j, worker).0;
    var now := r.jobs[j];
    var mid := s.(jobs := s.jobs[j := now], nextLease := r.nextLease);
    assert JobRow(s.jobs[j], s.agents, s.epoch, s.nextLease);
    JobMovedOk(s.jobs, j, now, s.agents, s.epoch, s.nextLease, r.nextLease);
    JobMovedRefs(s.jobs, j, now, |s.tasks|, s.handoffs, s.nextLease, r.nextLease);
    JobMovedCapped(s.jobs, j, now, s.agents, s.cap);
    TaskLeaseRoom(s.tasks, s.epoch, s.nextLease, r.nextLease);
    if Linked(s) { JobMovedLinked(s, j, now, s.nextLease, r.nextLease, None); }
    SameWorkKeeps(mid, r);
  }

  lemma ClaimSweepKeeps(s: Session, i: nat, worker: string)
    requires Inv(s) && MayStart(s, i)
    ensures var r := ClaimSweep(s, i, worker).0; Inv(r) && KeepsLinks(s, r)
  {
    MayStartFacts(s, i);
    var r := ClaimSweep(s, i, worker).0;
    var job := r.jobs[|s.jobs|];
    var mid := s.(jobs := s.jobs + [job], nextLease := r.nextLease);
    StartedJobOk(s.jobs, job, s.agents, s.epoch, s.nextLease);
    StartedJobCapped(s.jobs, job, s.agents, s.cap);
    TaskLeaseRoom(s.tasks, s.epoch, s.nextLease, r.nextLease);
    if Linked(s) { AppendLinked(s, [job], None); }
    SameWorkKeeps(mid, r);
  }

  lemma ClaimedRefs(s: Session, k: nat, job: Job, now: Handoff)
    requires RefsOk(s.jobs, |s.tasks|, s.handoffs) && k < |s.handoffs|
    requires s.handoffs[k].state == Queued && s.handoffs[k].task < |s.tasks|
    requires now == s.handoffs[k].(state := Claimed, claimedBy := now.claimedBy)
    requires job.task == Some(s.handoffs[k].task) && job.handoff == Some(k)
    ensures RefsOk(s.jobs + [job], |s.tasks|, s.handoffs[k := now])
  {
    var jobs, handoffs := s.jobs + [job], s.handoffs[k := now];
    forall j | 0 <= j < |jobs| ensures JobRefs(jobs[j], |s.tasks|, handoffs) {
      if j < |s.jobs| { assert JobRefs(s.jobs[j], |s.tasks|, s.handoffs); }
    }
    forall i, j | 0 <= i < j < |jobs| && !Terminal(jobs[i]) && !Terminal(jobs[j]) && jobs[i].handoff.Some?
      ensures jobs[i].handoff != jobs[j].handoff
    {
      assert JobRefs(s.jobs[i], |s.tasks|, s.handoffs);
    }
  }

  lemma ClaimedTasks(tasks: seq<Task>, t: nat, now: Task, epoch: nat, nextLease: nat)
    requires TasksOk(tasks, epoch, nextLease) && t < |tasks|
    requires now.key == tasks[t].key && now.semantic == tasks[t].semantic && now.files == tasks[t].files
    requires TaskRow(now, epoch, nextLease + 1) && CanSelfClaim(tasks, t)
    ensures TasksOk(tasks[t := now], epoch, nextLease + 1)
  {
    TaskLeaseRoom(tasks, epoch, nextLease, nextLease + 1);
  }

  lemma ClaimedLinks(s: Session, k: nat, job: Job, lease: nat)
    requires Inv(s) && Linked(s) && k < |s.handoffs| && s.handoffs[k].state == Queued
    requires s.handoffs[k].task < |s.tasks| && s.tasks[s.handoffs[k].task].state != TaskInProgress
    requires job.handoff == Some(k) && job.lease == Some(lease) && !Terminal(job)
    ensures var jobs := s.jobs + [job];
            var handoffs := s.handoffs[k := s.handoffs[k].(state := Claimed, claimedBy := Some(|s.jobs|))];
            AllServed(jobs, handoffs, None)
            && HeldVia(jobs, handoffs, s.handoffs[k].task, Some(lease), k)
            && (forall u :: 0 <= u < |s.tasks| && s.tasks[u].state == TaskInProgress
                  ==> exists h :: HeldVia(jobs, handoffs, u, s.tasks[u].lease, h))
  {
    var jobs := s.jobs + [job];
    var handoffs := s.handoffs[k := s.handoffs[k].(state := Claimed, claimedBy := Some(|s.jobs|))];
    forall u | 0 <= u < |s.tasks| && s.tasks[u].state == TaskInProgress
      ensures exists h :: HeldVia(jobs, handoffs, u, s.tasks[u].lease, h)
    {
      var h :| HeldVia(s.jobs, s.handoffs, u, s.tasks[u].lease, h);
      assert HeldVia(jobs, handoffs, u, s.tasks[u].lease, h);
    }
    forall h | 0 <= h < |handoffs| && handoffs[h].state == Claimed ensures Served(jobs, handoffs, h, None) {
      if h != k { assert Served(s.jobs, s.handoffs, h, None); }
    }
  }

  lemma ClaimHandoffKeeps(s: Session, i: nat, k: nat, worker: string)
    requires Inv(s) && MayStart(s, i) && ReadyHandoff(s, s.agents[i]) == Some(k)
    ensures var r := ClaimHandoff(s, i, k, worker).0; Inv(r) && KeepsLinks(s, r)
  {
    var r := ClaimHandoff(s, i, k, worker).0;
    var mid := r.(agents := s.agents);
    ClaimHandoffInv(s, i, k, worker);
    if Linked(s) { ClaimHandoffLinks(s, i, k, worker); }
    SameWorkKeeps(mid, r);
  }

  lemma ClaimHandoffLinks(s: Session, i: nat, k: nat, worker: string)
    requires Inv(s) && Linked(s) && i < |s.agents| && ReadyHandoff(s, s.agents[i]) == Some(k)
    ensures Linked(ClaimHandoff(s, i, k, worker).0)
  {
    ClaimedLinks(s, k, ClaimHandoff(s, i, k, worker).0.jobs[|s.jobs|], s.nextLease);
  }

  lemma ClaimHandoffInv(s: Session, i: nat, k: nat, worker: string)
    requires Inv(s) && MayStart(s, i) && ReadyHandoff(s, s.agents[i]) == Some(k)
    ensures Inv(ClaimHandoff(s, i, k, worker).0.(agents := s.agents))
  {
    MayStartFacts(s, i);
    var r := ClaimHandoff(s, i, k, worker).0;
    var t := s.handoffs[k].task;
    assert TaskRow(s.tasks[t], s.epoch, s.nextLease);
    var job := r.jobs[|s.jobs|];
    StartedJobOk(s.jobs, job, s.agents, s.epoch, s.nextLease);
    StartedJobCapped(s.jobs, job, s.agents, s.cap);
    ClaimedRefs(s, k, job, r.handoffs[k]);
    ClaimedTasks(s.tasks, t, r.tasks[t], s.epoch, s.nextLease);
  }

  /** A claim either leaves the work as it was or may start a job, and then starts the first one due. */
  lemma StartsOrSame(s: Session, i: nat, worker: string, sweep: Sweep)
    requires i < |s.agents| && ActiveJob(s.jobs, s.agents[i].name).None?
    requires !SameWork(s, ClaimWhenFree(s, i, worker, sweep).0)
    ensures MayStart(s, i)
    ensures ClaimWhenFree(s, i, worker, sweep) ==
      match OldestPending(s.jobs, s.agents[i].name)
      case Some(j) => ClaimPending(s, i, j, worker)
      case None =>
        match ReadyHandoff(s, s.agents[i])
        case Some(k) => ClaimHandoff(s, i, k, worker)
        case None => ClaimSweep(s, i, worker)
  {
  }

  lemma ClaimWhenFreeKeeps(s: Session, i: nat, worker: string, sweep: Sweep)
    requires Inv(s) && i < |s.agents| && ActiveJob(s.jobs, s.agents[i].name).None?
    ensures var r := ClaimWhenFree(s, i, worker, sweep).0; Inv(r) && KeepsLinks(s, r)
  {
    var a := s.agents[i];
    var r := ClaimWhenFree(s, i, worker, sweep).0;
    if SameWork(s, r) {
      SameWorkKeeps(s, r);
    } else {
      StartsOrSame(s, i, worker, sweep);
      match OldestPending(s.jobs, a.name)
      case Some(j) => ClaimPendingKeeps(s, i, j, worker);
      case None =>
        match ReadyHandoff(s, a)
        case Some(k) => ClaimHandoffKeeps(s, i, k, worker);
        case None => ClaimSweepKeeps(s, i, worker);
    }
  }

  lemma RecoveredClaimKeeps(s: Session, i: nat, j: nat, worker: string, sweep: Sweep)
    requires Inv(s) && i < |s.agents| && j < |s.jobs|
    requires s.jobs[j].status == InProgress && s.jobs[j].agent == s.agents[i].name
    ensures var r := ClaimWhenFree(Recover(s, j), i, worker, sweep).0; Inv(r) && KeepsLinks(s, r)
  {
    RecoverKeeps(s, j);
    ClaimWhenFreeKeeps(Recover(s, j), i, worker, sweep);
  }

  lemma ClaimKeeps(s: Session, name: string, worker: string, sweep: Sweep)
    requires Inv(s)
    ensures var r := ClaimNextJob(s, name, worker, sweep).0; Inv(r) && KeepsLinks(s, r)
  {
    var r := ClaimNextJob(s, name, worker, sweep).0;
    if s.status != Closed && FindAgent(s.agents, name).Some? {
      var i := FindAgent(s.agents, name).value;
      if s.desired == WantPaused || s.status in {Paused, AwaitingLauncher, WakingExecutionPlane} {
        SameWorkKeeps(s, r);
      } else {
        match ActiveJob(s.jobs, name)
        case None => ClaimWhenFreeKeeps(s, i, worker, sweep);
        case Some(j) =>
          if Orphaned(s.agents[i], s.jobs[j], worker) {
            RecoveredClaimKeeps(s, i, j, worker, sweep);
          } else {
            SameWorkKeeps(s, r);
          }
      }
    }
  }

  // ---- finishing ----

  lemma FinishKeeps(s: Session, j: nat, status: JobStatus, i: nat)
    requires Inv(s) && j < |s.jobs| && i < |s.agents| && !Terminal(s.jobs[j])
    requires status in {Completed, Failed, Cancelled}
    ensures Inv(FinishJob(s, j, status, i))
    ensures Linked(s) ==> LinkedBut(FinishJob(s, j, status, i), Some(j))
  {
    var now := s.jobs[j].(status := status);
    var mid := s.(jobs := s.jobs[j := now]);
    assert JobRow(s.jobs[j], s.agents, s.epoch, s.nextLease);
    JobMovedOk(s.jobs, j, now, s.agents, s.epoch, s.nextLease, s.nextLease);
    JobMovedRefs(s.jobs, j, now, |s.tasks|, s.handoffs, s.nextLease, s.nextLease);
    JobMovedCapped(s.jobs, j, now, s.agents, s.cap);
    if Linked(s) { JobMovedLinked(s, j, now, s.nextLease, s.nextLease, Some(j)); }
    SameWorkKeeps(mid, FinishJob(s, j, status, i));
  }

  // ---- handing over ----

  lemma EnqueueHandoffs(s: Session, t: nat, source: string, role: string, r: HandoffRequest)
    requires HandoffsOk(s.handoffs, s.epoch, |s.tasks|) && t < |s.tasks|
    ensures HandoffsOk(Enqueue(s, t, source, role, r).handoffs, s.epoch, |s.tasks|)
  {
  }

  lemma EnqueueRefs(s: Session, t: nat, source: string, role: string, r: HandoffRequest, before: nat)
    requires RefsOk(s.jobs, before, s.handoffs) && before <= |s.tasks| && t < |s.tasks|
    ensures RefsOk(s.jobs, |s.tasks|, Enqueue(s, t, source, role, r).handoffs)
  {
    var handoffs := Enqueue(s, t, source, role, r).handoffs;
    forall j | 0 <= j < |s.jobs| ensures JobRefs(s.jobs[j], |s.tasks|, handoffs) {
      assert JobRefs(s.jobs[j], before, s.handoffs);
    }
  }

  /** Parking task t and superseding its handoffs breaks no link of another task. */
  lemma EnqueueLinked(s: Session, mid: Session, t: nat, source: string, role: string, r: HandoffRequest, closing: Option<nat>)
    requires LinkedBut(s, closing)
    requires mid.jobs == s.jobs && mid.handoffs == s.handoffs && t < |mid.tasks| && |s.tasks| <= |mid.tasks|
    requires mid.tasks[t].state != TaskInProgress
    requires forall u :: 0 <= u < |mid.tasks| && u != t ==> u < |s.tasks| && mid.tasks[u] == s.tasks[u]
    ensures LinkedBut(Enqueue(mid, t, source, role, r), closing)
  {
    var out := Enqueue(mid, t, source, role, r);
    forall u | 0 <= u < |out.tasks| && out.tasks[u].state == TaskInProgress
      ensures exists h :: HeldVia(out.jobs, out.handoffs, u, out.tasks[u].lease, h)
    {
      var h :| HeldVia(s.jobs, s.handoffs, u, s.tasks[u].lease, h);
      assert HeldVia(out.jobs, out.handoffs, u, out.tasks[u].lease, h);
    }
    forall h | 0 <= h < |out.handoffs| && out.handoffs[h].state == Claimed
      ensures Served(out.jobs, out.handoffs, h, closing)
    {
      assert Served(s.jobs, s.handoffs, h, closing);
    }
  }

  lemma NewTaskOk(tasks: seq<Task>, task: Task, epoch: nat, nextLease: nat)
    requires TasksOk(tasks, epoch, nextLease) && FindTask(tasks, task.key).None?
    requires TaskRow(task, epoch, nextLease) && task.state != TaskInProgress
    ensures TasksOk(tasks + [task], epoch, nextLease)
  {
  }

  lemma QueueHandoffKeeps(s: Session, source: string, r: HandoffRequest, closing: Option<nat>)
    requires Inv(s) && FindAgent(s.agents, r.target).Some?
    ensures var out := QueueHandoff(s, source, r).0;
            && Inv(out) && (LinkedBut(s, closing) ==> LinkedBut(out, closing))
            && out.jobs == s.jobs
  {
    var role := s.agents[FindAgent(s.agents, r.target).value].role;
    var key := KeyFor(s.tasks, r);
    match FindTask(s.tasks, key)
    case None =>
      var task := Task(key, role, Some(r.target), source, TaskReady, 1, s.epoch, None, None, r.body, r.semantic, r.files);
      var mid := s.(tasks := s.tasks + [task]);
      NewTaskOk(s.tasks, task, s.epoch, s.nextLease);
      EnqueueHandoffs(mid, |s.tasks|, source, role, r);
      EnqueueRefs(mid, |s.tasks|, source, role, r, |s.tasks|);
      if LinkedBut(s, closing) { EnqueueLinked(s, mid, |s.tasks|, source, role, r, closing); }
    case Some(t) =>
      var mid := s.(tasks := s.tasks[t := Rehanded(s, s.tasks[t], source, role, r)]);
      TaskParkedOk(s.tasks, t, mid.tasks[t], s.epoch, s.nextLease);
      EnqueueHandoffs(mid, t, source, role, r);
      EnqueueRefs(mid, t, source, role, r, |s.tasks|);
      if LinkedBut(s, closing) { EnqueueLinked(s, mid, t, source, role, r, closing); }
  }

  lemma {:induction false} QueueEachKeeps(s: Session, source: string, rs: seq<HandoffRequest>, closing: Option<nat>)
    requires Inv(s) && KnownTargets(s.agents, rs)
    ensures var out := QueueEach(s, source, rs).0;
            && Inv(out) && (LinkedBut(s, closing) ==> LinkedBut(out, closing))
            && out.jobs == s.jobs
  {
    if |rs| > 0 {
      QueueEachKeeps(s, source, rs[..|rs| - 1], closing);
      QueueHandoffKeeps(QueueEach(s, source, rs[..|rs| - 1]).0, source, rs[|rs| - 1], closing);
    }
  }

  /** r is s with blank jobs appended. */
  ghost predicate OnlyBlankJobs(s: Session, r: Session)
  {
    && |s.jobs| <= |r.jobs| && r == s.(jobs := s.jobs + r.jobs[|s.jobs|..])
    && forall k :: |s.jobs| <= k < |r.jobs| ==> Blank(r.jobs[k], s.epoch)
  }

  lemma OnlyBlankJobsKeeps(s: Session, r: Session, closing: Option<nat>)
    requires Inv(s) && OnlyBlankJobs(s, r)
    ensures Inv(r) && (LinkedBut(s, closing) ==> LinkedBut(r, closing))
  {
    BlankJobsAdded(s, r.jobs[|s.jobs|..], closing);
  }

  lemma CuratorEventIsBlank(s: Session, source: string)
    ensures OnlyBlankJobs(s, QueueCuratorEvent(s, source))
  {
  }

  lemma DiscussionsAreBlank(s: Session, source: string, ds: seq<DiscussRequest>)
    ensures OnlyBlankJobs(s, QueueDiscussions(s, source, ds))
  {
    var mid := AddJobs(s, AllAddressees(ds), Discussion);
    CuratorEventIsBlank(mid, source);
  }

  lemma RepairIsBlank(s: Session, source: string, rejected: seq<Rejection>)
    ensures OnlyBlankJobs(s, QueueRepair(s, source, rejected))
  {
  }

  lemma RecoveryIsBlank(s: Session, failed: string, kind: JobKind)
    ensures OnlyBlankJobs(s, QueueRecovery(s, failed, kind))
  {
  }

  // ---- the task of a finished job ----

  lemma SyncTasks(s: Session, t: nat, now: Task)
    requires TasksOk(s.tasks, s.epoch, s.nextLease) && t < |s.tasks|
    requires now.key == s.tasks[t].key && now.epoch == s.tasks[t].epoch
    requires now.lease == None && now.worker == None && now.state != TaskInProgress
    ensures TasksOk(s.tasks[t := now], s.epoch, s.nextLease)
  {
    assert TaskRow(s.tasks[t], s.epoch, s.nextLease);
    TaskParkedOk(s.tasks, t, now, s.epoch, s.nextLease);
  }

  lemma CloseHandoffOk(s: Session, h: Option<nat>, st: HandoffState)
    requires HandoffsOk(s.handoffs, s.epoch, |s.tasks|) && RefsOk(s.jobs, |s.tasks|, s.handoffs)
    requires st in {Consumed, HandoffFailed}
    ensures HandoffsOk(CloseHandoff(s.handoffs, h, st), s.epoch, |s.tasks|)
    ensures RefsOk(s.jobs, |s.tasks|, CloseHandoff(s.handoffs, h, st))
  {
    forall j | 0 <= j < |s.jobs| ensures JobRefs(s.jobs[j], |s.tasks|, CloseHandoff(s.handoffs, h, st)) {
      assert JobRefs(s.jobs[j], |s.tasks|, s.handoffs);
    }
  }

  /** Parking the task and closing the handoff of the finished job j completes the links again. */
  lemma SyncLinked(s: Session, j: nat, now: Task, st: HandoffState)
    requires Inv(s) && LinkedBut(s, Some(j)) && j < |s.jobs| && Terminal(s.jobs[j])
    requires s.jobs[j].task.Some? && now.state != TaskInProgress && st in {Consumed, HandoffFailed}
    ensures s.jobs[j].task.value < |s.tasks|
    ensures Linked(s.(tasks := s.tasks[s.jobs[j].task.value := now],
                      handoffs := CloseHandoff(s.handoffs, s.jobs[j].handoff, st)))
  {
    assert JobRefs(s.jobs[j], |s.tasks|, s.handoffs);
    var r := s.(tasks := s.tasks[s.jobs[j].task.value := now],
                handoffs := CloseHandoff(s.handoffs, s.jobs[j].handoff, st));
    forall u | 0 <= u < |r.tasks| && r.tasks[u].state == TaskInProgress
      ensures exists h :: HeldVia(r.jobs, r.handoffs, u, r.tasks[u].lease, h)
    {
      var h :| HeldVia(s.jobs, s.handoffs, u, s.tasks[u].lease, h);
      assert HeldVia(r.jobs, r.handoffs, u, r.tasks[u].lease, h);
    }
    forall h | 0 <= h < |r.handoffs| && r.handoffs[h].state == Claimed ensures Served(r.jobs, r.handoffs, h, None) {
      assert Served(s.jobs, s.handoffs, h, Some(j));
    }
  }

  /** A finished job without a task serves no handoff. */
  lemma TasklessLinked(s: Session, j: nat)
    requires Inv(s) && LinkedBut(s, Some(j)) && j < |s.jobs| && s.jobs[j].task.None?
    ensures Linked(s)
  {
    assert JobRefs(s.jobs[j], |s.tasks|, s.handoffs);
    forall h | 0 <= h < |s.handoffs| && s.handoffs[h].state == Claimed ensures Served(s.jobs, s.handoffs, h, None) {
      assert Served(s.jobs, s.handoffs, h, Some(j));
    }
  }

  lemma SyncCompletedKeeps(s: Session, j: nat, was: Job, question: bool, rs: seq<HandoffRequest>)
    requires Inv(s) && j < |s.jobs| && Terminal(s.jobs[j])
    requires was.task == s.jobs[j].task && was.handoff == s.jobs[j].handoff
    ensures var r := SyncCompleted(s, was, question, rs);
            Inv(r) && (LinkedBut(s, Some(j)) ==> Linked(r))
  {
    var r := SyncCompleted(s, was, question, rs);
    assert JobRefs(s.jobs[j], |s.tasks|, s.handoffs);
    match s.jobs[j].task
    case None =>
      if LinkedBut(s, Some(j)) { TasklessLinked(s, j); }
    case Some(t) =>
      SyncTasks(s, t, r.tasks[t]);
      CloseHandoffOk(s, s.jobs[j].handoff, Consumed);
      if LinkedBut(s, Some(j)) { SyncLinked(s, j, r.tasks[t], Consumed); }
  }

  lemma SyncFailedKeeps(s: Session, j: nat, was: Job)
    requires Inv(s) && j < |s.jobs| && Terminal(s.jobs[j])
    requires was.task == s.jobs[j].task && was.handoff == s.jobs[j].handoff
    ensures var r := SyncFailed(s, was);
            Inv(r) && (LinkedBut(s, Some(j)) ==> Linked(r)) && r.jobs == s.jobs
  {
    var r := SyncFailed(s, was);
    assert JobRefs(s.jobs[j], |s.tasks|, s.handoffs);
    match s.jobs[j].task
    case None =>
      if LinkedBut(s, Some(j)) { TasklessLinked(s, j); }
    case Some(t) =>
      SyncTasks(s, t, r.tasks[t]);
      CloseHandoffOk(s, s.jobs[j].handoff, HandoffFailed);
      if LinkedBut(s, Some(j)) { SyncLinked(s, j, r.tasks[t], HandoffFailed); }
  }

  // ---- whole callbacks ----

  /** The session between finishing the job and updating its task. */
  lemma QueuedKeeps(s: Session, c: Callback, out: Output)
    requires Inv(s) && Admit(s, c) == Applied
    ensures var r := QueueHandoffs(MarkCompleted(s, c, out), c.agent, AcceptedHandoffs(s, c, out).accepted);
            && Inv(r) && (Linked(s) ==> LinkedBut(r, Some(c.job)))
            && |s.jobs| <= |r.jobs|
            && r.jobs[c.job] == s.jobs[c.job].(status := Completed)
  {
    var done := MarkCompleted(s, c, out);
    var rs := AcceptedHandoffs(s, c, out).accepted;
    FinishKeeps(s, c.job, Completed, FindAgent(s.agents, c.agent).value);
    QueueEachKeeps(done, c.agent, rs, Some(c.job));
    var each := QueueEach(done, c.agent, rs).0;
    CuratorEventIsBlank(each, c.agent);
    OnlyBlankJobsKeeps(each, QueueCuratorEvent(each, c.agent), Some(c.job));
  }

  lemma CompleteKeeps(s: Session, c: Callback, out: Output)
    requires Inv(s)
    ensures var r := CompleteJob(s, c, out).0; Inv(r) && KeepsLinks(s, r)
  {
    if Admit(s, c) == Applied {
      var hs := AcceptedHandoffs(s, c, out);
      var ds := ExtractDiscussions(s.agents, c.agent, out.discussions).accepted;
      QueuedKeeps(s, c, out);
      var queued := QueueHandoffs(MarkCompleted(s, c, out), c.agent, hs.accepted);
      DiscussionsAreBlank(queued, c.agent, ds);
      var talked := QueueDiscussions(queued, c.agent, ds);
      OnlyBlankJobsKeeps(queued, talked, Some(c.job));
      RepairIsBlank(talked, c.agent, hs.rejected);
      var repaired := QueueRepair(talked, c.agent, hs.rejected);
      OnlyBlankJobsKeeps(talked, repaired, Some(c.job));
      SyncCompletedKeeps(repaired, c.job, s.jobs[c.job], out.question, hs.accepted);
    }
  }

  lemma FailKeeps(s: Session, c: Callback)
    requires Inv(s)
    ensures var r := FailJob(s, c).0; Inv(r) && KeepsLinks(s, r)
  {
    if Admit(s, c) == Applied {
      var i := FindAgent(s.agents, c.agent).value;
      FinishKeeps(s, c.job, Failed, i);
      var finished := FinishJob(s, c.job, Failed, i);
      SyncFailedKeeps(finished, c.job, s.jobs[c.job]);
      var synced := SyncFailed(finished, s.jobs[c.job]);
      RecoveryIsBlank(synced, c.agent, s.jobs[c.job].kind);
      OnlyBlankJobsKeeps(synced, QueueRecovery(synced, c.agent, s.jobs[c.job].kind), None);
    }
  }

  // ---- session-wide operations ----

  lemma CancelledJobsOk(jobs: seq<Job>, later: seq<Job>, agents: seq<Agent>, epoch: nat, e: nat, nextLease: nat)
    requires JobsOk(jobs, agents, epoch, nextLease) && |later| == |jobs|
    requires forall j :: 0 <= j < |jobs| ==> later[j] == Cancel(jobs[j]) || (epoch == e && later[j] == jobs[j])
    ensures JobsOk(later, agents, e, nextLease)
  {
    forall j | 0 <= j < |later| ensures JobRow(later[j], agents, e, nextLease) {
      assert JobRow(jobs[j], agents, epoch, nextLease);
    }
  }

  lemma CancelledRefs(jobs: seq<Job>, later: seq<Job>, taskCount: nat, handoffs: seq<Handoff>)
    requires RefsOk(jobs, taskCount, handoffs) && |later| == |jobs|
    requires forall j :: 0 <= j < |jobs| ==> later[j] == Cancel(jobs[j]) || later[j] == jobs[j]
    ensures RefsOk(later, taskCount, handoffs)
  {
    forall j | 0 <= j < |later| ensures JobRefs(later[j], taskCount, handoffs) {
      assert JobRefs(jobs[j], taskCount, handoffs);
    }
  }

  lemma CancelledCapped(jobs: seq<Job>, later: seq<Job>, agents: seq<Agent>, cap: int)
    requires Capped(jobs, agents, cap) && |later| == |jobs|
    requires forall j :: 0 <= j < |jobs| ==> later[j] == Cancel(jobs[j]) || later[j] == jobs[j]
    ensures Capped(later, agents, cap)
  {
    SubsetSize(Counted(later, agents), Counted(jobs, agents));
  }

  lemma CloseKeeps(s: Session)
    requires Inv(s)
    ensures Inv(CloseSession(s))
  {
    var r := CloseSession(s);
    CancelledJobsOk(s.jobs, r.jobs, s.agents, s.epoch, s.epoch, s.nextLease);
    CancelledRefs(s.jobs, r.jobs, |s.tasks|, s.handoffs);
    CancelledCapped(s.jobs, r.jobs, s.agents, s.cap);
    AgentsEdit(r.jobs, s.agents, r.agents, s.epoch, s.nextLease, s.cap);
  }

  lemma PauseKeepsInv(s: Session)
    requires Inv(s)
    ensures Inv(PauseSession(s))
  {
    var r := PauseSession(s);
    CancelledJobsOk(s.jobs, r.jobs, s.agents, s.epoch, s.epoch, s.nextLease);
    CancelledRefs(s.jobs, r.jobs, |s.tasks|, s.handoffs);
    CancelledCapped(s.jobs, r.jobs, s.agents, s.cap);
    AgentsEdit(r.jobs, s.agents, r.agents, s.epoch, s.nextLease, s.cap);
  }

  lemma ResetTasksOk(s: Session)
    requires TasksOk(s.tasks, s.epoch, s.nextLease)
    ensures TasksOk(ResetSession(s).tasks, s.epoch + 1, s.nextLease)
    ensures forall t :: 0 <= t < |s.tasks| ==> ResetSession(s).tasks[t].state != TaskInProgress
  {
    var tasks := ResetSession(s).tasks;
    forall t | 0 <= t < |tasks| ensures TaskRow(tasks[t], s.epoch + 1, s.nextLease) {
      assert TaskRow(s.tasks[t], s.epoch, s.nextLease);
    }
  }

  lemma ResetHandoffsOk(s: Session)
    requires HandoffsOk(s.handoffs, s.epoch, |s.tasks|)
    ensures HandoffsOk(ResetSession(s).handoffs, s.epoch + 1, |s.tasks|)
  {
    var handoffs := ResetSession(s).handoffs;
    forall h | 0 <= h < |handoffs| ensures Live(handoffs[h]) <==> Live(s.handoffs[h]) {
    }
  }

  /** Every job that existed before a reset is finished after it. */
  lemma ResetCancels(s: Session)
    ensures |ResetSession(s).jobs| == |s.jobs| + |s.agents|
    ensures forall j :: 0 <= j < |s.jobs| ==> ResetSession(s).jobs[j] == Cancel(s.jobs[j]) && Terminal(ResetSession(s).jobs[j])
    ensures forall i :: 0 <= i < |s.agents| ==> ResetSession(s).jobs[|s.jobs| + i] == NewJob(s.agents[i].name, Restart, s.epoch + 1)
  {
  }

  lemma ResetJobsKeep(s: Session)
    requires Inv(s)
    ensures var r := ResetSession(s);
            && JobsOk(r.jobs, r.agents, r.epoch, r.nextLease)
            && RefsOk(r.jobs, |r.tasks|, r.handoffs)
            && Capped(r.jobs, r.agents, r.cap)
  {
    var r := ResetSession(s);
    var past, added := r.jobs[..|s.jobs|], r.jobs[|s.jobs|..];
    ResetCancels(s);
    assert r.jobs == past + added;
    CancelledJobsOk(s.jobs, past, s.agents, s.epoch, r.epoch, s.nextLease);
    CancelledCapped(s.jobs, past, s.agents, s.cap);
    forall j | 0 <= j < |past| ensures JobRefs(past[j], |r.tasks|, r.handoffs) {
      assert JobRefs(s.jobs[j], |s.tasks|, s.handoffs);
    }
    BlankJobsOk(past, added, s.agents, r.epoch, s.nextLease);
    BlankRefsOk(past, added, |r.tasks|, r.handoffs, r.epoch);
    BlankCapped(past, added, s.agents, s.cap, r.epoch);
  }

  lemma ResetKeeps(s: Session)
    requires Inv(s)
    ensures Inv(ResetSession(s)) && Linked(ResetSession(s))
  {
    ResetTasksOk(s);
    ResetHandoffsOk(s);
    ResetJobsKeep(s);
  }
}
