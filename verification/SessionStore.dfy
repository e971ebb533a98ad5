/** The session service as an object that updates its rows in place, each transaction proved to do what
    the protocol functions say (nas_bridge/app/session_service.py). */
module SessionStore {
  import opened Text
  import opened Rows
  import opened ControlBlocks
  import P = Protocol

  lemma AddNoJobs(s: Session)
    ensures P.AddJobs(s, [], Discussion) == s
  {
  }

  lemma AddMoreJobs(s: Session, names: seq<string>, more: seq<string>)
    ensures P.AddJobs(P.AddJobs(s, names, Discussion), more, Discussion) == P.AddJobs(s, names + more, Discussion)
  {
    assert P.AddJobs(P.AddJobs(s, names, Discussion), more, Discussion).jobs == P.AddJobs(s, names + more, Discussion).jobs;
  }

  class Store {
    var status: SessionStatus
    var desired: Desired
    var closed: bool
    var epoch: nat
    const cap: int
    var agents: seq<Agent>
    var jobs: seq<Job>
    var tasks: seq<Task>
    var handoffs: seq<Handoff>
    var nextLease: nat

    function Snapshot(): Session
      reads this
    {
      Session(status, desired, closed, epoch, cap, agents, jobs, tasks, handoffs, nextLease)
    }

    constructor (agents: seq<Agent>, cap: int)
      ensures Snapshot() == Session(Requested, WantReady, false, 1, cap, agents, [], [], [], 0)
    {
      this.agents, this.cap := agents, cap;
      status, desired, closed, epoch := Requested, WantReady, false, 1;
      jobs, tasks, handoffs, nextLease := [], [], [], 0;
    }

    // ---- session-wide operations ----

    method Reset()
      modifies this
      ensures Snapshot() == P.ResetSession(old(Snapshot()))
    {
      epoch := epoch + 1;
      CancelJobs(Pending);
      CancelJobs(InProgress);
      ResetTasks();
      ResetHandoffs();
      ghost var cancelled := jobs;
      EnqueueRestarts();
      assert cancelled == Apply(old(jobs), (j: Job) => P.Cancel(j));
      assert jobs == P.ResetSession(old(Snapshot())).jobs;
      assert tasks == P.ResetSession(old(Snapshot())).tasks;
      assert handoffs == P.ResetSession(old(Snapshot())).handoffs;
    }

    method ResetTasks()
      modifies this`tasks
      ensures |tasks| == |old(tasks)| && forall k :: 0 <= k < |tasks| ==> tasks[k] == P.ResetTask(old(tasks)[k], epoch)
    {
      for t := 0 to |tasks|
        invariant |tasks| == |old(tasks)|
        invariant forall k :: 0 <= k < t ==> tasks[k] == P.ResetTask(old(tasks)[k], epoch)
        invariant forall k :: t <= k < |tasks| ==> tasks[k] == old(tasks)[k]
      {
        var task := tasks[t].(lease := None, worker := None, epoch := epoch);
        if task.state in {TaskInProgress, TaskReview, TaskVerify, TaskReady} {
          task := task.(state := TaskReady);
        }
        tasks := tasks[t := task];
      }
    }

    method ResetHandoffs()
      modifies this`handoffs
      ensures |handoffs| == |old(handoffs)|
      ensures forall k :: 0 <= k < |handoffs| ==> handoffs[k] == P.ResetHandoff(old(handoffs)[k], epoch)
    {
      for h := 0 to |handoffs|
        invariant |handoffs| == |old(handoffs)|
        invariant forall k :: 0 <= k < h ==> handoffs[k] == P.ResetHandoff(old(handoffs)[k], epoch)
        invariant forall k :: h <= k < |handoffs| ==> handoffs[k] == old(handoffs)[k]
      {
        var handoff := handoffs[h];
        if handoff.state == Claimed {
          handoff := handoff.(state := Queued);
        }
        handoffs := handoffs[h := handoff.(epoch := epoch)];
      }
    }

    /** One restart job for each agent. */
    method EnqueueRestarts()
      modifies this`jobs
      ensures |jobs| == |old(jobs)| + |agents| && jobs[..|old(jobs)|] == old(jobs)
      ensures forall k :: 0 <= k < |agents| ==> jobs[|old(jobs)| + k] == P.NewJob(agents[k].name, Restart, epoch)
    {
      var n := |jobs|;
      for i := 0 to |agents|
        invariant |jobs| == n + i && jobs[..n] == old(jobs)
        invariant forall k :: 0 <= k < i ==> jobs[n + k] == P.NewJob(agents[k].name, Restart, epoch)
      {
        jobs := jobs + [P.NewJob(agents[i].name, Restart, epoch)];
      }
    }

    /** Cancel every job of the given status. */
    method CancelJobs(which: JobStatus)
      modifies this`jobs
      ensures |jobs| == |old(jobs)|
      ensures forall k :: 0 <= k < |jobs| ==>
        jobs[k] == if old(jobs)[k].status == which then old(jobs)[k].(status := Cancelled) else old(jobs)[k]
    {
      for j := 0 to |jobs|
        invariant |jobs| == |old(jobs)|
        invariant forall k :: 0 <= k < j ==>
          jobs[k] == if old(jobs)[k].status == which then old(jobs)[k].(status := Cancelled) else old(jobs)[k]
        invariant forall k :: j <= k < |jobs| ==> jobs[k] == old(jobs)[k]
      {
        if jobs[j].status == which {
          jobs := jobs[j := jobs[j].(status := Cancelled)];
        }
      }
    }

    method Close()
      modifies this
      ensures Snapshot() == P.CloseSession(old(Snapshot()))
    {
      status, desired, closed := Closed, WantClosed, true;
      for i := 0 to |agents|
        modifies this`agents
        invariant |agents| == |old(agents)|
        invariant forall k :: 0 <= k < i ==> agents[k] == old(agents)[k].(status := AgentOffline, desired := WantClosed)
        invariant forall k :: i <= k < |agents| ==> agents[k] == old(agents)[k]
      {
        agents := agents[i := agents[i].(status := AgentOffline, desired := WantClosed)];
      }
      CancelJobs(Pending);
      CancelJobs(InProgress);
    }

    method Pause()
      modifies this
      ensures Snapshot() == P.PauseSession(old(Snapshot()))
    {
      desired, status := WantPaused, Paused;
      for i := 0 to |agents|
        modifies this`agents
        invariant |agents| == |old(agents)|
        invariant forall k :: 0 <= k < i ==> agents[k] == old(agents)[k].(
          desired := WantPaused, status := if old(agents)[k].status == AgentBusy then AgentBusy else AgentPaused)
        invariant forall k :: i <= k < |agents| ==> agents[k] == old(agents)[k]
      {
        var agent := agents[i].(desired := WantPaused);
        if agent.status != AgentBusy {
          agent := agent.(status := AgentPaused);
        }
        agents := agents[i := agent];
      }
      CancelJobs(Pending);
    }

    // ---- messages and workers ----

    method EnqueueRestart(name: string) returns (reply: P.Reply)
      modifies this`jobs
      ensures (Snapshot(), reply) == P.EnqueueRestart(old(Snapshot()), name)
    {
      if FindAgent(agents, name).None? {
        return P.Refused(P.AgentNotFound);
      }
      reply := P.Granted(|jobs|);
      jobs := jobs + [P.NewJob(name, Restart, epoch)];
    }

    method RouteMessage(name: string, kind: JobKind) returns (reply: P.Reply)
      modifies this`jobs
      ensures (Snapshot(), reply) == P.RouteMessage(old(Snapshot()), name, kind)
    {
      if status == Closed {
        return P.Refused(P.SessionClosed);
      }
      if desired == WantPaused || status == Paused {
        return P.Refused(P.SessionPaused);
      }
      if FindAgent(agents, name).None? {
        return P.Refused(P.AgentNotFound);
      }
      reply := P.Granted(|jobs|);
      AddJob(name, kind);
    }

    method RefreshStartup(recent: set<string>)
      modifies this`status
      ensures Snapshot() == P.RefreshStartup(old(Snapshot()), recent)
    {
      if closed {
        return;
      }
      if desired == WantPaused {
        status := Paused;
        return;
      }
      if |agents| == 0 {
        status := Ready;
        return;
      }
      var attached := 0;
      for i := 0 to |agents|
        invariant 0 <= attached <= i
        invariant attached == i <==> forall k :: 0 <= k < i ==> P.Attached(agents[k], recent)
        invariant attached > 0 <==> exists k :: 0 <= k < i && P.Attached(agents[k], recent)
      {
        if P.Attached(agents[i], recent) {
          attached := attached + 1;
        }
      }
      if attached >= |agents| {
        status := if exists j :: 0 <= j < |jobs| && !Terminal(jobs[j]) then ResumingJobs else Ready;
      } else if attached > 0 {
        status := Launching;
      } else {
        status := WaitingForWorkers;
      }
    }

    method RegisterWorker(name: string, worker: string, recent: set<string>) returns (reply: P.Reply)
      modifies this
      ensures (Snapshot(), reply) == P.RegisterWorker(old(Snapshot()), name, worker, recent)
    {
      var found := FindAgent(agents, name);
      if found.None? {
        return P.Refused(P.AgentNotFound);
      }
      var i := found.value;
      agents := agents[i := agents[i].(worker := Some(worker))];
      agents := agents[i := agents[i].(status := if desired == WantPaused then AgentPaused else AgentIdle)];
      status := if desired == WantPaused then Paused else Launching;
      assert agents == old(agents)[i := agents[i]];
      RefreshStartup(recent + {name});
      reply := P.Applied;
    }

    method Heartbeat(name: string, worker: string, beat: AgentStatus, recent: set<string>) returns (reply: P.Reply)
      modifies this
      ensures (Snapshot(), reply) == P.Heartbeat(old(Snapshot()), name, worker, beat, recent)
    {
      var found := FindAgent(agents, name);
      if found.None? {
        return P.Refused(P.AgentNotFound);
      }
      var i := found.value;
      agents := agents[i := agents[i].(worker := Some(worker))];
      agents := agents[i := agents[i].(status :=
        if agents[i].desired == WantPaused && beat != AgentBusy then AgentPaused else beat)];
      assert agents == old(agents)[i := agents[i]];
      RefreshStartup(recent + {name});
      reply := P.Applied;
    }

    // ---- claiming ----

    method SetStatus(i: nat, st: AgentStatus)
      requires i < |agents|
      modifies this`agents
      ensures Snapshot() == P.SetAgent(old(Snapshot()), i, st)
    {
      agents := agents[i := agents[i].(status := st)];
    }

    /** Whether task t may start next to the tasks in progress. */
    method CanSelfClaim(t: nat) returns (free: bool)
      requires t < |tasks|
      ensures free <==> P.CanSelfClaim(tasks, t)
    {
      for u := 0 to |tasks|
        invariant forall k :: 0 <= k < u && k != t ==>
          tasks[k].state == TaskInProgress ==> !P.ScopesClash(tasks[t], tasks[k])
      {
        if u != t && tasks[u].state == TaskInProgress {
          var other := tasks[u];
          if tasks[t].semantic.Some? && tasks[t].semantic.value != "" && tasks[t].semantic == other.semantic {
            return false;
          }
          if tasks[t].files * other.files != {} {
            return false;
          }
        }
      }
      free := true;
    }

    /** The first admissible handoff, if its task is ready. */
    method FindReadyHandoff(i: nat) returns (found: Option<nat>)
      requires i < |agents|
      ensures found == P.ReadyHandoff(Snapshot(), agents[i])
    {
      var a := agents[i];
      ghost var s := Snapshot();
      for h := 0 to |handoffs|
        invariant forall k :: 0 <= k < h ==> !P.Admissible(s, a, handoffs[k])
      {
        var c := handoffs[h];
        if c.state == Queued && c.epoch == epoch && (c.target == a.name || c.targetRole in {a.role, a.name}) && c.task < |tasks| {
          var free := CanSelfClaim(c.task);
          if free {
            assert P.Admissible(s, a, c);
            var task := tasks[c.task];
            return if ReadyState(task.state) && task.epoch == epoch then Some(h) else None;
          }
        }
      }
      found := None;
    }

    method ClaimPending(i: nat, j: nat, worker: string) returns (reply: P.Reply)
      requires i < |agents| && j < |jobs|
      modifies this
      ensures (Snapshot(), reply) == P.ClaimPending(old(Snapshot()), i, j, worker)
    {
      var job := jobs[j].(status := InProgress, worker := Some(worker), epoch := epoch);
      if job.lease.None? {
        job := job.(lease := Some(nextLease));
        nextLease := nextLease + 1;
      }
      jobs := jobs[j := job];
      SetStatus(i, AgentBusy);
      reply := P.Granted(j);
    }

    method ClaimHandoff(i: nat, k: nat, worker: string) returns (reply: P.Reply)
      requires i < |agents| && k < |handoffs| && handoffs[k].task < |tasks|
      modifies this
      ensures (Snapshot(), reply) == P.ClaimHandoff(old(Snapshot()), i, k, worker)
    {
      var lease := nextLease;
      nextLease := nextLease + 1;
      var t := handoffs[k].task;
      var j := |jobs|;
      var kind := if tasks[t].role == "verification" then Verification else HandoffWork;
      jobs := jobs + [Job(agents[i].name, kind, InProgress, Some(t), Some(k), epoch, tasks[t].revision, Some(lease), Some(worker))];
      tasks := tasks[t := tasks[t].(
        state := TaskInProgress, lease := Some(lease), worker := Some(worker), assignee := Some(agents[i].name))];
      handoffs := handoffs[k := handoffs[k].(state := Claimed, claimedBy := Some(j))];
      SetStatus(i, AgentBusy);
      reply := P.Granted(j);
    }

    method ClaimSweep(i: nat, worker: string) returns (reply: P.Reply)
      requires i < |agents|
      modifies this
      ensures (Snapshot(), reply) == P.ClaimSweep(old(Snapshot()), i, worker)
    {
      reply := P.Granted(|jobs|);
      jobs := jobs + [Job(agents[i].name, CurationSweep, InProgress, None, None, epoch, 0, Some(nextLease), Some(worker))];
      nextLease := nextLease + 1;
      SetStatus(i, AgentBusy);
    }

    method ClaimWhenFree(i: nat, worker: string, sweep: P.Sweep) returns (reply: P.Reply)
      requires i < |agents|
      modifies this
      ensures (Snapshot(), reply) == P.ClaimWhenFree(old(Snapshot()), i, worker, sweep)
    {
      if |Running(jobs)| >= cap && !IsCurator(agents[i]) {
        SetStatus(i, AgentIdle);
        return P.NoWork;
      }
      var pending := OldestPending(jobs, agents[i].name);
      if pending.Some? {
        reply := ClaimPending(i, pending.value, worker);
        return;
      }
      var ready := FindReadyHandoff(i);
      if ready.Some? {
        reply := ClaimHandoff(i, ready.value, worker);
        return;
      }
      if IsCurator(agents[i]) {
        if sweep == P.NoReason {
          return P.Refused(P.SweepAborted);
        }
        if sweep.partialAttachment || P.OthersBusy(agents) {
          reply := ClaimSweep(i, worker);
          return;
        }
      }
      SetStatus(i, AgentIdle);
      reply := P.NoWork;
    }

    /** Put the job of a replaced worker back in line, then claim; a refused claim undoes both. */
    method ClaimReplacing(i: nat, j: nat, worker: string, sweep: P.Sweep) returns (reply: P.Reply)
      requires i < |agents| && j < |jobs|
      modifies this
      ensures var out := P.ClaimWhenFree(P.Recover(old(Snapshot()), j), i, worker, sweep);
        reply == out.1 && Snapshot() == if reply.Refused? then old(Snapshot()) else out.0
    {
      var before := jobs;
      jobs := jobs[j := jobs[j].(status := Pending, worker := None)];
      assert Snapshot() == P.Recover(old(Snapshot()), j);
      reply := ClaimWhenFree(i, worker, sweep);
      if reply.Refused? {
        jobs := before;
      }
    }

    method ClaimNextJob(name: string, worker: string, sweep: P.Sweep) returns (reply: P.Reply)
      modifies this
      ensures (Snapshot(), reply) == P.ClaimNextJob(old(Snapshot()), name, worker, sweep)
    {
      if status == Closed {
        return P.NoWork;
      }
      var found := FindAgent(agents, name);
      if found.None? {
        return P.Refused(P.AgentNotFound);
      }
      var i := found.value;
      if desired == WantPaused || status in {Paused, AwaitingLauncher, WakingExecutionPlane} {
        if desired == WantPaused {
          SetStatus(i, AgentPaused);
        }
        return P.NoWork;
      }
      var active := ActiveJob(jobs, name);
      if active.None? {
        reply := ClaimWhenFree(i, worker, sweep);
      } else if P.Orphaned(agents[i], jobs[active.value], worker) {
        reply := ClaimReplacing(i, active.value, worker, sweep);
      } else {
        SetStatus(i, AgentBusy);
        reply := P.NoWork;
      }
    }

    // ---- following up on a finished job ----

    method AddJob(name: string, kind: JobKind)
      modifies this`jobs
      ensures Snapshot() == P.AddJob(old(Snapshot()), name, kind)
    {
      jobs := jobs + [P.NewJob(name, kind, epoch)];
    }

    /** Supersede the live handoffs of task t. */
    method SupersedeLive(t: nat)
      modifies this`handoffs
      ensures |handoffs| == |old(handoffs)|
      ensures forall k :: 0 <= k < |handoffs| ==> handoffs[k] == P.Retire(old(handoffs)[k], t)
    {
      for h := 0 to |handoffs|
        invariant |handoffs| == |old(handoffs)|
        invariant forall k :: 0 <= k < h ==> handoffs[k] == P.Retire(old(handoffs)[k], t)
        invariant forall k :: h <= k < |handoffs| ==> handoffs[k] == old(handoffs)[k]
      {
        if handoffs[h].task == t && Live(handoffs[h]) {
          handoffs := handoffs[h := handoffs[h].(state := Superseded)];
        }
      }
    }

    method Enqueue(t: nat, source: string, role: string, r: HandoffRequest)
      requires t < |tasks|
      modifies this`handoffs
      ensures Snapshot() == P.Enqueue(old(Snapshot()), t, source, role, r)
    {
      SupersedeLive(t);
      assert handoffs == Apply(old(handoffs), (h: Handoff) => P.Retire(h, t));
      handoffs := handoffs + [Handoff(t, source, r.target, role, Queued, tasks[t].revision, epoch, r.body, None)];
    }

    /** Hand the known task t over and queue its handoff. */
    method Rehand(t: nat, source: string, role: string, r: HandoffRequest)
      requires t < |tasks|
      modifies this`tasks, this`handoffs
      ensures var s := old(Snapshot());
        Snapshot() == P.Enqueue(s.(tasks := s.tasks[t := P.Rehanded(s, s.tasks[t], source, role, r)]), t, source, role, r)
    {
      tasks := tasks[t := tasks[t].(
        role := role, assignee := Some(r.target), source := source, body := r.body, semantic := r.semantic,
        files := r.files, state := TaskReady, revision := tasks[t].revision + 1, epoch := epoch,
        lease := None, worker := None)];
      Enqueue(t, source, role, r);
    }

    method QueueHandoff(source: string, r: HandoffRequest) returns (queued: bool)
      requires FindAgent(agents, r.target).Some?
      modifies this`tasks, this`handoffs
      ensures (Snapshot(), queued) == P.QueueHandoff(old(Snapshot()), source, r)
    {
      var role := agents[FindAgent(agents, r.target).value].role;
      var key := P.KeyFor(tasks, r);
      var known := FindTask(tasks, key);
      if known.None? {
        tasks := tasks + [Task(key, role, Some(r.target), source, TaskReady, 1, epoch, None, None, r.body, r.semantic, r.files)];
        Enqueue(|tasks| - 1, source, role, r);
        return true;
      }
      if P.Duplicate(Snapshot(), known.value, r) {
        return false;
      }
      Rehand(known.value, source, role, r);
      queued := true;
    }

    method QueueHandoffs(source: string, rs: seq<HandoffRequest>)
      requires P.KnownTargets(agents, rs)
      modifies this`tasks, this`handoffs, this`jobs
      ensures Snapshot() == P.QueueHandoffs(old(Snapshot()), source, rs)
    {
      var details := false;
      for k := 0 to |rs|
        modifies this`tasks, this`handoffs
        invariant (Snapshot(), details) == P.QueueEach(old(Snapshot()), source, rs[..k])
      {
        var queued := QueueHandoff(source, rs[k]);
        details := details || queued;
        assert rs[..k + 1][..k] == rs[..k];
      }
      assert rs[..|rs|] == rs;
      if details {
        QueueCuratorEvent(source);
      }
    }

    method QueueCuratorEvent(source: string)
      modifies this`jobs
      ensures Snapshot() == P.QueueCuratorEvent(old(Snapshot()), source)
    {
      var curator := FindCurator(agents);
      if curator.None? {
        return;
      }
      var name := agents[curator.value].name;
      if Lower(source) != Lower(name) && !HasOpenJob(jobs, name, {CurationEvent, CurationSweep}) {
        AddJob(name, CurationEvent);
      }
    }

    method AddDiscussionJobs(names: seq<string>)
      modifies this`jobs
      ensures Snapshot() == P.AddJobs(old(Snapshot()), names, Discussion)
    {
      var n := |jobs|;
      for i := 0 to |names|
        invariant |jobs| == n + i && jobs[..n] == old(jobs)
        invariant forall k :: 0 <= k < i ==> jobs[n + k] == P.NewJob(names[k], Discussion, epoch)
      {
        AddJob(names[i], Discussion);
      }
      assert jobs == P.AddJobs(old(Snapshot()), names, Discussion).jobs;
    }

    method QueueDiscussions(source: string, ds: seq<DiscussRequest>)
      modifies this`jobs
      ensures Snapshot() == P.QueueDiscussions(old(Snapshot()), source, ds)
    {
      var details := AddAddressees(ds);
      if details {
        QueueCuratorEvent(source);
      } else {
        assert jobs == old(jobs);
      }
    }

    /** A discussion job for every addressee; whether there was one. */
    method AddAddressees(ds: seq<DiscussRequest>) returns (details: bool)
      modifies this`jobs
      ensures Snapshot() == P.AddJobs(old(Snapshot()), P.AllAddressees(ds), Discussion)
      ensures details <==> P.AllAddressees(ds) != []
    {
      details := false;
      ghost var s := Snapshot();
      AddNoJobs(s);
      for k := 0 to |ds|
        invariant Snapshot() == P.AddJobs(s, P.AllAddressees(ds[..k]), Discussion)
        invariant details <==> P.AllAddressees(ds[..k]) != []
      {
        assert ds[..k + 1][..k] == ds[..k];
        var names := P.Addressees(ds[k]);
        AddMoreJobs(s, P.AllAddressees(ds[..k]), names);
        AddDiscussionJobs(names);
        details := details || names != [];
      }
      assert ds[..|ds|] == ds;
    }

    method QueueRepair(source: string, rejected: seq<Rejection>)
      modifies this`jobs
      ensures Snapshot() == P.QueueRepair(old(Snapshot()), source, rejected)
    {
      var planner := FindPlanner(agents);
      if rejected == [] || planner.None? {
        return;
      }
      var name := agents[planner.value].name;
      if Lower(source) != Lower(name) && !HasOpenJob(jobs, name, {Orchestration, Routing, Recovery, HandoffRepair}) {
        AddJob(name, HandoffRepair);
      }
    }

    method QueueRecovery(failed: string, kind: JobKind)
      modifies this`jobs
      ensures Snapshot() == P.QueueRecovery(old(Snapshot()), failed, kind)
    {
      if Lower(failed) == "planner" || kind !in {HandoffWork, Verification} {
        return;
      }
      var planner := FindPlanner(agents);
      if planner.None? {
        return;
      }
      var name := agents[planner.value].name;
      if !HasOpenJob(jobs, name, {Recovery}) {
        AddJob(name, Recovery);
      }
    }

    /** Set the task of a finished job and end its handoff. */
    method SyncTask(job: Job, next: TaskState, bump: bool, ended: HandoffState)
      requires job.task.Some? && job.task.value < |tasks|
      modifies this`tasks, this`handoffs
      ensures tasks == old(tasks)[job.task.value := old(tasks)[job.task.value].(
        state := next, lease := None, worker := None,
        revision := old(tasks)[job.task.value].revision + if bump then 1 else 0)]
      ensures handoffs == P.CloseHandoff(old(handoffs), job.handoff, ended)
    {
      var t := job.task.value;
      tasks := tasks[t := tasks[t].(state := next)];
      if bump {
        tasks := tasks[t := tasks[t].(revision := tasks[t].revision + 1)];
      }
      tasks := tasks[t := tasks[t].(lease := None, worker := None)];
      if job.handoff.Some? && job.handoff.value < |handoffs| && Live(handoffs[job.handoff.value]) {
        handoffs := handoffs[job.handoff.value := handoffs[job.handoff.value].(state := ended)];
      }
    }

    method SyncCompleted(job: Job, question: bool, rs: seq<HandoffRequest>)
      modifies this`tasks, this`handoffs
      ensures Snapshot() == P.SyncCompleted(old(Snapshot()), job, question, rs)
    {
      if job.task.None? || job.task.value >= |tasks| {
        return;
      }
      var task := tasks[job.task.value];
      var again := P.SameTask(rs, task.key);
      var next := TaskDone;
      if again {
        next := if ReadyState(task.state) then task.state else TaskReady;
      } else if question {
        next := TaskBlocked;
      }
      SyncTask(job, next, !again, Consumed);
    }

    method SyncFailed(job: Job)
      modifies this`tasks, this`handoffs
      ensures Snapshot() == P.SyncFailed(old(Snapshot()), job)
    {
      if job.task.Some? && job.task.value < |tasks| {
        SyncTask(job, TaskFailed, true, HandoffFailed);
      }
    }

    // ---- callbacks ----

    /** Judge a completion's handoff blocks in text order, up to the limit. */
    method ExtractHandoffs(source: string, blocks: seq<HandoffBlock>)
      returns (accepted: seq<HandoffRequest>, rejected: seq<Rejection>)
      ensures Extracted(accepted, rejected) == ControlBlocks.ExtractHandoffs(agents, source, blocks)
    {
      accepted, rejected := [], [];
      ghost var roster := agents;
      ghost var judge := (b: HandoffBlock) => JudgeHandoff(roster, source, b);
      for k := 0 to |blocks|
        invariant Extracted(accepted, rejected) == Collect(blocks[..k], judge, MAX_HANDOFFS_PER_COMPLETION)
      {
        assert blocks[..k + 1][..k] == blocks[..k];
        if |accepted| >= MAX_HANDOFFS_PER_COMPLETION {
          rejected := rejected + [OverLimit];
        } else {
          match JudgeHandoff(agents, source, blocks[k])
          case Accept(r) => accepted := accepted + [r];
          case Reject(why) => rejected := rejected + [why];
        }
      }
      assert blocks[..|blocks|] == blocks;
      SameCollect(agents, source, blocks, judge);
    }

    static lemma {:induction false} SameCollect(
      agents: seq<Agent>, source: string, blocks: seq<HandoffBlock>, judge: HandoffBlock -> Verdict<HandoffRequest>)
      requires forall b :: judge(b) == JudgeHandoff(agents, source, b)
      ensures Collect(blocks, judge, MAX_HANDOFFS_PER_COMPLETION) == ControlBlocks.ExtractHandoffs(agents, source, blocks)
    {
      if |blocks| > 0 {
        SameCollect(agents, source, blocks[..|blocks| - 1], judge);
      }
    }

    method FinishJob(j: nat, st: JobStatus, i: nat)
      requires j < |jobs| && i < |agents|
      modifies this`jobs, this`agents
      ensures Snapshot() == P.FinishJob(old(Snapshot()), j, st, i)
    {
      jobs := jobs[j := jobs[j].(status := st)];
      SetStatus(i, if desired == WantPaused then AgentPaused else AgentIdle);
    }

    method FailJob(c: P.Callback) returns (reply: P.Reply)
      modifies this
      ensures (Snapshot(), reply) == P.FailJob(old(Snapshot()), c)
    {
      reply := Admit(c);
      if reply != P.Applied {
        return;
      }
      var job := jobs[c.job];
      FinishJob(c.job, Failed, FindAgent(agents, c.agent).value);
      SyncFailed(job);
      QueueRecovery(c.agent, job.kind);
    }

    /** The checks every callback passes before it may change a row. */
    method Admit(c: P.Callback) returns (reply: P.Reply)
      ensures reply == P.Admit(Snapshot(), c)
    {
      if c.job >= |jobs| || jobs[c.job].agent != c.agent {
        return P.Refused(P.JobNotFound);
      }
      var job := jobs[c.job];
      if job.worker.Some? && job.worker.value != c.worker {
        return P.Refused(P.NotOwner);
      }
      if FindAgent(agents, c.agent).None? {
        return P.Refused(P.AgentNotFound);
      }
      if Terminal(job) {
        return P.Ignored;
      }
      if c.epoch.Some? && job.epoch != c.epoch.value {
        return P.Ignored;
      }
      if job.epoch != epoch {
        return P.Ignored;
      }
      if job.lease.Some? && c.lease.Some? && job.lease != c.lease {
        return P.Ignored;
      }
      if job.revision != 0 && c.revision.Some? && job.revision != c.revision.value {
        return P.Ignored;
      }
      reply := P.Applied;
    }

    method CompleteJob(c: P.Callback, out: P.Output) returns (reply: P.Reply)
      modifies this
      ensures (Snapshot(), reply) == P.CompleteJob(old(Snapshot()), c, out)
    {
      reply := Admit(c);
      if reply != P.Applied {
        return;
      }
      var job := jobs[c.job];
      ghost var s := Snapshot();
      var accepted, rejected := ExtractHandoffs(c.agent, out.handoffs);
      var talks := ExtractDiscussions(agents, c.agent, out.discussions);
      FinishJob(c.job, Completed, FindAgent(agents, c.agent).value);
      assert Snapshot() == P.MarkCompleted(s, c, out);
      assert accepted == P.AcceptedHandoffs(s, c, out).accepted;
      QueueHandoffs(c.agent, accepted);
      QueueDiscussions(c.agent, talks.accepted);
      QueueRepair(c.agent, rejected);
      SyncCompleted(job, out.question, accepted);
    }
  }
}
