/** The orchestration protocol as functions on the rows of one session
    (nas_bridge/app/session_service.py).  Every function is one committed transaction; a refused
    transaction leaves the rows as they were. */
module Protocol {
  import opened Text
  import opened Rows
  import opened ControlBlocks
  import TaskKeys

  datatype Refusal = AgentNotFound | JobNotFound | NotOwner | SessionClosed | SessionPaused | SweepAborted

  datatype Reply = Granted(job: nat) | NoWork | Applied | Ignored | Refused(why: Refusal)

  /** What the curator sweep finds: no reason at all, or a reason, which may be a partial attachment. */
  datatype Sweep = NoReason | Reason(partialAttachment: bool)

  // ---- adding jobs and touching agents ----

  function NewJob(agent: string, kind: JobKind, epoch: nat): Job
  {
    Job(agent, kind, Pending, None, None, epoch, 0, None, None)
  }

  function AddJob(s: Session, agent: string, kind: JobKind): Session
  {
    s.(jobs := s.jobs + [NewJob(agent, kind, s.epoch)])
  }

  function SetAgent(s: Session, i: nat, status: AgentStatus): (r: Session)
    requires i < |s.agents|
  {
    s.(agents := s.agents[i := s.agents[i].(status := status)])
  }

  function EnqueueRestart(s: Session, name: string): (Session, Reply)
  {
    if FindAgent(s.agents, name).None? then (s, Refused(AgentNotFound))
    else (AddJob(s, name, Restart), Granted(|s.jobs|))
  }

  /** route_discord_message once routing has picked an agent and a job kind. */
  function RouteMessage(s: Session, name: string, kind: JobKind): (Session, Reply)
  {
    if s.status == Closed then (s, Refused(SessionClosed))
    else if s.desired == WantPaused || s.status == Paused then (s, Refused(SessionPaused))
    else if FindAgent(s.agents, name).None? then (s, Refused(AgentNotFound))
    else (AddJob(s, name, kind), Granted(|s.jobs|))
  }

  // ---- workers attaching ----

  /** recent names the agents whose last heartbeat is within the grace period. */
  predicate Attached(a: Agent, recent: set<string>)
  {
    (a.worker.Some? && a.worker.value != "") || a.name in recent
  }

  function RefreshStartup(s: Session, recent: set<string>): Session
  {
    if s.closed then s
    else if s.desired == WantPaused then s.(status := Paused)
    else if |s.agents| == 0 then s.(status := Ready)
    else if forall i :: 0 <= i < |s.agents| ==> Attached(s.agents[i], recent) then
      s.(status := if exists j :: 0 <= j < |s.jobs| && !Terminal(s.jobs[j]) then ResumingJobs else Ready)
    else if exists i :: 0 <= i < |s.agents| && Attached(s.agents[i], recent) then s.(status := Launching)
    else s.(status := WaitingForWorkers)
  }

  function RegisterWorker(s: Session, name: string, worker: string, recent: set<string>): (Session, Reply)
  {
    match FindAgent(s.agents, name)
    case None => (s, Refused(AgentNotFound))
    case Some(i) =>
      var a := s.agents[i].(worker := Some(worker), status := if s.desired == WantPaused then AgentPaused else AgentIdle);
      var st := if s.desired == WantPaused then Paused else Launching;
      (RefreshStartup(s.(agents := s.agents[i := a], status := st), recent + {name}), Applied)
  }

  function Heartbeat(s: Session, name: string, worker: string, status: AgentStatus, recent: set<string>): (Session, Reply)
  {
    match FindAgent(s.agents, name)
    case None => (s, Refused(AgentNotFound))
    case Some(i) =>
      var st := if s.agents[i].desired == WantPaused && status != AgentBusy then AgentPaused else status;
      var a := s.agents[i].(worker := Some(worker), status := st);
      (RefreshStartup(s.(agents := s.agents[i := a]), recent + {name}), Applied)
  }

  // ---- claiming ----

  /** An in-progress job whose worker has been replaced by the one now claiming. */
  predicate Orphaned(a: Agent, j: Job, worker: string)
  {
    j.worker.Some? && j.worker.value != worker && a.worker == Some(worker)
  }

  function Recover(s: Session, j: nat): Session
    requires j < |s.jobs|
  {
    s.(jobs := s.jobs[j := s.jobs[j].(status := Pending, worker := None)])
  }

  predicate ScopesClash(a: Task, b: Task)
  {
    || (a.semantic.Some? && b.semantic.Some? && a.semantic.value != "" && a.semantic == b.semantic)
    || a.files * b.files != {}
  }

  /** No other in-progress task shares the task's semantic scope or one of its files. */
  predicate CanSelfClaim(tasks: seq<Task>, t: nat)
    requires t < |tasks|
  {
    forall u :: 0 <= u < |tasks| && u != t && tasks[u].state == TaskInProgress ==> !ScopesClash(tasks[t], tasks[u])
  }

  /** A queued handoff of the current epoch meant for the agent, whose task may start now. */
  predicate Admissible(s: Session, a: Agent, h: Handoff)
  {
    && h.state == Queued && h.epoch == s.epoch
    && (h.target == a.name || h.targetRole in {a.role, a.name})
    && h.task < |s.tasks| && CanSelfClaim(s.tasks, h.task)
  }

  /** The handoff the agent may take: the earliest admissible one, and only if its task is ready. */
  function ReadyHandoff(s: Session, a: Agent): (r: Option<nat>)
    ensures r.Some? ==> r.value < |s.handoffs| && Admissible(s, a, s.handoffs[r.value])
  {
    match First(s.handoffs, (h: Handoff) => Admissible(s, a, h))
    case None => None
    case Some(k) =>
      var t := s.tasks[s.handoffs[k].task];
      if ReadyState(t.state) && t.epoch == s.epoch then Some(k) else None
  }

  function ClaimPending(s: Session, i: nat, j: nat, worker: string): (Session, Reply)
    requires i < |s.agents| && j < |s.jobs|
  {
    var was := s.jobs[j];
    var lease := if was.lease.Some? then was.lease else Some(s.nextLease);
    var job := was.(status := InProgress, worker := Some(worker), lease := lease, epoch := s.epoch);
    var s' := s.(jobs := s.jobs[j := job], nextLease := if was.lease.Some? then s.nextLease else s.nextLease + 1);
    (SetAgent(s', i, AgentBusy), Granted(j))
  }

  function ClaimHandoff(s: Session, i: nat, k: nat, worker: string): (Session, Reply)
    requires i < |s.agents| && k < |s.handoffs| && s.handoffs[k].task < |s.tasks|
  {
    var h, a := s.handoffs[k], s.agents[i];
    var t := s.tasks[h.task];
    var j := |s.jobs|;
    var kind := if t.role == "verification" then Verification else HandoffWork;
    var job := Job(a.name, kind, InProgress, Some(h.task), Some(k), s.epoch, t.revision, Some(s.nextLease), Some(worker));
    var task := t.(state := TaskInProgress, lease := Some(s.nextLease), worker := Some(worker), assignee := Some(a.name));
    var s' := s.(
      jobs := s.jobs + [job],
      tasks := s.tasks[h.task := task],
      handoffs := s.handoffs[k := h.(state := Claimed, claimedBy := Some(j))],
      nextLease := s.nextLease + 1);
    (SetAgent(s', i, AgentBusy), Granted(j))
  }

  function ClaimSweep(s: Session, i: nat, worker: string): (Session, Reply)
    requires i < |s.agents|
  {
    var job := Job(s.agents[i].name, CurationSweep, InProgress, None, None, s.epoch, 0, Some(s.nextLease), Some(worker));
    (SetAgent(s.(jobs := s.jobs + [job], nextLease := s.nextLease + 1), i, AgentBusy), Granted(|s.jobs|))
  }

  predicate OthersBusy(agents: seq<Agent>)
  {
    exists i :: 0 <= i < |agents| && agents[i].status == AgentBusy && !IsCurator(agents[i])
  }

  /** The claim of an agent without an in-progress job. */
  function ClaimWhenFree(s: Session, i: nat, worker: string, sweep: Sweep): (Session, Reply)
    requires i < |s.agents|
  {
    var a := s.agents[i];
    if |Running(s.jobs)| >= s.cap && !IsCurator(a) then (SetAgent(s, i, AgentIdle), NoWork)
    else match OldestPending(s.jobs, a.name)
      case Some(j) => ClaimPending(s, i, j, worker)
      case None =>
        match ReadyHandoff(s, a)
        case Some(k) => ClaimHandoff(s, i, k, worker)
        case None =>
          if !IsCurator(a) then (SetAgent(s, i, AgentIdle), NoWork)
          else match sweep
            case NoReason => (s, Refused(SweepAborted))
            case Reason(partial) =>
              if partial || OthersBusy(s.agents) then ClaimSweep(s, i, worker)
              else (SetAgent(s, i, AgentIdle), NoWork)
  }

  function ClaimNextJob(s: Session, name: string, worker: string, sweep: Sweep): (Session, Reply)
  {
    if s.status == Closed then (s, NoWork)
    else match FindAgent(s.agents, name)
      case None => (s, Refused(AgentNotFound))
      case Some(i) =>
        if s.desired == WantPaused || s.status in {Paused, AwaitingLauncher, WakingExecutionPlane} then
          (if s.desired == WantPaused then SetAgent(s, i, AgentPaused) else s, NoWork)
        else match ActiveJob(s.jobs, name)
          case None => ClaimWhenFree(s, i, worker, sweep)
          case Some(j) =>
            if Orphaned(s.agents[i], s.jobs[j], worker) then
              var out := ClaimWhenFree(Recover(s, j), i, worker, sweep);
              if out.1.Refused? then (s, out.1) else out
            else (SetAgent(s, i, AgentBusy), NoWork)
  }

  // ---- finishing ----

  /** The callback names the job's own epoch, lease and revision wherever it names them at all. */
  predicate Current(s: Session, j: Job, lease: Option<nat>, revision: Option<nat>, epoch: Option<nat>)
  {
    && (epoch.Some? ==> j.epoch == epoch.value)
    && j.epoch == s.epoch
    && (j.lease.Some? && lease.Some? ==> j.lease == lease)
    && (j.revision != 0 && revision.Some? ==> j.revision == revision.value)
  }

  /** What a worker sends back about a job. */
  datatype Callback = Callback(
    job: nat, agent: string, worker: string, lease: Option<nat>, revision: Option<nat>, epoch: Option<nat>)

  /** The fate of a callback before it changes any row. */
  function Admit(s: Session, c: Callback): (r: Reply)
    ensures r == Applied ==> c.job < |s.jobs| && s.jobs[c.job].agent == c.agent && FindAgent(s.agents, c.agent).Some?
  {
    if c.job >= |s.jobs| || s.jobs[c.job].agent != c.agent then Refused(JobNotFound)
    else
      var j := s.jobs[c.job];
      if j.worker.Some? && j.worker.value != c.worker then Refused(NotOwner)
      else if FindAgent(s.agents, c.agent).None? then Refused(AgentNotFound)
      else if Terminal(j) then Ignored
      else if !Current(s, j, c.lease, c.revision, c.epoch) then Ignored
      else Applied
  }

  function FinishJob(s: Session, j: nat, status: JobStatus, i: nat): Session
    requires j < |s.jobs| && i < |s.agents|
  {
    SetAgent(s.(jobs := s.jobs[j := s.jobs[j].(status := status)]), i,
             if s.desired == WantPaused then AgentPaused else AgentIdle)
  }

  // ---- queueing handoffs ----

  /** The task's key in the request when canonical, otherwise a newly allocated one. */
  function KeyFor(tasks: seq<Task>, r: HandoffRequest): string
  {
    if r.taskId.Some? && TaskKeys.Number(r.taskId.value).Some? then r.taskId.value
    else TaskKeys.Allocate(Apply(tasks, (t: Task) => t.key))
  }

  /** The request repeats a live handoff of the task: same target, same body, same epoch. */
  predicate Duplicate(s: Session, t: nat, r: HandoffRequest)
    requires t < |s.tasks|
  {
    var task := s.tasks[t];
    && task.epoch == s.epoch
    && (task.assignee.Some? && task.assignee.value != "" ==> Lower(task.assignee.value) == Lower(r.target))
    && task.body == r.body
    && task.state in {TaskReady, TaskInProgress, TaskReview, TaskVerify, TaskQueued}
    && exists h :: 0 <= h < |s.handoffs| && s.handoffs[h].task == t && s.handoffs[h].target == r.target && Live(s.handoffs[h])
  }

  function Rehanded(s: Session, task: Task, source: string, role: string, r: HandoffRequest): Task
  {
    task.(role := role, assignee := Some(r.target), source := source, body := r.body, semantic := r.semantic,
          files := r.files, state := TaskReady, revision := task.revision + 1, epoch := s.epoch,
          lease := None, worker := None)
  }

  function Retire(h: Handoff, t: nat): Handoff
  {
    if h.task == t && Live(h) then h.(state := Superseded) else h
  }

  /** Supersede the task's live handoffs and queue a new one. */
  function Enqueue(s: Session, t: nat, source: string, role: string, r: HandoffRequest): Session
    requires t < |s.tasks|
  {
    var retired := Apply(s.handoffs, (h: Handoff) => Retire(h, t));
    var h := Handoff(t, source, r.target, role, Queued, s.tasks[t].revision, s.epoch, r.body, None);
    s.(handoffs := retired + [h])
  }

  /** One accepted handoff request, and whether it queued anything. */
  function QueueHandoff(s: Session, source: string, r: HandoffRequest): (out: (Session, bool))
    requires FindAgent(s.agents, r.target).Some?
    ensures out.0.agents == s.agents
  {
    var role := s.agents[FindAgent(s.agents, r.target).value].role;
    var key := KeyFor(s.tasks, r);
    match FindTask(s.tasks, key)
    case None =>
      var task := Task(key, role, Some(r.target), source, TaskReady, 1, s.epoch, None, None, r.body, r.semantic, r.files);
      (Enqueue(s.(tasks := s.tasks + [task]), |s.tasks|, source, role, r), true)
    case Some(t) =>
      if Duplicate(s, t, r) then (s, false)
      else (Enqueue(s.(tasks := s.tasks[t := Rehanded(s, s.tasks[t], source, role, r)]), t, source, role, r), true)
  }

  predicate KnownTargets(agents: seq<Agent>, rs: seq<HandoffRequest>)
  {
    forall k :: 0 <= k < |rs| ==> FindAgent(agents, rs[k].target).Some?
  }

  /** All accepted requests in order, and whether any queued something. */
  function QueueEach(s: Session, source: string, rs: seq<HandoffRequest>): (out: (Session, bool))
    requires KnownTargets(s.agents, rs)
    ensures out.0.agents == s.agents
  {
    if |rs| == 0 then (s, false)
    else
      var before := QueueEach(s, source, rs[..|rs| - 1]);
      var last := QueueHandoff(before.0, source, rs[|rs| - 1]);
      (last.0, before.1 || last.1)
  }

  /** Wake the curator unless it caused the change or already has curation work open. */
  function QueueCuratorEvent(s: Session, source: string): Session
  {
    match FindCurator(s.agents)
    case None => s
    case Some(c) =>
      var name := s.agents[c].name;
      if Lower(source) == Lower(name) || HasOpenJob(s.jobs, name, {CurationEvent, CurationSweep}) then s
      else AddJob(s, name, CurationEvent)
  }

  function QueueHandoffs(s: Session, source: string, rs: seq<HandoffRequest>): Session
    requires KnownTargets(s.agents, rs)
  {
    var out := QueueEach(s, source, rs);
    if out.1 then QueueCuratorEvent(out.0, source) else out.0
  }

  // ---- discussions, repair and recovery ----

  /** The agents one discussion puts a job on. */
  function Addressees(d: DiscussRequest): seq<string>
  {
    match d.kind
    case OpenTalk => d.asks
    case ReplyTalk => if d.to.Some? then [d.to.value] else []
    case _ => []
  }

  function AllAddressees(ds: seq<DiscussRequest>): seq<string>
  {
    if |ds| == 0 then [] else AllAddressees(ds[..|ds| - 1]) + Addressees(ds[|ds| - 1])
  }

  function AddJobs(s: Session, names: seq<string>, kind: JobKind): Session
  {
    s.(jobs := s.jobs + Apply(names, (n: string) => NewJob(n, kind, s.epoch)))
  }

  function QueueDiscussions(s: Session, source: string, ds: seq<DiscussRequest>): Session
  {
    var names := AllAddressees(ds);
    if names == [] then s else QueueCuratorEvent(AddJobs(s, names, Discussion), source)
  }

  /** Ask the planner to repair refused handoffs. */
  function QueueRepair(s: Session, source: string, rejected: seq<Rejection>): Session
  {
    if rejected == [] then s
    else match FindPlanner(s.agents)
      case None => s
      case Some(p) =>
        var name := s.agents[p].name;
        if Lower(source) == Lower(name) || HasOpenJob(s.jobs, name, {Orchestration, Routing, Recovery, HandoffRepair})
        then s else AddJob(s, name, HandoffRepair)
  }

  /** Ask the planner to recover from a failed handoff or verification. */
  function QueueRecovery(s: Session, failed: string, kind: JobKind): Session
  {
    if Lower(failed) == "planner" || kind !in {HandoffWork, Verification} then s
    else match FindPlanner(s.agents)
      case None => s
      case Some(p) =>
        var name := s.agents[p].name;
        if HasOpenJob(s.jobs, name, {Recovery}) then s else AddJob(s, name, Recovery)
  }

  // ---- completing and failing ----

  function CloseHandoff(hs: seq<Handoff>, h: Option<nat>, st: HandoffState): (r: seq<Handoff>)
    ensures |r| == |hs|
  {
    if h.Some? && h.value < |hs| && Live(hs[h.value]) then hs[h.value := hs[h.value].(state := st)] else hs
  }

  predicate SameTask(rs: seq<HandoffRequest>, key: string)
  {
    exists k :: 0 <= k < |rs| && rs[k].taskId == Some(key)
  }

  function SyncCompleted(s: Session, job: Job, question: bool, rs: seq<HandoffRequest>): Session
  {
    match job.task
    case None => s
    case Some(t) =>
      if t >= |s.tasks| then s
      else
        var task := s.tasks[t];
        var again := SameTask(rs, task.key);
        var next :=
          if again then (if ReadyState(task.state) then task.state else TaskReady)
          else if question then TaskBlocked
          else TaskDone;
        var revision := if again then task.revision else task.revision + 1;
        s.(tasks := s.tasks[t := task.(state := next, revision := revision, lease := None, worker := None)],
           handoffs := CloseHandoff(s.handoffs, job.handoff, Consumed))
  }

  function SyncFailed(s: Session, job: Job): Session
  {
    match job.task
    case None => s
    case Some(t) =>
      if t >= |s.tasks| then s
      else
        var task := s.tasks[t];
        s.(tasks := s.tasks[t := task.(state := TaskFailed, revision := task.revision + 1, lease := None, worker := None)],
           handoffs := CloseHandoff(s.handoffs, job.handoff, HandoffFailed))
  }

  /** The output of a finished job: its control blocks and whether it asks the operator a question. */
  datatype Output = Output(handoffs: seq<HandoffBlock>, discussions: seq<DiscussBlock>, question: bool)

  /** Agents keep their names and roles. */
  predicate SameAgents(xs: seq<Agent>, ys: seq<Agent>)
  {
    |xs| == |ys| && forall i :: 0 <= i < |xs| ==> xs[i].name == ys[i].name && xs[i].role == ys[i].role
  }

  lemma AcceptedTargetsKnown(agents: seq<Agent>, later: seq<Agent>, source: string, blocks: seq<HandoffBlock>)
    requires SameAgents(agents, later)
    ensures KnownTargets(later, ExtractHandoffs(agents, source, blocks).accepted)
  {
    var rs := ExtractHandoffs(agents, source, blocks).accepted;
    forall k | 0 <= k < |rs| ensures FindAgent(later, rs[k].target).Some? {
      AcceptedHandoffIsSound(agents, source, blocks, rs[k]);
      var a :| a in agents && a.name == rs[k].target;
      var i :| 0 <= i < |agents| && agents[i] == a;
      assert later[i].name == rs[k].target;
    }
  }

  /** The requests a completion queues. */
  function AcceptedHandoffs(s: Session, c: Callback, out: Output): Extracted<HandoffRequest>
  {
    ExtractHandoffs(s.agents, c.agent, out.handoffs)
  }

  function MarkCompleted(s: Session, c: Callback, out: Output): (r: Session)
    requires Admit(s, c) == Applied
    ensures KnownTargets(r.agents, AcceptedHandoffs(s, c, out).accepted)
  {
    var r := FinishJob(s, c.job, Completed, FindAgent(s.agents, c.agent).value);
    AcceptedTargetsKnown(s.agents, r.agents, c.agent, out.handoffs);
    r
  }

  function CompleteJob(s: Session, c: Callback, out: Output): (Session, Reply)
  {
    var verdict := Admit(s, c);
    if verdict != Applied then (s, verdict)
    else
      var hs := AcceptedHandoffs(s, c, out);
      var ds := ExtractDiscussions(s.agents, c.agent, out.discussions);
      var queued := QueueHandoffs(MarkCompleted(s, c, out), c.agent, hs.accepted);
      var talked := QueueDiscussions(queued, c.agent, ds.accepted);
      var repaired := QueueRepair(talked, c.agent, hs.rejected);
      (SyncCompleted(repaired, s.jobs[c.job], out.question, hs.accepted), Applied)
  }

  function FailJob(s: Session, c: Callback): (Session, Reply)
  {
    var verdict := Admit(s, c);
    if verdict != Applied then (s, verdict)
    else
      var finished := FinishJob(s, c.job, Failed, FindAgent(s.agents, c.agent).value);
      (QueueRecovery(SyncFailed(finished, s.jobs[c.job]), c.agent, s.jobs[c.job].kind), Applied)
  }

  // ---- session-wide operations ----

  function Cancel(j: Job): Job
  {
    if Terminal(j) then j else j.(status := Cancelled)
  }

  function ResetTask(t: Task, epoch: nat): Task
  {
    var st := if t.state in {TaskInProgress, TaskReview, TaskVerify, TaskReady} then TaskReady else t.state;
    t.(state := st, lease := None, worker := None, epoch := epoch)
  }

  function ResetHandoff(h: Handoff, epoch: nat): Handoff
  {
    h.(state := if h.state == Claimed then Queued else h.state, epoch := epoch)
  }

  function ResetSession(s: Session): Session
  {
    var e := s.epoch + 1;
    s.(epoch := e,
       jobs := Apply(s.jobs, (j: Job) => Cancel(j)) + Apply(s.agents, (a: Agent) => NewJob(a.name, Restart, e)),
       tasks := Apply(s.tasks, (t: Task) => ResetTask(t, e)),
       handoffs := Apply(s.handoffs, (h: Handoff) => ResetHandoff(h, e)))
  }

  function CloseSession(s: Session): Session
  {
    s.(status := Closed, desired := WantClosed, closed := true,
       agents := Apply(s.agents, (a: Agent) => a.(status := AgentOffline, desired := WantClosed)),
       jobs := Apply(s.jobs, (j: Job) => Cancel(j)))
  }

  /** The pause workflow (nas_bridge/app/workflows/pause_workflow.py). */
  function PauseSession(s: Session): Session
  {
    s.(desired := WantPaused, status := Paused,
       agents := Apply(s.agents, (a: Agent) =>
         a.(desired := WantPaused, status := if a.status == AgentBusy then AgentBusy else AgentPaused)),
       jobs := Apply(s.jobs, (j: Job) => if j.status == Pending then j.(status := Cancelled) else j))
  }
}
