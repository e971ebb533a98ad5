/** The rows of one orchestration session (nas_bridge/app/models.py).  A row's id is its position in
    its table; rows are only ever appended, so positions also give the creation order. */
module Rows {
  import opened Text

  datatype SessionStatus =
    | Requested | WaitingForWorkers | Launching | ResumingJobs | Ready | Paused | AwaitingLauncher
    | WakingExecutionPlane | RestartingWorkers | FailedStart | Closed

  datatype Desired = WantReady | WantPaused | WantClosed

  datatype AgentStatus = AgentIdle | AgentBusy | AgentPaused | AgentOffline | AgentOther(text: string)

  datatype Agent = Agent(name: string, role: string, status: AgentStatus, desired: Desired, worker: Option<string>)

  datatype JobStatus = Pending | InProgress | Completed | Failed | Cancelled

  datatype JobKind =
    | Message | Orchestration | Routing | HandoffRepair | Recovery | Restart | HandoffWork | Verification
    | Discussion | CurationEvent | CurationSweep

  datatype Job = Job(
    agent: string, kind: JobKind, status: JobStatus, task: Option<nat>, handoff: Option<nat>,
    epoch: nat, revision: nat, lease: Option<nat>, worker: Option<string>)

  datatype TaskState =
    | TaskReady | TaskReview | TaskVerify | TaskInProgress | TaskBlocked | TaskQueued | TaskDone | TaskFailed

  datatype Task = Task(
    key: string, role: string, assignee: Option<string>, source: string, state: TaskState, revision: nat,
    epoch: nat, lease: Option<nat>, worker: Option<string>, body: string, semantic: Option<string>, files: set<string>)

  datatype HandoffState = Queued | Claimed | Consumed | Superseded | HandoffFailed

  datatype Handoff = Handoff(
    task: nat, source: string, target: string, targetRole: string, state: HandoffState, revision: nat,
    epoch: nat, body: string, claimedBy: Option<nat>)

  /** One session with all its rows.  nextLease is the next unused lease token; cap is the policy's
      max_parallel_agents. */
  datatype Session = Session(
    status: SessionStatus, desired: Desired, closed: bool, epoch: nat, cap: int,
    agents: seq<Agent>, jobs: seq<Job>, tasks: seq<Task>, handoffs: seq<Handoff>, nextLease: nat)

  predicate Terminal(j: Job)
  {
    j.status in {Completed, Failed, Cancelled}
  }

  predicate ReadyState(st: TaskState)
  {
    st in {TaskReady, TaskReview, TaskVerify}
  }

  /** A handoff still waiting for its work to be done. */
  predicate Live(h: Handoff)
  {
    h.state in {Queued, Claimed}
  }

  predicate IsCurator(a: Agent)
  {
    Lower(a.name) == "curator" || Contains(Lower(a.role), "coordination") || Contains(Lower(a.role), "curat")
  }

  function FindAgent(agents: seq<Agent>, name: string): (r: Option<nat>)
    ensures r.Some? ==> r.value < |agents| && agents[r.value].name == name
  {
    First(agents, (a: Agent) => a.name == name)
  }

  /** The planner: the agent so named, or else the first whose role plans. */
  function FindPlanner(agents: seq<Agent>): (r: Option<nat>)
    ensures r.Some? ==> r.value < |agents|
  {
    var named := First(agents, (a: Agent) => Lower(a.name) == "planner");
    if named.Some? then named else First(agents, (a: Agent) => Contains(Lower(a.role), "plan"))
  }

  /** The curator: the agent so named, or else the first whose role coordinates. */
  function FindCurator(agents: seq<Agent>): (r: Option<nat>)
    ensures r.Some? ==> r.value < |agents|
  {
    var named := First(agents, (a: Agent) => Lower(a.name) == "curator");
    if named.Some? then named
    else First(agents, (a: Agent) => Contains(Lower(a.role), "coordination") || Contains(Lower(a.role), "curat"))
  }

  /** The agent a control block names, ignoring case; the last one wins. */
  function AgentCalled(agents: seq<Agent>, name: string): (r: Option<string>)
    ensures r.Some? ==> exists a :: a in agents && a.name == r.value && Lower(a.name) == Lower(name)
    ensures r.None? ==> forall a :: a in agents ==> Lower(a.name) != Lower(name)
  {
    if |agents| == 0 then None
    else
      var last := agents[|agents| - 1];
      assert agents == agents[..|agents| - 1] + [last];
      if Lower(last.name) == Lower(name) then Some(last.name) else AgentCalled(agents[..|agents| - 1], name)
  }

  /** The in-progress jobs of the session. */
  function Running(jobs: seq<Job>): set<nat>
  {
    set j: nat | j < |jobs| && jobs[j].status == InProgress
  }

  function ActiveJob(jobs: seq<Job>, agent: string): (r: Option<nat>)
    ensures r.Some? ==> r.value < |jobs| && jobs[r.value].agent == agent && jobs[r.value].status == InProgress
    ensures r.None? ==> forall j :: 0 <= j < |jobs| && jobs[j].status == InProgress ==> jobs[j].agent != agent
  {
    First(jobs, (j: Job) => j.agent == agent && j.status == InProgress)
  }

  function OldestPending(jobs: seq<Job>, agent: string): (r: Option<nat>)
    ensures r.Some? ==> r.value < |jobs| && jobs[r.value].agent == agent && jobs[r.value].status == Pending
    ensures r.None? ==> forall j :: 0 <= j < |jobs| && jobs[j].agent == agent ==> jobs[j].status != Pending
  {
    First(jobs, (j: Job) => j.agent == agent && j.status == Pending)
  }

  /** Whether the agent has an unfinished job of one of the kinds. */
  predicate HasOpenJob(jobs: seq<Job>, agent: string, kinds: set<JobKind>)
  {
    exists j :: 0 <= j < |jobs| && jobs[j].agent == agent && jobs[j].kind in kinds && !Terminal(jobs[j])
  }

  function FindTask(tasks: seq<Task>, key: string): (r: Option<nat>)
    ensures r.Some? ==> r.value < |tasks| && tasks[r.value].key == key
    ensures r.None? ==> forall t :: 0 <= t < |tasks| ==> tasks[t].key != key
  {
    First(tasks, (t: Task) => t.key == key)
  }
}
