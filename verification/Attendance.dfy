/** What attaching workers, posting work, pausing and closing leave of a session. */
module Attendance {
  import opened Text
  import opened Rows
  import opened Protocol
  import opened Claiming

  // ---- workers attaching ----

  /** The agent has a worker or was heard from. */
  ghost predicate Present(a: Agent, recent: set<string>)
  {
    (a.worker.Some? && a.worker.value != "") || a.name in recent
  }

  ghost predicate AllPresent(agents: seq<Agent>, recent: set<string>)
  {
    forall k :: 0 <= k < |agents| ==> Present(agents[k], recent)
  }

  ghost predicate SomePresent(agents: seq<Agent>, recent: set<string>)
  {
    exists k :: 0 <= k < |agents| && Present(agents[k], recent)
  }

  ghost predicate NothingOpen(jobs: seq<Job>)
  {
    forall j :: 0 <= j < |jobs| ==> jobs[j].status in {Completed, Failed, Cancelled}
  }

  /** What an open session shows: paused if it is to be; otherwise ready when all agents are present and no job is open,
      resuming when all are present and one is, launching when only some are, and waiting when none is. */
  ghost predicate ShowsAttendance(r: Session, recent: set<string>)
  {
    && (r.status == Paused <==> r.desired == WantPaused)
    && (r.desired != WantPaused ==>
          && (r.status == Ready <==> AllPresent(r.agents, recent) && (|r.agents| > 0 ==> NothingOpen(r.jobs)))
          && (r.status == ResumingJobs <==> |r.agents| > 0 && AllPresent(r.agents, recent) && !NothingOpen(r.jobs))
          && (r.status == Launching <==> SomePresent(r.agents, recent) && !AllPresent(r.agents, recent))
          && (r.status == WaitingForWorkers <==> |r.agents| > 0 && !SomePresent(r.agents, recent)))
  }

  lemma RefreshShows(s: Session, recent: set<string>)
    requires !s.closed
    ensures ShowsAttendance(RefreshStartup(s, recent), recent)
  {
    assert forall k :: 0 <= k < |s.agents| ==> (Attached(s.agents[k], recent) <==> Present(s.agents[k], recent));
    assert NothingOpen(s.jobs) <==> !exists j :: 0 <= j < |s.jobs| && !Terminal(s.jobs[j]);
    if |s.agents| > 0 && AllPresent(s.agents, recent) { assert Present(s.agents[0], recent); }
  }

  /** Only agent i and the session's status differ, and no work. */
  ghost predicate OnlyAgent(s: Session, r: Session, i: nat)
  {
    && i < |s.agents| && r == s.(agents := r.agents, status := r.status) && |r.agents| == |s.agents|
    && (forall k :: 0 <= k < |s.agents| && k != i ==> r.agents[k] == s.agents[k])
    && r.agents[i].name == s.agents[i].name && r.agents[i].role == s.agents[i].role && r.agents[i].desired == s.agents[i].desired
  }

  /** A worker that registers is attached to its agent, which is idle unless the session is to pause; an open session
      then shows who is present. */
  lemma RegisterAttaches(s: Session, name: string, worker: string, recent: set<string>, i: nat)
    requires FindAgent(s.agents, name) == Some(i)
    ensures var r := RegisterWorker(s, name, worker, recent).0;
      && OnlyAgent(s, r, i) && r.agents[i].worker == Some(worker)
      && r.agents[i].status == (if s.desired == WantPaused then AgentPaused else AgentIdle)
      && (!s.closed ==> ShowsAttendance(r, recent + {name}))
  {
    var a := s.agents[i].(worker := Some(worker), status := if s.desired == WantPaused then AgentPaused else AgentIdle);
    var mid := s.(agents := s.agents[i := a], status := if s.desired == WantPaused then Paused else Launching);
    if !s.closed { RefreshShows(mid, recent + {name}); }
  }

  /** A heartbeat attaches its worker and reports the agent's status; an agent that is to pause is paused unless busy. */
  lemma HeartbeatReports(s: Session, name: string, worker: string, status: AgentStatus, recent: set<string>, i: nat)
    requires FindAgent(s.agents, name) == Some(i)
    ensures var r := Heartbeat(s, name, worker, status, recent).0;
      && OnlyAgent(s, r, i) && r.agents[i].worker == Some(worker)
      && (r.agents[i].status == if status == AgentBusy || s.agents[i].desired != WantPaused then status else AgentPaused)
      && (!s.closed ==> ShowsAttendance(r, recent + {name}))
  {
    var st := if s.agents[i].desired == WantPaused && status != AgentBusy then AgentPaused else status;
    var mid := s.(agents := s.agents[i := s.agents[i].(worker := Some(worker), status := st)]);
    if !s.closed { RefreshShows(mid, recent + {name}); }
  }

  // ---- posting work ----

  /** r is s with one unstarted job for the agent. */
  ghost predicate OneMoreJob(s: Session, r: Session, name: string, kind: JobKind)
  {
    && r == s.(jobs := r.jobs) && |r.jobs| == |s.jobs| + 1 && r.jobs[..|s.jobs|] == s.jobs
    && var j := r.jobs[|s.jobs|];
      j.agent == name && j.kind == kind && j.status == Pending && j.epoch == s.epoch && j.task.None? && j.handoff.None?
      && j.lease.None? && j.worker.None?
  }

  /** A message becomes a job exactly when the session is neither closed nor paused and knows the agent. */
  lemma MessagePosted(s: Session, name: string, kind: JobKind)
    ensures var out := RouteMessage(s, name, kind);
      && (out.1.Granted? <==>
            s.status !in {Closed, Paused} && s.desired != WantPaused && exists k :: 0 <= k < |s.agents| && s.agents[k].name == name)
      && (if out.1.Granted? then OneMoreJob(s, out.0, name, kind) && out.1.job == |s.jobs| else out.0 == s)
  {
  }

  /** A restart is queued for every agent the session knows, whatever its status. */
  lemma RestartPosted(s: Session, name: string)
    ensures var out := EnqueueRestart(s, name);
      && (out.1.Granted? <==> exists k :: 0 <= k < |s.agents| && s.agents[k].name == name)
      && (if out.1.Granted? then OneMoreJob(s, out.0, name, Restart) && out.1.job == |s.jobs| else out.0 == s)
  {
  }

  // ---- pausing and closing ----

  /** A pause cancels what waits, leaves what runs, pauses the agents that are not busy, and nothing is handed out. */
  lemma PauseLeaves(s: Session)
    ensures var r := PauseSession(s);
      && r == s.(desired := WantPaused, status := Paused, agents := r.agents, jobs := r.jobs)
      && |r.jobs| == |s.jobs| && |r.agents| == |s.agents|
      && (forall j :: 0 <= j < |s.jobs| ==>
            r.jobs[j] == if s.jobs[j].status == Pending then s.jobs[j].(status := Cancelled) else s.jobs[j])
      && (forall i :: 0 <= i < |s.agents| ==>
            r.agents[i] == s.agents[i].(desired := WantPaused, status := if s.agents[i].status == AgentBusy then AgentBusy else AgentPaused))
      && !Serving(r)
  {
  }

  /** Closing cancels every unfinished job, sends every agent off and leaves tasks and handoffs as they were. */
  lemma CloseLeaves(s: Session)
    ensures var r := CloseSession(s);
      && r == s.(status := Closed, desired := WantClosed, closed := true, agents := r.agents, jobs := r.jobs)
      && |r.jobs| == |s.jobs| && |r.agents| == |s.agents|
      && (forall j :: 0 <= j < |s.jobs| ==>
            r.jobs[j] == if s.jobs[j].status.Pending? || s.jobs[j].status.InProgress? then s.jobs[j].(status := Cancelled) else s.jobs[j])
      && (forall i :: 0 <= i < |s.agents| ==> r.agents[i] == s.agents[i].(status := AgentOffline, desired := WantClosed))
      && !Serving(r)
  {
  }

  // ---- finishing ----

  /** A completion or failure frees its agent and no other: it is idle again, or paused if the session is to pause. */
  lemma FinishFrees(s: Session, c: Callback, out: Output, i: nat)
    requires Admit(s, c) == Applied && FindAgent(s.agents, c.agent) == Some(i)
    ensures var now := s.agents[i := s.agents[i].(status := if s.desired == WantPaused then AgentPaused else AgentIdle)];
      MarkCompleted(s, c, out).agents == now && FailJob(s, c).0.agents == now
  {
  }
}
