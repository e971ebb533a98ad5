/** Whom a claim serves: which handoff is started for which agent, said of the rows alone. */
module Serving {
  import opened Text
  import opened Rows
  import opened Protocol
  import opened Invariants
  import opened Runs
  import opened Guarantees
  import opened Claiming

  /** The handoff names the agent, or the agent's role or name is the role it is for. */
  predicate MeantFor(h: Handoff, a: Agent)
  {
    h.target == a.name || h.targetRole in {a.role, a.name}
  }

  /** The tasks name no file in common, and not the same semantic scope. */
  predicate Apart(a: Task, b: Task)
  {
    a.files !! b.files && (a.semantic == b.semantic ==> a.semantic.None? || a.semantic.value == "")
  }

  /** No other task in progress names the same semantic scope or one of the same files. */
  predicate Clear(tasks: seq<Task>, t: nat)
    requires t < |tasks|
  {
    forall u :: 0 <= u < |tasks| && u != t && tasks[u].state == TaskInProgress ==> Apart(tasks[t], tasks[u])
  }

  /** Handoff k waits for the agent: it is queued in this epoch, meant for it, and its task is clear. */
  ghost predicate Awaits(s: Session, a: Agent, k: nat)
  {
    && k < |s.handoffs| && s.handoffs[k].state == Queued && s.handoffs[k].epoch == s.epoch && MeantFor(s.handoffs[k], a)
    && s.handoffs[k].task < |s.tasks| && Clear(s.tasks, s.handoffs[k].task)
  }

  /** It is the first that does, and its task is ready to be worked on, reviewed or verified. */
  ghost predicate NextFor(s: Session, a: Agent, k: nat)
  {
    && Awaits(s, a, k) && (forall h: nat :: h < k ==> !Awaits(s, a, h))
    && s.tasks[s.handoffs[k].task].state in {TaskReady, TaskReview, TaskVerify}
    && s.tasks[s.handoffs[k].task].epoch == s.epoch
  }

  lemma ApartIff(a: Task, b: Task)
    ensures ScopesClash(a, b) <==> !Apart(a, b)
  {
    if a.files * b.files != {} {
      var f :| f in a.files * b.files;
      assert f in a.files && f in b.files;
    } else {
      forall f | f in a.files ensures f !in b.files { assert f !in a.files * b.files; }
    }
  }

  lemma ClearIff(tasks: seq<Task>, t: nat)
    requires t < |tasks|
    ensures CanSelfClaim(tasks, t) <==> Clear(tasks, t)
  {
    forall u | 0 <= u < |tasks| ensures ScopesClash(tasks[t], tasks[u]) <==> !Apart(tasks[t], tasks[u]) {
      ApartIff(tasks[t], tasks[u]);
    }
  }

  lemma AdmissibleIff(s: Session, a: Agent, k: nat)
    requires k < |s.handoffs|
    ensures Admissible(s, a, s.handoffs[k]) <==> Awaits(s, a, k)
  {
    if s.handoffs[k].task < |s.tasks| { ClearIff(s.tasks, s.handoffs[k].task); }
  }

  /** The scan finds exactly the next handoff. */
  lemma ReadyIffNext(s: Session, a: Agent, k: nat)
    ensures ReadyHandoff(s, a) == Some(k) <==> NextFor(s, a, k)
  {
    forall h: nat | h < |s.handoffs| ensures Admissible(s, a, s.handoffs[h]) <==> Awaits(s, a, h) { AdmissibleIff(s, a, h); }
  }

  /** The claim starts a new job for handoff k. */
  ghost predicate Starts(s: Session, out: (Session, Reply), k: nat)
  {
    out.1 == Granted(|s.jobs|) && |out.0.jobs| == |s.jobs| + 1 && out.0.jobs[|s.jobs|].handoff == Some(k)
  }

  lemma FreeStartsIff(s: Session, i: nat, worker: string, sweep: Sweep, k: nat)
    requires i < |s.agents|
    ensures var a := s.agents[i];
      Starts(s, ClaimWhenFree(s, i, worker, sweep), k)
      <==> OldestPending(s.jobs, a.name).None? && (IsCurator(a) || |Running(s.jobs)| < s.cap) && ReadyHandoff(s, a) == Some(k)
  {
  }

  /** After a recovery the recovered job is claimed again, so nothing new is started. */
  lemma RecoveredStartsNone(s: Session, i: nat, j: nat, worker: string, sweep: Sweep, k: nat)
    requires i < |s.agents| && ActiveJob(s.jobs, s.agents[i].name) == Some(j) && j < |s.jobs|
    ensures !Starts(s, ClaimWhenFree(Recover(s, j), i, worker, sweep), k)
  {
    var mid := Recover(s, j);
    assert mid.jobs[j].status == Pending && mid.jobs[j].agent == s.agents[i].name;
    FreeStartsIff(mid, i, worker, sweep, k);
  }

  lemma OpenWorkIff(s: Session, name: string)
    ensures HasOpenWork(s, name) <==> ActiveJob(s.jobs, name).Some? || OldestPending(s.jobs, name).Some?
  {
    if ActiveJob(s.jobs, name).None? { PendingIffOpen(s, name); }
  }

  /** A claim starts a job for handoff k exactly when the session serves, the agent has no unfinished job and room for
      one, and k is next for it. */
  lemma ClaimServesIff(s: Session, i: nat, worker: string, sweep: Sweep, k: nat)
    requires Inv(s) && i < |s.agents|
    ensures var a := s.agents[i];
      Starts(s, ClaimNextJob(s, a.name, worker, sweep), k)
      <==> && Serving(s) && !HasOpenWork(s, a.name) && (IsCurator(a) || |Running(s.jobs)| < s.cap)
           && NextFor(s, a, k)
  {
    var a := s.agents[i];
    OpenWorkIff(s, a.name);
    ReadyIffNext(s, a, k);
    match ActiveJob(s.jobs, a.name)
    case None =>
      WhenFree(s, i, worker, sweep, k);
      FreeStartsIff(s, i, worker, sweep, k);
    case Some(j) => WhenBusy(s, i, j, worker, sweep, k);
  }

  lemma WhenFree(s: Session, i: nat, worker: string, sweep: Sweep, k: nat)
    requires Inv(s) && i < |s.agents| && ActiveJob(s.jobs, s.agents[i].name).None?
    ensures Starts(s, ClaimNextJob(s, s.agents[i].name, worker, sweep), k)
      <==> Serving(s) && Starts(s, ClaimWhenFree(s, i, worker, sweep), k)
  {
    assert FindAgent(s.agents, s.agents[i].name) == Some(i);
  }

  lemma WhenBusy(s: Session, i: nat, j: nat, worker: string, sweep: Sweep, k: nat)
    requires Inv(s) && i < |s.agents| && ActiveJob(s.jobs, s.agents[i].name) == Some(j)
    ensures !Starts(s, ClaimNextJob(s, s.agents[i].name, worker, sweep), k)
  {
    assert FindAgent(s.agents, s.agents[i].name) == Some(i);
    RecoveredStartsNone(s, i, j, worker, sweep, k);
  }

  /** An agent without an unfinished job, without a handoff that is next for it and without a sweep gets nothing, and
      no row of work changes. */
  lemma NothingToServe(s: Session, i: nat, worker: string, sweep: Sweep)
    requires Inv(s) && i < |s.agents| && !HasOpenWork(s, s.agents[i].name)
    requires (forall k: nat :: !NextFor(s, s.agents[i], k)) && !(IsCurator(s.agents[i]) && SweepDue(s, sweep))
    ensures var out := ClaimNextJob(s, s.agents[i].name, worker, sweep);
      !out.1.Granted? && out.0.jobs == s.jobs && out.0.tasks == s.tasks && out.0.handoffs == s.handoffs
  {
    var a := s.agents[i];
    OpenWorkIff(s, a.name);
    if ReadyHandoff(s, a).Some? { ReadyIffNext(s, a, ReadyHandoff(s, a).value); }
    assert FindAgent(s.agents, a.name) == Some(i);
    FreeGetsNothing(s, i, worker, sweep);
  }

  lemma FreeGetsNothing(s: Session, i: nat, worker: string, sweep: Sweep)
    requires i < |s.agents| && OldestPending(s.jobs, s.agents[i].name).None? && ReadyHandoff(s, s.agents[i]).None?
    requires !(IsCurator(s.agents[i]) && SweepDue(s, sweep))
    ensures var out := ClaimWhenFree(s, i, worker, sweep);
      !out.1.Granted? && out.0.jobs == s.jobs && out.0.tasks == s.tasks && out.0.handoffs == s.handoffs
  {
  }

  /** r is s but for the status of agent i. */
  ghost predicate OnlyStatus(s: Session, r: Session, i: nat, status: AgentStatus)
  {
    i < |s.agents| && r == s.(agents := s.agents[i := s.agents[i].(status := status)])
  }

  lemma FreeUngranted(s: Session, i: nat, worker: string, sweep: Sweep)
    requires i < |s.agents| && !ClaimWhenFree(s, i, worker, sweep).1.Granted?
    ensures var out := ClaimWhenFree(s, i, worker, sweep);
      if IsCurator(s.agents[i]) && sweep.NoReason? then out == (s, Refused(SweepAborted))
      else out.1 == NoWork && OnlyStatus(s, out.0, i, AgentIdle)
  {
  }

  /** A claim that grants nothing shows why in the agent's status: paused when the session is to pause, busy while the
      agent's job is run by its worker, and otherwise idle; a curator whose sweep cannot be assembled changes nothing. */
  lemma UngrantedLeaves(s: Session, i: nat, worker: string, sweep: Sweep)
    requires Inv(s) && i < |s.agents| && !ClaimNextJob(s, s.agents[i].name, worker, sweep).1.Granted?
    ensures var a, out := s.agents[i], ClaimNextJob(s, s.agents[i].name, worker, sweep);
      if !Serving(s) then
        out.1 == NoWork
        && if s.status != Closed && s.desired == WantPaused then OnlyStatus(s, out.0, i, AgentPaused) else out.0 == s
      else if IsCurator(a) && sweep.NoReason? && ActiveJob(s.jobs, a.name).None? then out == (s, Refused(SweepAborted))
      else match ActiveJob(s.jobs, a.name)
        case None => out.1 == NoWork && OnlyStatus(s, out.0, i, AgentIdle)
        case Some(j) =>
          out.1 == NoWork
          && if j < |s.jobs| && s.jobs[j].worker != Some(worker) && a.worker == Some(worker)
             then OnlyStatus(Recover(s, j), out.0, i, AgentIdle) else OnlyStatus(s, out.0, i, AgentBusy)
  {
    var a := s.agents[i];
    assert FindAgent(s.agents, a.name) == Some(i);
    match ActiveJob(s.jobs, a.name)
    case None => if Serving(s) { FreeUngranted(s, i, worker, sweep); }
    case Some(j) =>
      assert JobRow(s.jobs[j], s.agents, s.epoch, s.nextLease);
      RecoverFreesOne(s, j);
      FreeGrantIff(Recover(s, j), i, worker, sweep);
      if Serving(s) && Orphaned(a, s.jobs[j], worker) { FreeUngranted(Recover(s, j), i, worker, sweep); }
  }

  /** Over every run no two tasks in progress name a common file or the same semantic scope. */
  lemma ApartOverRuns(start: Session, ops: seq<Op>, t: nat, u: nat)
    requires Created(start)
    ensures var tasks := Run(start, ops).tasks;
      t < |tasks| && u < |tasks| && t != u && tasks[t].state == TaskInProgress && tasks[u].state == TaskInProgress
      ==> Apart(tasks[t], tasks[u])
  {
    TasksOverRuns(start, ops);
    var tasks := Run(start, ops).tasks;
    if t < |tasks| && u < |tasks| && t != u { ApartIff(tasks[t], tasks[u]); }
  }
}
