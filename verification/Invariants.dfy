/** What every reachable session satisfies, stated table by table. */
module Invariants {
  import opened Text
  import opened Rows
  import opened Protocol

  // ---- tasks ----

  /** A task has a lease token, and a worker, exactly while it is in progress. */
  ghost predicate TaskRow(t: Task, epoch: nat, nextLease: nat)
  {
    && t.epoch == epoch
    && (t.lease.Some? <==> t.state == TaskInProgress)
    && (t.worker.Some? <==> t.state == TaskInProgress)
    && (t.lease.Some? ==> t.lease.value < nextLease)
  }

  ghost predicate UniqueKeys(tasks: seq<Task>)
  {
    forall t, u :: 0 <= t < u < |tasks| ==> tasks[t].key != tasks[u].key
  }

  /** No two in-progress tasks share a semantic scope or a file. */
  ghost predicate Scopes(tasks: seq<Task>)
  {
    forall t, u :: 0 <= t < |tasks| && 0 <= u < |tasks| && t != u
      && tasks[t].state == TaskInProgress && tasks[u].state == TaskInProgress
      ==> !ScopesClash(tasks[t], tasks[u])
  }

  ghost predicate TasksOk(tasks: seq<Task>, epoch: nat, nextLease: nat)
  {
    && (forall t :: 0 <= t < |tasks| ==> TaskRow(tasks[t], epoch, nextLease))
    && UniqueKeys(tasks)
    && Scopes(tasks)
  }

  // ---- handoffs ----

  /** At most one live handoff per task. */
  ghost predicate OneLive(handoffs: seq<Handoff>)
  {
    forall h, k :: 0 <= h < k < |handoffs| && Live(handoffs[h]) && Live(handoffs[k])
      ==> handoffs[h].task != handoffs[k].task
  }

  lemma OneLiveEach(handoffs: seq<Handoff>, h: nat, k: nat)
    requires OneLive(handoffs) && h < |handoffs| && k < |handoffs| && h != k && Live(handoffs[h]) && Live(handoffs[k])
    ensures handoffs[h].task != handoffs[k].task
  {
    if h < k { assert handoffs[h].task != handoffs[k].task; } else { assert handoffs[k].task != handoffs[h].task; }
  }

  ghost predicate HandoffsOk(handoffs: seq<Handoff>, epoch: nat, taskCount: nat)
  {
    && (forall h :: 0 <= h < |handoffs| ==> handoffs[h].epoch == epoch && handoffs[h].task < taskCount)
    && OneLive(handoffs)
  }

  // ---- jobs ----

  /** An unfinished job carries the session's epoch; a pending one has no worker; a running one has a
      worker, a lease and an agent of the session. */
  ghost predicate JobRow(j: Job, agents: seq<Agent>, epoch: nat, nextLease: nat)
  {
    && (!Terminal(j) ==> j.epoch == epoch)
    && (j.lease.Some? ==> j.lease.value < nextLease)
    && (j.status == Pending ==> j.worker.None?)
    && (j.status == InProgress ==> j.worker.Some? && j.lease.Some? && FindAgent(agents, j.agent).Some?)
  }

  ghost predicate UniqueLeases(jobs: seq<Job>)
  {
    forall j, k :: 0 <= j < k < |jobs| && jobs[j].lease.Some? ==> jobs[j].lease != jobs[k].lease
  }

  /** At most one in-progress job per agent. */
  ghost predicate Exclusive(jobs: seq<Job>)
  {
    forall j, k :: 0 <= j < k < |jobs| && jobs[j].status == InProgress && jobs[k].status == InProgress
      ==> jobs[j].agent != jobs[k].agent
  }

  ghost predicate JobsOk(jobs: seq<Job>, agents: seq<Agent>, epoch: nat, nextLease: nat)
  {
    && (forall j :: 0 <= j < |jobs| ==> JobRow(jobs[j], agents, epoch, nextLease))
    && UniqueLeases(jobs)
    && Exclusive(jobs)
  }

  /** Foreign keys point at rows, a job's handoff is a handoff of the job's task, and it is not queued
      while the job is unfinished. */
  ghost predicate JobRefs(j: Job, taskCount: nat, handoffs: seq<Handoff>)
  {
    && (j.task.Some? <==> j.handoff.Some?)
    && (j.task.Some? ==> j.task.value < taskCount)
    && (j.handoff.Some? ==>
          && j.handoff.value < |handoffs|
          && handoffs[j.handoff.value].task == j.task.value
          && (!Terminal(j) ==> handoffs[j.handoff.value].state != Queued))
  }

  /** At most one unfinished job per handoff. */
  ghost predicate OneServer(jobs: seq<Job>)
  {
    forall j, k :: 0 <= j < k < |jobs| && !Terminal(jobs[j]) && !Terminal(jobs[k]) && jobs[j].handoff.Some?
      ==> jobs[j].handoff != jobs[k].handoff
  }

  ghost predicate RefsOk(jobs: seq<Job>, taskCount: nat, handoffs: seq<Handoff>)
  {
    && (forall j :: 0 <= j < |jobs| ==> JobRefs(jobs[j], taskCount, handoffs))
    && OneServer(jobs)
  }

  // ---- the cap ----

  ghost predicate NamesCurator(agents: seq<Agent>, name: string)
  {
    exists i :: 0 <= i < |agents| && agents[i].name == name && IsCurator(agents[i])
  }

  /** The in-progress jobs that count against the cap. */
  ghost function Counted(jobs: seq<Job>, agents: seq<Agent>): set<nat>
  {
    set j | j in Running(jobs) && !NamesCurator(agents, jobs[j].agent)
  }

  ghost predicate Capped(jobs: seq<Job>, agents: seq<Agent>, cap: int)
  {
    |Counted(jobs, agents)| <= if cap < 0 then 0 else cap
  }

  ghost predicate UniqueNames(agents: seq<Agent>)
  {
    forall i, k :: 0 <= i < k < |agents| ==> agents[i].name != agents[k].name
  }

  ghost predicate Inv(s: Session)
  {
    && TasksOk(s.tasks, s.epoch, s.nextLease)
    && HandoffsOk(s.handoffs, s.epoch, |s.tasks|)
    && JobsOk(s.jobs, s.agents, s.epoch, s.nextLease)
    && RefsOk(s.jobs, |s.tasks|, s.handoffs)
    && Capped(s.jobs, s.agents, s.cap)
    && UniqueNames(s.agents)
  }

  // ---- links between tasks, handoffs and jobs ----

  /** The claimed handoff h has an unfinished job serving it, not counting the one just being closed. */
  ghost predicate Served(jobs: seq<Job>, handoffs: seq<Handoff>, h: nat, closing: Option<nat>)
    requires h < |handoffs|
  {
    var server := handoffs[h].claimedBy;
    && server.Some? && server.value < |jobs|
    && jobs[server.value].handoff == Some(h)
    && (!Terminal(jobs[server.value]) || closing == server)
  }

  /** Task t is held through its claimed handoff h: the serving job carries the task's lease. */
  ghost predicate HeldVia(jobs: seq<Job>, handoffs: seq<Handoff>, t: nat, lease: Option<nat>, h: nat)
  {
    && h < |handoffs| && handoffs[h].task == t && handoffs[h].state == Claimed
    && handoffs[h].claimedBy.Some? && handoffs[h].claimedBy.value < |jobs|
    && jobs[handoffs[h].claimedBy.value].lease == lease
  }

  ghost predicate AllServed(jobs: seq<Job>, handoffs: seq<Handoff>, closing: Option<nat>)
  {
    forall h :: 0 <= h < |handoffs| && handoffs[h].state == Claimed ==> Served(jobs, handoffs, h, closing)
  }

  ghost predicate AllHeld(jobs: seq<Job>, tasks: seq<Task>, handoffs: seq<Handoff>)
  {
    forall t :: 0 <= t < |tasks| && tasks[t].state == TaskInProgress
      ==> exists h :: HeldVia(jobs, handoffs, t, tasks[t].lease, h)
  }

  ghost predicate LinkedBut(s: Session, closing: Option<nat>)
  {
    AllServed(s.jobs, s.handoffs, closing) && AllHeld(s.jobs, s.tasks, s.handoffs)
  }

  /** Each claimed handoff is served and each in-progress task is held through a claimed handoff. */
  ghost predicate Linked(s: Session)
  {
    LinkedBut(s, None)
  }

  // ---- agents ----

  lemma SameAgentsSameFacts(xs: seq<Agent>, ys: seq<Agent>, name: string)
    requires SameAgents(xs, ys)
    ensures NamesCurator(xs, name) <==> NamesCurator(ys, name)
    ensures FindAgent(xs, name).Some? <==> FindAgent(ys, name).Some?
  {
    if FindAgent(xs, name).Some? {
      assert ys[FindAgent(xs, name).value].name == name;
    }
    if FindAgent(ys, name).Some? {
      assert xs[FindAgent(ys, name).value].name == name;
    }
  }

  /** Statuses and attachments do not matter to the jobs or to the cap. */
  lemma AgentsEdit(jobs: seq<Job>, xs: seq<Agent>, ys: seq<Agent>, epoch: nat, nextLease: nat, cap: int)
    requires SameAgents(xs, ys)
    ensures JobsOk(jobs, xs, epoch, nextLease) ==> JobsOk(jobs, ys, epoch, nextLease)
    ensures Capped(jobs, xs, cap) ==> Capped(jobs, ys, cap)
    ensures UniqueNames(xs) ==> UniqueNames(ys)
  {
    forall j | 0 <= j < |jobs|
      ensures JobRow(jobs[j], xs, epoch, nextLease) <==> JobRow(jobs[j], ys, epoch, nextLease)
      ensures NamesCurator(xs, jobs[j].agent) <==> NamesCurator(ys, jobs[j].agent)
    {
      SameAgentsSameFacts(xs, ys, jobs[j].agent);
    }
    assert Counted(jobs, xs) == Counted(jobs, ys);
  }

  // ---- appending jobs ----

  /** New pending jobs without task, handoff, lease or worker. */
  ghost predicate Blank(j: Job, epoch: nat)
  {
    j == NewJob(j.agent, j.kind, epoch)
  }

  lemma BlankJobsOk(jobs: seq<Job>, added: seq<Job>, agents: seq<Agent>, epoch: nat, nextLease: nat)
    requires JobsOk(jobs, agents, epoch, nextLease)
    requires forall k :: 0 <= k < |added| ==> Blank(added[k], epoch)
    ensures JobsOk(jobs + added, agents, epoch, nextLease)
  {
    var r := jobs + added;
    forall j | 0 <= j < |r| ensures JobRow(r[j], agents, epoch, nextLease) {
      if j >= |jobs| { assert Blank(added[j - |jobs|], epoch); }
    }
  }

  lemma BlankRefsOk(jobs: seq<Job>, added: seq<Job>, taskCount: nat, handoffs: seq<Handoff>, epoch: nat)
    requires RefsOk(jobs, taskCount, handoffs)
    requires forall k :: 0 <= k < |added| ==> Blank(added[k], epoch)
    ensures RefsOk(jobs + added, taskCount, handoffs)
  {
    var r := jobs + added;
    forall j | 0 <= j < |r| ensures JobRefs(r[j], taskCount, handoffs) {
      if j >= |jobs| { assert Blank(added[j - |jobs|], epoch); }
    }
  }

  lemma BlankCapped(jobs: seq<Job>, added: seq<Job>, agents: seq<Agent>, cap: int, epoch: nat)
    requires Capped(jobs, agents, cap)
    requires forall k :: 0 <= k < |added| ==> Blank(added[k], epoch)
    ensures Running(jobs + added) == Running(jobs)
    ensures Capped(jobs + added, agents, cap)
  {
    assert Counted(jobs + added, agents) == Counted(jobs, agents);
  }

  /** Appending any jobs breaks no link. */
  lemma AppendLinked(s: Session, added: seq<Job>, closing: Option<nat>)
    requires LinkedBut(s, closing)
    ensures LinkedBut(s.(jobs := s.jobs + added), closing)
  {
    var r := s.(jobs := s.jobs + added);
    forall t | 0 <= t < |r.tasks| && r.tasks[t].state == TaskInProgress
      ensures exists h :: HeldVia(r.jobs, r.handoffs, t, r.tasks[t].lease, h)
    {
      var h :| HeldVia(s.jobs, s.handoffs, t, s.tasks[t].lease, h);
      assert HeldVia(r.jobs, r.handoffs, t, r.tasks[t].lease, h);
    }
  }

  lemma BlankJobsAdded(s: Session, added: seq<Job>, closing: Option<nat>)
    requires Inv(s)
    requires forall k :: 0 <= k < |added| ==> Blank(added[k], s.epoch)
    ensures Inv(s.(jobs := s.jobs + added))
    ensures LinkedBut(s, closing) ==> LinkedBut(s.(jobs := s.jobs + added), closing)
  {
    BlankJobsOk(s.jobs, added, s.agents, s.epoch, s.nextLease);
    BlankRefsOk(s.jobs, added, |s.tasks|, s.handoffs, s.epoch);
    BlankCapped(s.jobs, added, s.agents, s.cap, s.epoch);
    if LinkedBut(s, closing) { AppendLinked(s, added, closing); }
  }

  // ---- changing one job ----

  /** A job changed in status and worker only, except that it may receive the next lease token. */
  ghost predicate JobMoved(was: Job, now: Job, nextLease: nat, nextLease': nat)
  {
    && now.agent == was.agent && now.task == was.task && now.handoff == was.handoff
    && nextLease <= nextLease'
    && (now.lease == was.lease || (was.lease.None? && now.lease == Some(nextLease) && nextLease < nextLease'))
    && (!Terminal(now) ==> !Terminal(was))
  }

  lemma JobMovedOk(jobs: seq<Job>, j: nat, now: Job, agents: seq<Agent>, epoch: nat, nextLease: nat, nextLease': nat)
    requires JobsOk(jobs, agents, epoch, nextLease) && j < |jobs|
    requires JobMoved(jobs[j], now, nextLease, nextLease') && JobRow(now, agents, epoch, nextLease')
    requires now.status == InProgress ==>
      forall k :: 0 <= k < |jobs| && k != j && jobs[k].status == InProgress ==> jobs[k].agent != now.agent
    ensures JobsOk(jobs[j := now], agents, epoch, nextLease')
  {
    var r := jobs[j := now];
    forall k | 0 <= k < |r| ensures JobRow(r[k], agents, epoch, nextLease') {
      assert JobRow(jobs[k], agents, epoch, nextLease);
    }
    forall i, k | 0 <= i < k < |r| && r[i].lease.Some? ensures r[i].lease != r[k].lease {
      assert JobRow(jobs[i], agents, epoch, nextLease) && JobRow(jobs[k], agents, epoch, nextLease);
    }
  }

  lemma JobMovedRefs(jobs: seq<Job>, j: nat, now: Job, taskCount: nat, handoffs: seq<Handoff>, n: nat, n': nat)
    requires RefsOk(jobs, taskCount, handoffs) && j < |jobs|
    requires JobMoved(jobs[j], now, n, n')
    ensures RefsOk(jobs[j := now], taskCount, handoffs)
  {
    assert JobRefs(jobs[j], taskCount, handoffs);
    assert JobRefs(now, taskCount, handoffs);
  }

  /** Only a job that starts running can raise the count, and it needs room or a curator. */
  lemma JobMovedCapped(jobs: seq<Job>, j: nat, now: Job, agents: seq<Agent>, cap: int)
    requires Capped(jobs, agents, cap) && j < |jobs|
    requires now.status == InProgress ==> NamesCurator(agents, now.agent) || |Running(jobs)| < cap
    ensures Capped(jobs[j := now], agents, cap)
  {
    var before, later := Counted(jobs, agents), Counted(jobs[j := now], agents);
    assert later <= before + {j};
    if now.status == InProgress && !NamesCurator(agents, now.agent) {
      SubsetSize(before, Running(jobs));
      SubsetSize(later, before + {j});
    } else {
      SubsetSize(later, before);
    }
  }

  /** A job that stays unfinished, or is the one being closed, breaks no link. */
  lemma JobMovedLinked(s: Session, j: nat, now: Job, n: nat, n': nat, closing: Option<nat>)
    requires Inv(s) && Linked(s) && j < |s.jobs|
    requires JobMoved(s.jobs[j], now, n, n')
    requires !Terminal(now) || closing == Some(j)
    ensures LinkedBut(s.(jobs := s.jobs[j := now]), closing)
  {
    var r := s.(jobs := s.jobs[j := now]);
    forall t | 0 <= t < |r.tasks| && r.tasks[t].state == TaskInProgress
      ensures exists h :: HeldVia(r.jobs, r.handoffs, t, r.tasks[t].lease, h)
    {
      var h :| HeldVia(s.jobs, s.handoffs, t, s.tasks[t].lease, h);
      assert TaskRow(s.tasks[t], s.epoch, s.nextLease);
      assert HeldVia(r.jobs, r.handoffs, t, r.tasks[t].lease, h);
    }
    forall h | 0 <= h < |r.handoffs| && r.handoffs[h].state == Claimed ensures Served(r.jobs, r.handoffs, h, closing) {
      assert Served(s.jobs, s.handoffs, h, None);
    }
  }

  // ---- a job that starts together with its claim ----

  lemma StartedJobOk(jobs: seq<Job>, job: Job, agents: seq<Agent>, epoch: nat, nextLease: nat)
    requires JobsOk(jobs, agents, epoch, nextLease)
    requires JobRow(job, agents, epoch, nextLease + 1) && job.lease == Some(nextLease)
    requires forall k :: 0 <= k < |jobs| && jobs[k].status == InProgress ==> jobs[k].agent != job.agent
    ensures JobsOk(jobs + [job], agents, epoch, nextLease + 1)
  {
    var r := jobs + [job];
    forall k | 0 <= k < |r| ensures JobRow(r[k], agents, epoch, nextLease + 1) {
      if k < |jobs| { assert JobRow(jobs[k], agents, epoch, nextLease); }
    }
    forall i, k | 0 <= i < k < |r| && r[i].lease.Some? ensures r[i].lease != r[k].lease {
      assert JobRow(jobs[i], agents, epoch, nextLease);
    }
  }

  lemma StartedJobCapped(jobs: seq<Job>, job: Job, agents: seq<Agent>, cap: int)
    requires Capped(jobs, agents, cap)
    requires NamesCurator(agents, job.agent) || |Running(jobs)| < cap
    ensures Capped(jobs + [job], agents, cap)
  {
    var before, later := Counted(jobs, agents), Counted(jobs + [job], agents);
    assert later <= before + {|jobs|};
    if NamesCurator(agents, job.agent) {
      SubsetSize(later, before);
    } else {
      SubsetSize(before, Running(jobs));
      SubsetSize(later, before + {|jobs|});
    }
  }

  // ---- changing one task ----

  lemma TaskLeaseRoom(tasks: seq<Task>, epoch: nat, n: nat, n': nat)
    requires TasksOk(tasks, epoch, n) && n <= n'
    ensures TasksOk(tasks, epoch, n')
  {
    forall t | 0 <= t < |tasks| ensures TaskRow(tasks[t], epoch, n') {
      assert TaskRow(tasks[t], epoch, n);
    }
  }

  /** A task that keeps its key and is not in progress afterwards. */
  lemma TaskParkedOk(tasks: seq<Task>, t: nat, now: Task, epoch: nat, nextLease: nat)
    requires TasksOk(tasks, epoch, nextLease) && t < |tasks|
    requires now.key == tasks[t].key && TaskRow(now, epoch, nextLease) && now.state != TaskInProgress
    ensures TasksOk(tasks[t := now], epoch, nextLease)
  {
  }
}
