/** What the bridge promises about stale workers, repeated callbacks and recovery
    (nas_bridge/README.md), for every reachable session. */
module Guarantees {
  import opened Text
  import opened Rows
  import opened ControlBlocks
  import opened Protocol
  import opened Invariants
  import opened Steps
  import opened Runs
  import opened History
  import TaskKeys

  // ---- linkage ----

  /** Job j is unfinished, works on task t and carries the task's current lease. */
  ghost predicate Holds(s: Session, j: nat, t: nat)
    requires t < |s.tasks|
  {
    j < |s.jobs| && !Terminal(s.jobs[j]) && s.jobs[j].task == Some(t) && s.jobs[j].lease == s.tasks[t].lease
  }

  /** Job j is unfinished and was started for handoff h. */
  ghost predicate Serves(s: Session, j: nat, h: nat)
  {
    j < |s.jobs| && !Terminal(s.jobs[j]) && s.jobs[j].handoff == Some(h)
  }

  lemma HolderFound(s: Session, t: nat) returns (j: nat, h: nat)
    requires Inv(s) && Linked(s) && t < |s.tasks| && s.tasks[t].state == TaskInProgress
    ensures Holds(s, j, t) && Serves(s, j, h)
    ensures h < |s.handoffs| && s.handoffs[h].state == Claimed && s.handoffs[h].task == t
  {
    h :| HeldVia(s.jobs, s.handoffs, t, s.tasks[t].lease, h);
    assert Served(s.jobs, s.handoffs, h, None);
    j := s.handoffs[h].claimedBy.value;
    assert JobRefs(s.jobs[j], |s.tasks|, s.handoffs);
  }

  lemma OneHolder(s: Session, t: nat)
    requires Inv(s) && Linked(s) && t < |s.tasks| && s.tasks[t].state == TaskInProgress
    ensures exists j :: Holds(s, j, t) && forall k :: Holds(s, k, t) ==> k == j
  {
    var j, h := HolderFound(s, t);
    assert TaskRow(s.tasks[t], s.epoch, s.nextLease);
    forall k: nat | Holds(s, k, t) ensures k == j {
      assert s.jobs[k].lease == s.jobs[j].lease;
    }
  }

  lemma OneServingJob(s: Session, h: nat)
    requires Inv(s) && Linked(s) && h < |s.handoffs| && s.handoffs[h].state == Claimed
    ensures exists j :: Serves(s, j, h) && forall k :: Serves(s, k, h) ==> k == j
  {
    assert Served(s.jobs, s.handoffs, h, None);
    var j := s.handoffs[h].claimedBy.value;
    assert Serves(s, j, h);
    forall k: nat | Serves(s, k, h) ensures k == j {
      assert s.jobs[k].handoff == s.jobs[j].handoff;
    }
  }

  /** A pending job that was started for a still claimed handoff: only orphan recovery makes one. */
  ghost predicate WaitingServer(s: Session, j: nat)
  {
    && j < |s.jobs| && s.jobs[j].status == Pending && s.jobs[j].handoff.Some?
    && s.jobs[j].handoff.value < |s.handoffs| && s.handoffs[s.jobs[j].handoff.value].state == Claimed
  }

  ghost predicate NoneWaits(s: Session)
  {
    forall j :: !WaitingServer(s, j)
  }

  lemma WaitingServerIsLost(s: Session, j: nat)
    requires Inv(s) && Linked(s) && WaitingServer(s, j)
    ensures !Linked(PauseSession(s))
  {
    var r := PauseSession(s);
    var h := s.jobs[j].handoff.value;
    assert Served(s.jobs, s.handoffs, h, None);
    assert s.handoffs[h].claimedBy == Some(j);
    assert !Served(r.jobs, r.handoffs, h, None);
  }

  /** A pause keeps the links exactly when no recovered job is waiting to be claimed again. */
  lemma PauseKeepsLinksIff(s: Session)
    requires Inv(s) && Linked(s)
    ensures Linked(PauseSession(s)) <==> NoneWaits(s)
  {
    var r := PauseSession(s);
    forall j: nat | WaitingServer(s, j) ensures !Linked(r) {
      WaitingServerIsLost(s, j);
    }
    if forall j :: !WaitingServer(s, j) {
      forall h | 0 <= h < |r.handoffs| && r.handoffs[h].state == Claimed ensures Served(r.jobs, r.handoffs, h, None) {
        assert Served(s.jobs, s.handoffs, h, None);
        assert !WaitingServer(s, s.handoffs[h].claimedBy.value);
      }
      forall t | 0 <= t < |r.tasks| && r.tasks[t].state == TaskInProgress
        ensures exists h :: HeldVia(r.jobs, r.handoffs, t, r.tasks[t].lease, h)
      {
        var h :| HeldVia(s.jobs, s.handoffs, t, s.tasks[t].lease, h);
        assert HeldVia(r.jobs, r.handoffs, t, r.tasks[t].lease, h);
      }
    }
  }

  /** Each pause that no reset follows meets no job waiting for a claimed handoff. */
  ghost predicate PausesHarmless(start: Session, ops: seq<Op>)
  {
    forall k: nat :: k < |ops| && ops[k] == Pause && Reset !in ops[k + 1..] ==> NoneWaits(Run(start, ops[..k]))
  }

  lemma HarmlessFront(start: Session, front: seq<Op>, op: Op)
    requires PausesHarmless(start, front + [op])
    ensures op != Reset ==> PausesHarmless(start, front)
    ensures op == Pause ==> NoneWaits(Run(start, front))
  {
    if op != Reset { EarlierHarmless(start, front, op); }
    if op == Pause { LastHarmless(start, front); }
  }

  lemma LastHarmless(start: Session, front: seq<Op>)
    requires PausesHarmless(start, front + [Pause])
    ensures NoneWaits(Run(start, front))
  {
    var ops := front + [Pause];
    assert ops[|front|] == Pause && ops[..|front|] == front && ops[|front| + 1..] == [];
  }

  lemma EarlierHarmless(start: Session, front: seq<Op>, op: Op)
    requires PausesHarmless(start, front + [op]) && op != Reset
    ensures PausesHarmless(start, front)
  {
    var ops := front + [op];
    forall k: nat | k < |front| && front[k] == Pause && Reset !in front[k + 1..] ensures NoneWaits(Run(start, front[..k])) {
      assert ops[k] == Pause && ops[..k] == front[..k];
      assert ops[k + 1..] == front[k + 1..] + [op];
    }
  }

  lemma LinkedSnoc(start: Session, front: seq<Op>, op: Op)
    requires Created(start) && op != Close && (op == Reset || Linked(Run(start, front)))
    requires op == Pause ==> NoneWaits(Run(start, front))
    ensures Linked(Run(start, front + [op]))
  {
    RunInv(start, front);
    assert (front + [op])[..|front|] == front;
    LinkedStep(Run(start, front), op);
  }

  lemma OpenSnoc(start: Session, front: seq<Op>, op: Op)
    requires !Run(start, front + [op]).closed
    ensures !Run(start, front).closed && op != Close
  {
    assert (front + [op])[..|front|] == front;
    StepClosed(Run(start, front), op);
  }

  /** The links hold in an open session after any run whose pauses are harmless or undone by a reset. */
  lemma {:induction false} LinkedOverRuns(start: Session, ops: seq<Op>)
    requires Created(start) && PausesHarmless(start, ops) && !Run(start, ops).closed
    ensures Linked(Run(start, ops))
    decreases |ops|
  {
    if |ops| == 0 {
      CreatedOk(start);
    } else {
      var front, op := ops[..|ops| - 1], ops[|ops| - 1];
      assert ops == front + [op];
      HarmlessFront(start, front, op);
      OpenSnoc(start, front, op);
      if op != Reset { LinkedOverRuns(start, front); }
      LinkedSnoc(start, front, op);
    }
  }

  lemma RunInv(start: Session, ops: seq<Op>)
    requires Created(start)
    ensures Inv(Run(start, ops))
  {
    RunKeepsInv(start, ops);
  }

  lemma LinkedStep(s: Session, op: Op)
    requires Inv(s) && (op == Reset || Linked(s)) && op != Close && (op == Pause ==> NoneWaits(s))
    ensures Linked(Step(s, op).0)
  {
    if op == Reset {
      ResetKeeps(s);
    } else if op == Pause {
      PauseKeepsLinksIff(s);
    } else {
      StepKeepsInv(s, op);
    }
  }

  /** The links hold at every moment of the run at which the session is open. */
  ghost predicate LinkedThroughout(start: Session, ops: seq<Op>)
  {
    forall k: nat :: k <= |ops| && !Run(start, ops[..k]).closed ==> Linked(Run(start, ops[..k]))
  }

  /** And they hold at every open moment of a run exactly when none of its pauses meets a waiting job. */
  lemma LinkedThroughoutIff(start: Session, ops: seq<Op>)
    requires Created(start)
    ensures LinkedThroughout(start, ops)
      <==> forall k: nat :: k < |ops| && ops[k] == Pause && !Run(start, ops[..k]).closed ==> NoneWaits(Run(start, ops[..k]))
  {
    if LinkedThroughout(start, ops) {
      forall k: nat | k < |ops| && ops[k] == Pause && !Run(start, ops[..k]).closed ensures NoneWaits(Run(start, ops[..k])) {
        PauseWasHarmless(start, ops, k);
      }
    }
    if forall k: nat :: k < |ops| && ops[k] == Pause && !Run(start, ops[..k]).closed ==> NoneWaits(Run(start, ops[..k])) {
      forall k: nat | k <= |ops| && !Run(start, ops[..k]).closed ensures Linked(Run(start, ops[..k])) {
        LinkedAt(start, ops, k);
      }
    }
  }

  lemma NextMoment(start: Session, ops: seq<Op>, k: nat)
    requires k < |ops|
    ensures Run(start, ops[..k + 1]) == Step(Run(start, ops[..k]), ops[k]).0
  {
    assert ops[..k + 1][..k] == ops[..k];
  }

  lemma PauseWasHarmless(start: Session, ops: seq<Op>, k: nat)
    requires Created(start) && LinkedThroughout(start, ops) && k < |ops| && ops[k] == Pause && !Run(start, ops[..k]).closed
    ensures NoneWaits(Run(start, ops[..k]))
  {
    var s := Run(start, ops[..k]);
    RunKeepsInv(start, ops[..k]);
    NextMoment(start, ops, k);
    StepClosed(s, Pause);
    assert Linked(Run(start, ops[..k + 1]));
    PauseKeepsLinksIff(s);
  }

  lemma OpenBefore(start: Session, ops: seq<Op>, k: nat)
    requires k < |ops| && !Run(start, ops[..k + 1]).closed
    ensures !Run(start, ops[..k]).closed && ops[k] != Close
  {
    NextMoment(start, ops, k);
    StepClosed(Run(start, ops[..k]), ops[k]);
  }

  lemma LinkedNext(start: Session, ops: seq<Op>, k: nat)
    requires Created(start) && k < |ops| && Linked(Run(start, ops[..k])) && ops[k] != Close
    requires ops[k] == Pause ==> NoneWaits(Run(start, ops[..k]))
    ensures Linked(Run(start, ops[..k + 1]))
  {
    NextMoment(start, ops, k);
    RunInv(start, ops[..k]);
    LinkedStep(Run(start, ops[..k]), ops[k]);
  }

  lemma {:induction false} LinkedAt(start: Session, ops: seq<Op>, k: nat)
    requires Created(start) && k <= |ops| && !Run(start, ops[..k]).closed
    requires forall i: nat :: i < |ops| && ops[i] == Pause && !Run(start, ops[..i]).closed ==> NoneWaits(Run(start, ops[..i]))
    ensures Linked(Run(start, ops[..k]))
    decreases k
  {
    if k == 0 {
      CreatedOk(start);
      assert ops[..0] == [];
    } else {
      OpenBefore(start, ops, k - 1);
      LinkedAt(start, ops, k - 1);
      LinkedNext(start, ops, k - 1);
    }
  }

  /** In every open session reached from its creation, if its pauses were harmless or undone by a reset, each
      in-progress task has exactly one unfinished job carrying its lease, and each claimed handoff exactly one
      unfinished job. */
  lemma LinkageOverRuns(start: Session, ops: seq<Op>)
    requires Created(start) && PausesHarmless(start, ops) && !Run(start, ops).closed
    ensures var s := Run(start, ops);
      && (forall t :: 0 <= t < |s.tasks| && s.tasks[t].state == TaskInProgress
            ==> exists j :: Holds(s, j, t) && forall k :: Holds(s, k, t) ==> k == j)
      && (forall h :: 0 <= h < |s.handoffs| && s.handoffs[h].state == Claimed
            ==> exists j :: Serves(s, j, h) && forall k :: Serves(s, k, h) ==> k == j)
  {
    RunKeepsInv(start, ops);
    LinkedOverRuns(start, ops);
    var s := Run(start, ops);
    forall t | 0 <= t < |s.tasks| && s.tasks[t].state == TaskInProgress
      ensures exists j :: Holds(s, j, t) && forall k :: Holds(s, k, t) ==> k == j
    {
      OneHolder(s, t);
    }
    forall h | 0 <= h < |s.handoffs| && s.handoffs[h].state == Claimed
      ensures exists j :: Serves(s, j, h) && forall k :: Serves(s, k, h) ==> k == j
    {
      OneServingJob(s, h);
    }
  }

  /** An unfinished job of an in-progress task is the task's current holder exactly while its own handoff
      is still claimed; once the handoff is superseded the job is stale. */
  lemma HolderIffClaimed(s: Session, j: nat, t: nat)
    requires Inv(s) && Linked(s) && t < |s.tasks| && s.tasks[t].state == TaskInProgress
    requires j < |s.jobs| && !Terminal(s.jobs[j]) && s.jobs[j].task == Some(t)
    ensures s.jobs[j].handoff.Some? && s.jobs[j].handoff.value < |s.handoffs|
    ensures s.jobs[j].lease == s.tasks[t].lease <==> s.handoffs[s.jobs[j].handoff.value].state == Claimed
  {
    assert JobRefs(s.jobs[j], |s.tasks|, s.handoffs);
    var k, h := HolderFound(s, t);
    var own := s.jobs[j].handoff.value;
    if s.jobs[j].lease == s.tasks[t].lease {
      OneHolder(s, t);
      assert Holds(s, j, t);
    }
    if s.handoffs[own].state == Claimed {
      assert own == h;
      OneServingJob(s, h);
      assert Serves(s, j, h);
    }
  }

  // ---- the cap ----

  ghost function CuratorNames(agents: seq<Agent>): set<string>
  {
    set i | 0 <= i < |agents| && IsCurator(agents[i]) :: agents[i].name
  }

  lemma {:induction false} InjectionSize(js: set<nat>, jobs: seq<Job>, names: set<string>)
    requires forall j :: j in js ==> j < |jobs| && jobs[j].agent in names
    requires forall j, k :: j in js && k in js && j != k ==> jobs[j].agent != jobs[k].agent
    ensures |js| <= |names|
  {
    if js != {} {
      var j :| j in js;
      InjectionSize(js - {j}, jobs, names - {jobs[j].agent});
    }
  }

  lemma CuratingNames(s: Session, j: nat)
    requires Inv(s) && j in Running(s.jobs) && j !in Counted(s.jobs, s.agents)
    ensures s.jobs[j].agent in CuratorNames(s.agents)
  {
    var i :| 0 <= i < |s.agents| && s.agents[i].name == s.jobs[j].agent && IsCurator(s.agents[i]);
  }

  lemma RunningBound(s: Session)
    requires Inv(s)
    ensures |Running(s.jobs)| <= |Counted(s.jobs, s.agents)| + |CuratorNames(s.agents)|
  {
    var counted := Counted(s.jobs, s.agents);
    var curating := Running(s.jobs) - counted;
    forall j | j in curating ensures j < |s.jobs| && s.jobs[j].agent in CuratorNames(s.agents) { CuratingNames(s, j); }
    assert Exclusive(s.jobs);
    forall j, k | j in curating && k in curating && j != k ensures s.jobs[j].agent != s.jobs[k].agent {
      if j < k { assert s.jobs[j].agent != s.jobs[k].agent; } else { assert s.jobs[k].agent != s.jobs[j].agent; }
    }
    InjectionSize(curating, s.jobs, CuratorNames(s.agents));
    assert Running(s.jobs) == counted + curating;
  }

  /** Over every run no agent runs two jobs, at most cap jobs of non-curators run at once, and all
      running jobs together exceed the cap by at most the number of curators. */
  lemma ParallelismOverRuns(start: Session, ops: seq<Op>)
    requires Created(start)
    ensures var s := Run(start, ops);
      && Exclusive(s.jobs)
      && |Counted(s.jobs, s.agents)| <= (if start.cap < 0 then 0 else start.cap)
      && |Running(s.jobs)| <= (if start.cap < 0 then 0 else start.cap) + |CuratorNames(s.agents)|
  {
    RunKeepsInv(start, ops);
    RunLater(start, ops);
    RunningBound(Run(start, ops));
  }

  // ---- scopes, leases and handoffs ----

  /** Over every run no two in-progress tasks share a scope or a file, a task has a lease exactly while
      it is in progress, each task has at most one live handoff, and every task, handoff and unfinished
      job carries the session's epoch. */
  lemma TasksOverRuns(start: Session, ops: seq<Op>)
    requires Created(start)
    ensures var s := Run(start, ops);
      && Scopes(s.tasks) && UniqueKeys(s.tasks) && OneLive(s.handoffs)
      && (forall t :: 0 <= t < |s.tasks| ==>
            s.tasks[t].epoch == s.epoch && (s.tasks[t].lease.Some? <==> s.tasks[t].state == TaskInProgress))
      && (forall h :: 0 <= h < |s.handoffs| ==> s.handoffs[h].epoch == s.epoch)
      && (forall j :: 0 <= j < |s.jobs| && !Terminal(s.jobs[j]) ==> s.jobs[j].epoch == s.epoch)
  {
    RunKeepsInv(start, ops);
    var s := Run(start, ops);
    forall t | 0 <= t < |s.tasks|
      ensures s.tasks[t].epoch == s.epoch && (s.tasks[t].lease.Some? <==> s.tasks[t].state == TaskInProgress)
    {
      assert TaskRow(s.tasks[t], s.epoch, s.nextLease);
    }
    forall j | 0 <= j < |s.jobs| && !Terminal(s.jobs[j]) ensures s.jobs[j].epoch == s.epoch {
      assert JobRow(s.jobs[j], s.agents, s.epoch, s.nextLease);
    }
  }

  // ---- callbacks take effect once ----

  predicate IsCallback(op: Op, j: nat)
  {
    (op.Complete? && op.callback.job == j) || (op.Fail? && op.callback.job == j)
  }

  /** The step is a callback for job j that took effect. */
  predicate Accepts(s: Session, op: Op, j: nat)
  {
    IsCallback(op, j) && Step(s, op).1 == Applied
  }

  /** A callback that is not accepted changes no row. */
  lemma RefusedChangesNothing(s: Session, op: Op, j: nat)
    requires IsCallback(op, j) && !Accepts(s, op, j)
    ensures Step(s, op).0 == s
  {
  }

  lemma {:induction false} QueueEachJobs(s: Session, source: string, rs: seq<HandoffRequest>)
    requires KnownTargets(s.agents, rs)
    ensures QueueEach(s, source, rs).0.jobs == s.jobs
  {
    if |rs| > 0 { QueueEachJobs(s, source, rs[..|rs| - 1]); }
  }

  lemma BlankPrefix(s: Session, r: Session)
    requires OnlyBlankJobs(s, r)
    ensures |s.jobs| <= |r.jobs| && forall k :: 0 <= k < |s.jobs| ==> r.jobs[k] == s.jobs[k]
  {
  }

  lemma QueuedFrame(s: Session, c: Callback, out: Output)
    requires Admit(s, c) == Applied
    ensures var r := QueueHandoffs(MarkCompleted(s, c, out), c.agent, AcceptedHandoffs(s, c, out).accepted);
      && |s.jobs| <= |r.jobs|
      && r.jobs[c.job] == s.jobs[c.job].(status := Completed)
      && forall k :: 0 <= k < |s.jobs| && k != c.job ==> r.jobs[k] == s.jobs[k]
  {
    var done := MarkCompleted(s, c, out);
    var rs := AcceptedHandoffs(s, c, out).accepted;
    var each := QueueEach(done, c.agent, rs).0;
    QueueEachJobs(done, c.agent, rs);
    CuratorEventIsBlank(each, c.agent);
    BlankPrefix(each, QueueCuratorEvent(each, c.agent));
  }

  /** Of the jobs that existed before it, a completion changes only its own, to completed. */
  lemma CompleteJobsFrame(s: Session, c: Callback, out: Output)
    requires Admit(s, c) == Applied
    ensures var r := CompleteJob(s, c, out).0;
      && |s.jobs| <= |r.jobs|
      && r.jobs[c.job] == s.jobs[c.job].(status := Completed)
      && forall k :: 0 <= k < |s.jobs| && k != c.job ==> r.jobs[k] == s.jobs[k]
  {
    var hs := AcceptedHandoffs(s, c, out);
    var ds := ExtractDiscussions(s.agents, c.agent, out.discussions).accepted;
    var queued := QueueHandoffs(MarkCompleted(s, c, out), c.agent, hs.accepted);
    var talked := QueueDiscussions(queued, c.agent, ds);
    var repaired := QueueRepair(talked, c.agent, hs.rejected);
    QueuedFrame(s, c, out);
    DiscussionsAreBlank(queued, c.agent, ds);
    BlankPrefix(queued, talked);
    RepairIsBlank(talked, c.agent, hs.rejected);
    BlankPrefix(talked, repaired);
    assert SyncCompleted(repaired, s.jobs[c.job], out.question, hs.accepted).jobs == repaired.jobs;
  }

  lemma FailJobsFrame(s: Session, c: Callback)
    requires Admit(s, c) == Applied
    ensures var r := FailJob(s, c).0;
      && |s.jobs| <= |r.jobs|
      && r.jobs[c.job] == s.jobs[c.job].(status := Failed)
      && forall k :: 0 <= k < |s.jobs| && k != c.job ==> r.jobs[k] == s.jobs[k]
  {
  }

  /** An accepted callback finds its job unfinished and leaves it finished. */
  lemma AcceptedFinishes(s: Session, op: Op, j: nat)
    requires Accepts(s, op, j)
    ensures j < |s.jobs| && !Terminal(s.jobs[j])
    ensures j < |Step(s, op).0.jobs| && Terminal(Step(s, op).0.jobs[j])
  {
    match op
    case Complete(c, out) => CompleteJobsFrame(s, c, out);
    case Fail(c) => FailJobsFrame(s, c);
    case _ =>
  }

  /** How many callbacks for job j take effect in the run. */
  function Acceptances(s: Session, ops: seq<Op>, j: nat): nat
  {
    if |ops| == 0 then 0
    else
      Acceptances(s, ops[..|ops| - 1], j) + if Accepts(Run(s, ops[..|ops| - 1]), ops[|ops| - 1], j) then 1 else 0
  }

  /** In every run, from any session, at most one callback for a job takes effect, and none once the job
      is finished: repeated callbacks, recovery and resets never apply its effects twice. */
  lemma {:induction false} EffectsAtMostOnce(s: Session, ops: seq<Op>, j: nat)
    ensures Acceptances(s, ops, j) <= 1
    ensures Acceptances(s, ops, j) == 1 ==> j < |Run(s, ops).jobs| && Terminal(Run(s, ops).jobs[j])
    ensures j < |s.jobs| && Terminal(s.jobs[j]) ==> Acceptances(s, ops, j) == 0
  {
    if |ops| > 0 {
      var mid, op := Run(s, ops[..|ops| - 1]), ops[|ops| - 1];
      EffectsAtMostOnce(s, ops[..|ops| - 1], j);
      if Accepts(mid, op, j) { AcceptedFinishes(mid, op, j); }
      StepLater(mid, op);
      RunLater(s, ops[..|ops| - 1]);
    }
  }

  lemma ClaimWhenFreeNeverFinishes(s: Session, i: nat, worker: string, sweep: Sweep, j: nat)
    requires i < |s.agents| && j < |s.jobs| && !Terminal(s.jobs[j])
    ensures var r := ClaimWhenFree(s, i, worker, sweep).0; j < |r.jobs| && !Terminal(r.jobs[j])
  {
  }

  lemma ClaimNeverFinishes(s: Session, name: string, worker: string, sweep: Sweep, j: nat)
    requires j < |s.jobs| && !Terminal(s.jobs[j])
    ensures var r := ClaimNextJob(s, name, worker, sweep).0; j < |r.jobs| && !Terminal(r.jobs[j])
  {
    ClaimIsFree(s, name, worker, sweep);
    if ClaimNextJob(s, name, worker, sweep).0.jobs != s.jobs {
      var i := FindAgent(s.agents, name).value;
      match ActiveJob(s.jobs, name)
      case None => ClaimWhenFreeNeverFinishes(s, i, worker, sweep, j);
      case Some(k) => ClaimWhenFreeNeverFinishes(Recover(s, k), i, worker, sweep, j);
    }
  }

  /** Attaching workers, posting work and the session-wide operations complete and fail no job. */
  lemma OthersNeverFinish(s: Session, op: Op, j: nat)
    requires !op.Complete? && !op.Fail? && !op.Claim? && !op.Reset?
    requires j < |s.jobs| && !Terminal(s.jobs[j]) && j < |Step(s, op).0.jobs|
    ensures Step(s, op).0.jobs[j].status !in {Completed, Failed}
  {
  }

  /** The callback names no lease, epoch or revision but the job's own. */
  ghost predicate NamesOwn(s: Session, c: Callback, j: Job)
  {
    && (c.lease.Some? && j.lease.Some? ==> j.lease == c.lease)
    && (c.epoch.Some? ==> c.epoch.value == s.epoch)
    && (c.revision.Some? && j.revision != 0 ==> c.revision.value == j.revision)
  }

  /** A callback for an unfinished job by its agent takes effect exactly when the worker is the job's or the job is
      pending, and it names no other lease, epoch or revision. So while a job waits, also one recovered from a lost
      worker, any worker under the agent's name gets in; while it runs, only its own worker does. */
  lemma AppliedIff(s: Session, c: Callback)
    requires Inv(s) && c.job < |s.jobs| && !Terminal(s.jobs[c.job])
    requires c.agent == s.jobs[c.job].agent && FindAgent(s.agents, c.agent).Some?
    ensures Admit(s, c) == Applied
      <==> (s.jobs[c.job].status == Pending || s.jobs[c.job].worker == Some(c.worker)) && NamesOwn(s, c, s.jobs[c.job])
  {
    assert JobRow(s.jobs[c.job], s.agents, s.epoch, s.nextLease);
  }

  /** The callback may finish the job. */
  ghost predicate MayFinish(s: Session, c: Callback, j: nat)
    requires j < |s.jobs|
  {
    && c.job == j && c.agent == s.jobs[j].agent && NamesOwn(s, c, s.jobs[j])
    && (s.jobs[j].status == Pending || s.jobs[j].worker == Some(c.worker))
  }

  lemma AdmittedMayFinish(s: Session, c: Callback)
    requires Inv(s) && Admit(s, c) == Applied
    ensures MayFinish(s, c, c.job)
  {
    AppliedIff(s, c);
  }

  /** An unfinished job becomes completed or failed only through a callback under its own agent that names no lease,
      revision or epoch but its own, and while it runs only through one of the worker that runs it. */
  lemma FinishedByOwner(s: Session, op: Op, j: nat)
    requires Inv(s) && j < |s.jobs| && !Terminal(s.jobs[j])
    requires j < |Step(s, op).0.jobs| && Step(s, op).0.jobs[j].status in {Completed, Failed}
    ensures IsCallback(op, j) && MayFinish(s, op.callback, j)
  {
    match op
    case Complete(c, out) =>
      if Admit(s, c) == Applied {
        CompleteJobsFrame(s, c, out);
        AdmittedMayFinish(s, c);
      }
    case Fail(c) =>
      if Admit(s, c) == Applied {
        FailJobsFrame(s, c);
        AdmittedMayFinish(s, c);
      }
    case Claim(name, worker, sweep) => ClaimNeverFinishes(s, name, worker, sweep, j);
    case Reset => ResetCancels(s);
    case _ => OthersNeverFinish(s, op, j);
  }

  /** After a reset, whatever else happens, no callback for a job that existed before it changes any row. */
  lemma EpochFence(s: Session, more: seq<Op>, op: Op, j: nat)
    requires j < |s.jobs| && IsCallback(op, j)
    ensures var after := Run(ResetSession(s), more); Step(after, op).0 == after && Step(after, op).1 != Applied
  {
    var after := Run(ResetSession(s), more);
    ResetCancels(s);
    RunLater(ResetSession(s), more);
    assert JobLater(ResetSession(s).jobs[j], after.jobs[j]);
    if Accepts(after, op, j) { AcceptedFinishes(after, op, j); }
    RefusedChangesNothing(after, op, j);
  }

  /** Along every run no task's revision decreases and its key never changes. */
  lemma RevisionsOverRuns(s: Session, ops: seq<Op>, t: nat)
    requires t < |s.tasks|
    ensures var r := Run(s, ops);
      t < |r.tasks| && r.tasks[t].key == s.tasks[t].key && s.tasks[t].revision <= r.tasks[t].revision
  {
    RunLater(s, ops);
    assert TaskLater(s.tasks[t], Run(s, ops).tasks[t]);
  }

  // ---- handoffs ----

  lemma FoundTask(tasks: seq<Task>, t: nat, key: string)
    requires t < |tasks| && tasks[t].key == key
    requires forall u :: 0 <= u < t ==> tasks[u].key != key
    ensures FindTask(tasks, key) == Some(t)
  {
  }

  /** A task just handed over to the request's target has a live handoff that the request repeats. */
  lemma EnqueuedIsDuplicate(s: Session, t: nat, source: string, role: string, r: HandoffRequest)
    requires t < |s.tasks| && s.tasks[t].epoch == s.epoch && s.tasks[t].assignee == Some(r.target)
    requires s.tasks[t].body == r.body && s.tasks[t].state == TaskReady
    ensures Duplicate(Enqueue(s, t, source, role, r), t, r)
  {
    var out := Enqueue(s, t, source, role, r);
    assert out.handoffs[|s.handoffs|].task == t;
  }

  lemma NewTaskRepeats(s: Session, source: string, r: HandoffRequest)
    requires FindAgent(s.agents, r.target).Some? && FindTask(s.tasks, KeyFor(s.tasks, r)).None?
    ensures var once := QueueHandoff(s, source, r).0;
      |once.tasks| == |s.tasks| + 1 && Duplicate(once, |s.tasks|, r)
      && FindTask(once.tasks, KeyFor(s.tasks, r)) == Some(|s.tasks|)
  {
    var key := KeyFor(s.tasks, r);
    var role := s.agents[FindAgent(s.agents, r.target).value].role;
    var task := Task(key, role, Some(r.target), source, TaskReady, 1, s.epoch, None, None, r.body, r.semantic, r.files);
    var mid := s.(tasks := s.tasks + [task]);
    EnqueuedIsDuplicate(mid, |s.tasks|, source, role, r);
    FoundTask(mid.tasks, |s.tasks|, key);
  }

  lemma KnownTaskRepeats(s: Session, source: string, r: HandoffRequest, t: nat)
    requires FindAgent(s.agents, r.target).Some? && FindTask(s.tasks, KeyFor(s.tasks, r)) == Some(t)
    requires t < |s.tasks| && !Duplicate(s, t, r)
    ensures var once := QueueHandoff(s, source, r).0;
      |once.tasks| == |s.tasks| && Duplicate(once, t, r)
      && FindTask(once.tasks, KeyFor(s.tasks, r)) == Some(t)
  {
    var key := KeyFor(s.tasks, r);
    var role := s.agents[FindAgent(s.agents, r.target).value].role;
    var mid := s.(tasks := s.tasks[t := Rehanded(s, s.tasks[t], source, role, r)]);
    EnqueuedIsDuplicate(mid, t, source, role, r);
    FoundTask(mid.tasks, t, key);
  }

  lemma NoTaskOfKey(tasks: seq<Task>, keys: seq<string>, key: string)
    requires keys == Apply(tasks, (t: Task) => t.key) && key !in keys
    ensures FindTask(tasks, key).None?
  {
    assert forall t :: 0 <= t < |tasks| ==> keys[t] in keys;
  }

  /** An unnamed request always opens a new task. */
  lemma UnnamedIsNew(s: Session, r: HandoffRequest)
    requires r.taskId.None? || TaskKeys.Number(r.taskId.value).None?
    ensures FindTask(s.tasks, KeyFor(s.tasks, r)).None?
  {
    var keys := Apply(s.tasks, (t: Task) => t.key);
    TaskKeys.AllocateIsFresh(keys);
    NoTaskOfKey(s.tasks, keys, TaskKeys.Allocate(keys));
  }

  /** Emitting a handoff a second time right away adds nothing and changes nothing, exactly when the handoff names
      its task by a canonical key. */
  lemma HandoffIdempotentIff(s: Session, source: string, again: string, r: HandoffRequest)
    requires FindAgent(s.agents, r.target).Some?
    ensures var once := QueueHandoff(s, source, r).0;
      QueueHandoff(once, again, r) == (once, false)
      <==> r.taskId.Some? && TaskKeys.Number(r.taskId.value).Some?
  {
    if r.taskId.Some? && TaskKeys.Number(r.taskId.value).Some? {
      match FindTask(s.tasks, KeyFor(s.tasks, r))
      case None => NewTaskRepeats(s, source, r);
      case Some(t) => if !Duplicate(s, t, r) { KnownTaskRepeats(s, source, r, t); }
    } else {
      UnnamedIsNew(QueueHandoff(s, source, r).0, r);
    }
  }
}
