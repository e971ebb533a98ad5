/** Handoffs that wait in vain: a queued handoff whose task is at an end holds up every handoff behind it until the
    task is handed over again. */
module Starvation {
  import opened Text
  import opened Rows
  import opened ControlBlocks
  import opened Protocol
  import opened Invariants
  import opened Steps
  import opened Runs
  import opened History
  import opened Guarantees
  import opened Claiming
  import opened Serving
  import TaskKeys

  predicate AtEnd(t: Task)
  {
    t.state in {TaskBlocked, TaskDone, TaskFailed}
  }

  /** Handoff k is queued while its task is at an end. */
  ghost predicate Stuck(s: Session, k: nat)
  {
    && k < |s.handoffs| && s.handoffs[k].state == Queued
    && s.handoffs[k].task < |s.tasks| && AtEnd(s.tasks[s.handoffs[k].task])
  }

  /** While it is stuck, and no running task claims its scopes, no handoff behind it is started by an agent it is
      meant for. */
  lemma StuckHoldsUp(s: Session, a: Agent, k: nat)
    requires Inv(s) && Stuck(s, k) && MeantFor(s.handoffs[k], a) && CanSelfClaim(s.tasks, s.handoffs[k].task)
    ensures ReadyHandoff(s, a).Some? ==> ReadyHandoff(s, a).value < k
  {
    assert Admissible(s, a, s.handoffs[k]);
  }

  // ---- what leaves it stuck ----

  /** Handoff k and its task are as they were. */
  ghost predicate Untouched(a: Session, b: Session, k: nat)
    requires k < |a.handoffs| && a.handoffs[k].task < |a.tasks|
  {
    && k < |b.handoffs| && b.handoffs[k] == a.handoffs[k]
    && a.handoffs[k].task < |b.tasks| && b.tasks[a.handoffs[k].task] == a.tasks[a.handoffs[k].task]
  }

  lemma QueueHandoffLeaves(s: Session, source: string, r: HandoffRequest, k: nat)
    requires FindAgent(s.agents, r.target).Some? && k < |s.handoffs| && s.handoffs[k].task < |s.tasks|
    requires r.taskId != Some(s.tasks[s.handoffs[k].task].key)
    ensures Untouched(s, QueueHandoff(s, source, r).0, k)
  {
    var t := s.handoffs[k].task;
    QueueHandoffOtherTask(s, source, r, t);
    match FindTask(s.tasks, KeyFor(s.tasks, r))
    case None => assert QueueHandoff(s, source, r).0.handoffs[k] == Retire(s.handoffs[k], |s.tasks|);
    case Some(u) =>
      if !Duplicate(s, u, r) {
        OtherKeyOtherTask(s, r, u, t);
        assert QueueHandoff(s, source, r).0.handoffs[k] == Retire(s.handoffs[k], u);
      }
  }

  lemma {:induction false} QueueEachLeaves(s: Session, source: string, rs: seq<HandoffRequest>, k: nat)
    requires KnownTargets(s.agents, rs) && k < |s.handoffs| && s.handoffs[k].task < |s.tasks|
    requires !SameTask(rs, s.tasks[s.handoffs[k].task].key)
    ensures Untouched(s, QueueEach(s, source, rs).0, k)
  {
    if |rs| > 0 {
      NotSameFront(rs, s.tasks[s.handoffs[k].task].key);
      QueueEachLeaves(s, source, rs[..|rs| - 1], k);
      QueueHandoffLeaves(QueueEach(s, source, rs[..|rs| - 1]).0, source, rs[|rs| - 1], k);
    }
  }

  lemma NotSameFront(rs: seq<HandoffRequest>, key: string)
    requires |rs| > 0
    ensures SameTask(rs, key) <==> SameTask(rs[..|rs| - 1], key) || rs[|rs| - 1].taskId == Some(key)
  {
    var front := rs[..|rs| - 1];
    if k :| 0 <= k < |rs| && rs[k].taskId == Some(key) {
      if k < |front| { assert front[k].taskId == Some(key); }
    }
    if k :| 0 <= k < |front| && front[k].taskId == Some(key) { assert rs[k].taskId == Some(key); }
  }

  lemma BlankLeaves(s: Session, r: Session, k: nat)
    requires OnlyBlankJobs(s, r) && k < |s.handoffs| && s.handoffs[k].task < |s.tasks|
    ensures Untouched(s, r, k)
  {
  }

  lemma QueueHandoffsLeaves(s: Session, source: string, rs: seq<HandoffRequest>, k: nat)
    requires KnownTargets(s.agents, rs) && k < |s.handoffs| && s.handoffs[k].task < |s.tasks|
    requires !SameTask(rs, s.tasks[s.handoffs[k].task].key)
    ensures Untouched(s, QueueHandoffs(s, source, rs), k)
  {
    QueueEachLeaves(s, source, rs, k);
    CuratorEventIsBlank(QueueEach(s, source, rs).0, source);
    BlankLeaves(QueueEach(s, source, rs).0, QueueCuratorEvent(QueueEach(s, source, rs).0, source), k);
  }

  /** The job's own handoff is not the stuck one. */
  lemma OwnHandoffIsOther(s: Session, j: nat, k: nat)
    requires Inv(s) && j < |s.jobs| && !Terminal(s.jobs[j]) && Stuck(s, k)
    ensures s.jobs[j].handoff != Some(k)
  {
    assert JobRefs(s.jobs[j], |s.tasks|, s.handoffs);
  }

  lemma SyncLeavesStuck(s: Session, was: Job, question: bool, rs: seq<HandoffRequest>, k: nat)
    requires Stuck(s, k) && was.handoff != Some(k) && !SameTask(rs, s.tasks[s.handoffs[k].task].key)
    ensures Stuck(SyncCompleted(s, was, question, rs), k) && Stuck(SyncFailed(s, was), k)
  {
  }

  lemma FollowUpsLeave(s: Session, source: string, ds: seq<DiscussRequest>, rejected: seq<Rejection>)
    ensures var r := QueueRepair(QueueDiscussions(s, source, ds), source, rejected);
      r.tasks == s.tasks && r.handoffs == s.handoffs
  {
    DiscussionsAreBlank(s, source, ds);
    RepairIsBlank(QueueDiscussions(s, source, ds), source, rejected);
  }

  /** The session after a completion has filed its handoffs and before it settles its own task. */
  function Filed(s: Session, c: Callback, out: Output): Session
    requires Admit(s, c) == Applied
  {
    var hs := AcceptedHandoffs(s, c, out);
    var ds := ExtractDiscussions(s.agents, c.agent, out.discussions).accepted;
    QueueRepair(QueueDiscussions(QueueHandoffs(MarkCompleted(s, c, out), c.agent, hs.accepted), c.agent, ds), c.agent, hs.rejected)
  }

  lemma CompleteFromFiled(s: Session, c: Callback, out: Output)
    requires Admit(s, c) == Applied
    ensures CompleteJob(s, c, out).0
      == SyncCompleted(Filed(s, c, out), s.jobs[c.job], out.question, AcceptedHandoffs(s, c, out).accepted)
    ensures var q := QueueHandoffs(MarkCompleted(s, c, out), c.agent, AcceptedHandoffs(s, c, out).accepted);
      Filed(s, c, out).tasks == q.tasks && Filed(s, c, out).handoffs == q.handoffs
  {
    var hs := AcceptedHandoffs(s, c, out);
    var ds := ExtractDiscussions(s.agents, c.agent, out.discussions).accepted;
    FollowUpsLeave(QueueHandoffs(MarkCompleted(s, c, out), c.agent, hs.accepted), c.agent, ds, hs.rejected);
  }

  lemma CompleteLeavesStuck(s: Session, c: Callback, out: Output, k: nat)
    requires Inv(s) && Admit(s, c) == Applied && Stuck(s, k)
    requires !SameTask(AcceptedHandoffs(s, c, out).accepted, s.tasks[s.handoffs[k].task].key)
    ensures Stuck(CompleteJob(s, c, out).0, k)
  {
    var hs := AcceptedHandoffs(s, c, out);
    QueueHandoffsLeaves(MarkCompleted(s, c, out), c.agent, hs.accepted, k);
    CompleteFromFiled(s, c, out);
    OwnHandoffIsOther(s, c.job, k);
    SyncLeavesStuck(Filed(s, c, out), s.jobs[c.job], out.question, hs.accepted, k);
  }

  lemma SyncSticks(s: Session, was: Job, question: bool, rs: seq<HandoffRequest>, k: nat)
    requires k < |s.handoffs| && s.handoffs[k].state == Queued && s.handoffs[k].task < |s.tasks|
    requires was.task == Some(s.handoffs[k].task) && was.handoff != Some(k) && !SameTask(rs, s.tasks[s.handoffs[k].task].key)
    ensures var r := SyncCompleted(s, was, question, rs); Stuck(r, k) && r.handoffs[k] == s.handoffs[k]
  {
  }

  /** A job that finishes a task handed over meanwhile leaves the new handoff stuck. */
  lemma StaleCompletionSticks(s: Session, c: Callback, out: Output, k: nat)
    requires Inv(s) && Admit(s, c) == Applied && k < |s.handoffs| && s.handoffs[k].state == Queued
    requires s.jobs[c.job].task == Some(s.handoffs[k].task)
    requires !SameTask(AcceptedHandoffs(s, c, out).accepted, s.tasks[s.handoffs[k].task].key)
    ensures Stuck(CompleteJob(s, c, out).0, k)
    ensures CompleteJob(s, c, out).0.handoffs[k] == s.handoffs[k]
  {
    var hs := AcceptedHandoffs(s, c, out);
    assert JobRefs(s.jobs[c.job], |s.tasks|, s.handoffs);
    QueueHandoffsLeaves(MarkCompleted(s, c, out), c.agent, hs.accepted, k);
    CompleteFromFiled(s, c, out);
    SyncSticks(Filed(s, c, out), s.jobs[c.job], out.question, hs.accepted, k);
  }

  lemma FailLeavesStuck(s: Session, c: Callback, k: nat)
    requires Inv(s) && Stuck(s, k)
    ensures Stuck(FailJob(s, c).0, k)
  {
    if Admit(s, c) == Applied {
      var finished := FinishJob(s, c.job, Failed, FindAgent(s.agents, c.agent).value);
      OwnHandoffIsOther(s, c.job, k);
      SyncLeavesStuck(finished, s.jobs[c.job], false, [], k);
      RecoveryIsBlank(SyncFailed(finished, s.jobs[c.job]), c.agent, s.jobs[c.job].kind);
    }
  }

  lemma StartLeavesStuck(s: Session, i: nat, h: nat, worker: string, k: nat)
    requires i < |s.agents| && ReadyHandoff(s, s.agents[i]) == Some(h) && Stuck(s, k)
    ensures h < |s.handoffs| && s.handoffs[h].task < |s.tasks| && Stuck(ClaimHandoff(s, i, h, worker).0, k)
  {
  }

  lemma FreeLeavesStuck(s: Session, i: nat, worker: string, sweep: Sweep, k: nat)
    requires i < |s.agents| && Stuck(s, k)
    ensures Stuck(ClaimWhenFree(s, i, worker, sweep).0, k)
  {
    if ReadyHandoff(s, s.agents[i]).Some? { StartLeavesStuck(s, i, ReadyHandoff(s, s.agents[i]).value, worker, k); }
    FreeStarts(s, i, worker, sweep);
  }

  lemma ClaimLeavesStuck(s: Session, name: string, worker: string, sweep: Sweep, k: nat)
    requires Stuck(s, k)
    ensures Stuck(ClaimNextJob(s, name, worker, sweep).0, k)
  {
    ClaimIsFree(s, name, worker, sweep);
    var r := ClaimNextJob(s, name, worker, sweep).0;
    if !(r.tasks == s.tasks && r.handoffs == s.handoffs) {
      var i := FindAgent(s.agents, name).value;
      match ActiveJob(s.jobs, name)
      case None => FreeLeavesStuck(s, i, worker, sweep, k);
      case Some(j) => FreeLeavesStuck(Recover(s, j), i, worker, sweep, k);
    }
  }

  /** A reset does not help either: the handoff stays queued and the task at its end, in the new epoch. */
  lemma ResetLeavesStuck(s: Session, k: nat)
    requires Stuck(s, k)
    ensures Stuck(ResetSession(s), k)
  {
  }

  lemma OthersLeaveStuck(s: Session, op: Op, k: nat)
    requires Stuck(s, k) && !op.Complete? && !op.Fail? && !op.Claim? && !op.Reset?
    ensures Stuck(Step(s, op).0, k)
  {
  }

  // ---- what ends it ----

  /** The step completes a job whose accepted handoffs name the task of handoff k. */
  ghost predicate HandsOverAgain(s: Session, op: Op, k: nat)
    requires k < |s.handoffs| && s.handoffs[k].task < |s.tasks|
  {
    && op.Complete? && Admit(s, op.callback) == Applied
    && SameTask(AcceptedHandoffs(s, op.callback, op.output).accepted, s.tasks[s.handoffs[k].task].key)
  }

  ghost predicate AllCanonical(rs: seq<HandoffRequest>)
  {
    forall i :: 0 <= i < |rs| ==> rs[i].taskId.Some? && TaskKeys.Number(rs[i].taskId.value).Some?
  }

  lemma AcceptedCanonical(agents: seq<Agent>, source: string, blocks: seq<HandoffBlock>)
    ensures AllCanonical(ExtractHandoffs(agents, source, blocks).accepted)
  {
    var rs := ExtractHandoffs(agents, source, blocks).accepted;
    forall i | 0 <= i < |rs| ensures rs[i].taskId.Some? && TaskKeys.Number(rs[i].taskId.value).Some? {
      AcceptedHandoffNamesTask(agents, source, blocks, rs[i]);
    }
  }

  /** Key t is the first of its kind. */
  ghost predicate FirstKey(tasks: seq<Task>, t: nat)
  {
    t < |tasks| && forall u :: 0 <= u < t ==> tasks[u].key != tasks[t].key
  }

  /** Handing over a task at an end retires its live handoffs. */
  lemma RehandRetires(s: Session, source: string, r: HandoffRequest, t: nat)
    requires FindAgent(s.agents, r.target).Some? && t < |s.tasks| && AtEnd(s.tasks[t])
    requires FindTask(s.tasks, KeyFor(s.tasks, r)) == Some(t)
    ensures var out := QueueHandoff(s, source, r).0;
      |s.handoffs| <= |out.handoffs| && forall k :: 0 <= k < |s.handoffs| ==> out.handoffs[k] == Retire(s.handoffs[k], t)
  {
    assert !Duplicate(s, t, r);
  }

  lemma RehandSupersedes(s: Session, source: string, r: HandoffRequest, k: nat)
    requires FindAgent(s.agents, r.target).Some? && Stuck(s, k) && FirstKey(s.tasks, s.handoffs[k].task)
    requires r.taskId == Some(s.tasks[s.handoffs[k].task].key) && TaskKeys.Number(r.taskId.value).Some?
    ensures var out := QueueHandoff(s, source, r).0; k < |out.handoffs| && !Live(out.handoffs[k])
  {
    var t := s.handoffs[k].task;
    FoundTask(s.tasks, t, s.tasks[t].key);
    RehandRetires(s, source, r, t);
  }

  ghost predicate Dead(handoffs: seq<Handoff>, k: nat)
  {
    k < |handoffs| && !Live(handoffs[k])
  }

  lemma DeadStays(s: Session, source: string, rs: seq<HandoffRequest>, k: nat)
    requires |rs| > 0 && KnownTargets(s.agents, rs) && Dead(QueueEach(s, source, rs[..|rs| - 1]).0.handoffs, k)
    ensures Dead(QueueEach(s, source, rs).0.handoffs, k)
  {
    var mid, last := QueueEach(s, source, rs[..|rs| - 1]).0, rs[|rs| - 1];
    QueueHandoffLater(mid, source, last);
    assert HandoffLater(mid.handoffs[k], QueueHandoff(mid, source, last).0.handoffs[k]);
  }

  /** The last request names the task, and none before it does. */
  lemma LastSupersedes(s: Session, source: string, rs: seq<HandoffRequest>, k: nat)
    requires |rs| > 0 && KnownTargets(s.agents, rs) && AllCanonical(rs)
    requires Stuck(s, k) && FirstKey(s.tasks, s.handoffs[k].task)
    requires !SameTask(rs[..|rs| - 1], s.tasks[s.handoffs[k].task].key)
    requires rs[|rs| - 1].taskId == Some(s.tasks[s.handoffs[k].task].key)
    ensures Dead(QueueEach(s, source, rs).0.handoffs, k)
  {
    var front, last := rs[..|rs| - 1], rs[|rs| - 1];
    var mid := QueueEach(s, source, front).0;
    QueueEachLater(s, source, front);
    QueueEachLeaves(s, source, front, k);
    KeepsFirstKey(s.tasks, mid.tasks, s.handoffs[k].task);
    RehandSupersedes(mid, source, last, k);
  }

  /** The requests are in order, and k waits for its task of the given key. */
  ghost predicate Owing(s: Session, rs: seq<HandoffRequest>, k: nat, key: string)
  {
    && KnownTargets(s.agents, rs) && AllCanonical(rs)
    && Stuck(s, k) && FirstKey(s.tasks, s.handoffs[k].task) && s.tasks[s.handoffs[k].task].key == key
  }

  lemma OwingFront(s: Session, rs: seq<HandoffRequest>, k: nat, key: string)
    requires |rs| > 0 && Owing(s, rs, k, key)
    ensures Owing(s, rs[..|rs| - 1], k, key)
  {
  }

  lemma OwingStep(s: Session, source: string, rs: seq<HandoffRequest>, k: nat, key: string)
    requires |rs| > 0 && Owing(s, rs, k, key) && SameTask(rs, key)
    requires SameTask(rs[..|rs| - 1], key) ==> Dead(QueueEach(s, source, rs[..|rs| - 1]).0.handoffs, k)
    ensures Dead(QueueEach(s, source, rs).0.handoffs, k)
  {
    NotSameFront(rs, key);
    if SameTask(rs[..|rs| - 1], key) { DeadStays(s, source, rs, k); } else { LastSupersedes(s, source, rs, k); }
  }

  lemma {:induction false} QueueEachSupersedes(s: Session, source: string, rs: seq<HandoffRequest>, k: nat, key: string)
    requires Owing(s, rs, k, key) && SameTask(rs, key)
    ensures Dead(QueueEach(s, source, rs).0.handoffs, k)
    decreases |rs|
  {
    OwingFront(s, rs, k, key);
    if SameTask(rs[..|rs| - 1], key) { QueueEachSupersedes(s, source, rs[..|rs| - 1], k, key); }
    OwingStep(s, source, rs, k, key);
  }

  lemma KeepsFirstKey(a: seq<Task>, b: seq<Task>, t: nat)
    requires TasksLater(a, b) && FirstKey(a, t)
    ensures FirstKey(b, t)
  {
    assert TaskLater(a[t], b[t]);
    forall u | 0 <= u < t ensures b[u].key != b[t].key { assert TaskLater(a[u], b[u]); }
  }

  lemma SyncKeepsDead(s: Session, was: Job, question: bool, rs: seq<HandoffRequest>, k: nat)
    requires Dead(s.handoffs, k)
    ensures Dead(SyncCompleted(s, was, question, rs).handoffs, k)
  {
  }

  lemma CompleteSupersedes(s: Session, c: Callback, out: Output, k: nat)
    requires Inv(s) && Admit(s, c) == Applied && Stuck(s, k)
    requires SameTask(AcceptedHandoffs(s, c, out).accepted, s.tasks[s.handoffs[k].task].key)
    ensures Dead(CompleteJob(s, c, out).0.handoffs, k)
  {
    var hs := AcceptedHandoffs(s, c, out);
    var done := MarkCompleted(s, c, out);
    AcceptedCanonical(s.agents, c.agent, out.handoffs);
    QueueEachSupersedes(done, c.agent, hs.accepted, k, s.tasks[s.handoffs[k].task].key);
    CuratorEventIsBlank(QueueEach(done, c.agent, hs.accepted).0, c.agent);
    CompleteFromFiled(s, c, out);
    SyncKeepsDead(Filed(s, c, out), s.jobs[c.job], out.question, hs.accepted, k);
  }

  lemma UnrehandedStaysStuck(s: Session, op: Op, k: nat)
    requires Inv(s) && Stuck(s, k) && !HandsOverAgain(s, op, k)
    ensures Stuck(Step(s, op).0, k)
  {
    match op
    case Complete(c, out) => if Admit(s, c) == Applied { CompleteLeavesStuck(s, c, out, k); }
    case Fail(c) => FailLeavesStuck(s, c, k);
    case Claim(name, worker, sweep) => ClaimLeavesStuck(s, name, worker, sweep, k);
    case Reset => ResetLeavesStuck(s, k);
    case _ => OthersLeaveStuck(s, op, k);
  }

  /** A stuck handoff gets unstuck exactly by a completion whose accepted handoffs name its task, and then it is
      superseded. */
  lemma StuckEndsIff(s: Session, op: Op, k: nat)
    requires Inv(s) && Stuck(s, k)
    ensures Stuck(Step(s, op).0, k) <==> !HandsOverAgain(s, op, k)
    ensures HandsOverAgain(s, op, k) ==> Dead(Step(s, op).0.handoffs, k)
  {
    if HandsOverAgain(s, op, k) {
      CompleteSupersedes(s, op.callback, op.output, k);
    } else {
      UnrehandedStaysStuck(s, op, k);
    }
  }

  // ---- over runs ----

  lemma {:induction false} InvRuns(s: Session, ops: seq<Op>)
    requires Inv(s)
    ensures Inv(Run(s, ops))
  {
    if |ops| > 0 {
      InvRuns(s, ops[..|ops| - 1]);
      StepKeepsInv(Run(s, ops[..|ops| - 1]), ops[|ops| - 1]);
    }
  }

  /** Some step of the run hands the task of handoff k over again while k is stuck. */
  ghost predicate HandedOverIn(s: Session, ops: seq<Op>, k: nat)
  {
    exists i: nat :: i < |ops| && HandedOverAt(s, ops, k, i)
  }

  ghost predicate HandedOverAt(s: Session, ops: seq<Op>, k: nat, i: nat)
    requires i < |ops|
  {
    var r := Run(s, ops[..i]);
    Stuck(r, k) && HandsOverAgain(r, ops[i], k)
  }

  lemma EarlierMoment(s: Session, front: seq<Op>, op: Op, k: nat, i: nat)
    requires i < |front|
    ensures HandedOverAt(s, front + [op], k, i) <==> HandedOverAt(s, front, k, i)
  {
    assert (front + [op])[..i] == front[..i];
  }

  lemma LastMoment(s: Session, front: seq<Op>, op: Op, k: nat)
    ensures HandedOverAt(s, front + [op], k, |front|) <==> Stuck(Run(s, front), k) && HandsOverAgain(Run(s, front), op, k)
  {
    assert (front + [op])[..|front|] == front;
  }

  lemma HandedOverSnoc(s: Session, front: seq<Op>, op: Op, k: nat)
    ensures HandedOverIn(s, front + [op], k) <==> HandedOverIn(s, front, k) || HandedOverAt(s, front + [op], k, |front|)
  {
    if i: nat :| i < |front + [op]| && HandedOverAt(s, front + [op], k, i) {
      if i < |front| { EarlierMoment(s, front, op, k, i); }
    }
    if i: nat :| i < |front| && HandedOverAt(s, front, k, i) { EarlierMoment(s, front, op, k, i); }
  }

  lemma RunSnoc(s: Session, front: seq<Op>, op: Op)
    ensures Run(s, front + [op]) == Step(Run(s, front), op).0
  {
    assert (front + [op])[..|front|] == front;
  }

  ghost predicate StuckOrDead(r: Session, k: nat, handed: bool)
  {
    if handed then Dead(r.handoffs, k) else Stuck(r, k)
  }

  lemma StuckStep(r: Session, op: Op, k: nat, handed: bool)
    requires Inv(r) && StuckOrDead(r, k, handed)
    ensures StuckOrDead(Step(r, op).0, k, handed || (Stuck(r, k) && HandsOverAgain(r, op, k)))
  {
    if handed {
      StepLater(r, op);
      assert HandoffLater(r.handoffs[k], Step(r, op).0.handoffs[k]);
    } else {
      StuckEndsIff(r, op, k);
    }
  }

  lemma {:induction false} StuckRun(s: Session, ops: seq<Op>, k: nat)
    requires Inv(s) && Stuck(s, k)
    ensures StuckOrDead(Run(s, ops), k, HandedOverIn(s, ops, k))
  {
    if |ops| > 0 {
      var front, op := ops[..|ops| - 1], ops[|ops| - 1];
      assert ops == front + [op];
      StuckRun(s, front, k);
      InvRuns(s, front);
      HandedOverSnoc(s, front, op, k);
      LastMoment(s, front, op, k);
      RunSnoc(s, front, op);
      StuckStep(Run(s, front), op, k, HandedOverIn(s, front, k));
    }
  }

  /** Over any run, through claims, failures, recoveries and resets, it stays stuck exactly as long as no completion
      hands its task over again. */
  lemma StuckUntilHandedOver(s: Session, ops: seq<Op>, k: nat)
    requires Inv(s) && Stuck(s, k)
    ensures Stuck(Run(s, ops), k) <==> !HandedOverIn(s, ops, k)
  {
    StuckRun(s, ops, k);
  }
}
