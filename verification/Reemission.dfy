/** Handing over again: when a handoff that is emitted while an earlier one is live adds nothing, over every run. */
module Reemission {
  import opened Text
  import opened Rows
  import opened ControlBlocks
  import opened Protocol
  import opened Invariants
  import opened Steps
  import opened Runs
  import opened History
  import opened Guarantees
  import TaskKeys

  // ---- a live handoff's body is its task's ----

  ghost predicate LiveBody(tasks: seq<Task>, h: Handoff)
  {
    Live(h) ==> h.task < |tasks| && h.body == tasks[h.task].body
  }

  ghost predicate LiveBodies(tasks: seq<Task>, handoffs: seq<Handoff>)
  {
    forall h :: 0 <= h < |handoffs| ==> LiveBody(tasks, handoffs[h])
  }

  ghost predicate CanonicalKeys(tasks: seq<Task>)
  {
    forall t :: 0 <= t < |tasks| ==> TaskKeys.Number(tasks[t].key).Some?
  }

  ghost predicate Bodied(s: Session)
  {
    LiveBodies(s.tasks, s.handoffs) && CanonicalKeys(s.tasks)
  }

  ghost predicate SameTexts(a: seq<Task>, b: seq<Task>)
  {
    |a| == |b| && forall t :: 0 <= t < |a| ==> b[t].key == a[t].key && b[t].body == a[t].body
  }

  /** Tasks keep their texts and no handoff comes to life. */
  lemma SameTextsBodied(a: Session, b: Session)
    requires Bodied(a) && SameTexts(a.tasks, b.tasks)
    requires |b.handoffs| == |a.handoffs| && HandoffsLater(a.handoffs, b.handoffs)
    ensures Bodied(b)
  {
    forall h | 0 <= h < |b.handoffs| ensures LiveBody(b.tasks, b.handoffs[h]) {
      assert HandoffLater(a.handoffs[h], b.handoffs[h]) && LiveBody(a.tasks, a.handoffs[h]);
    }
  }

  lemma BlankBodied(s: Session, r: Session)
    requires Bodied(s) && OnlyBlankJobs(s, r)
    ensures Bodied(r)
  {
  }

  /** Filing a handoff under task t, whose body is the request's: the others of t are retired. */
  lemma EnqueueBodied(s: Session, t: nat, source: string, role: string, r: HandoffRequest)
    requires t < |s.tasks| && s.tasks[t].body == r.body && CanonicalKeys(s.tasks)
    requires forall h :: 0 <= h < |s.handoffs| && s.handoffs[h].task != t ==> LiveBody(s.tasks, s.handoffs[h])
    ensures Bodied(Enqueue(s, t, source, role, r))
  {
    var out := Enqueue(s, t, source, role, r);
    forall h | 0 <= h < |out.handoffs| ensures LiveBody(out.tasks, out.handoffs[h]) {
      if h < |s.handoffs| { assert out.handoffs[h] == Retire(s.handoffs[h], t); }
    }
  }

  lemma KeyIsCanonical(tasks: seq<Task>, r: HandoffRequest)
    ensures TaskKeys.Number(KeyFor(tasks, r)).Some?
  {
    TaskKeys.AllocateIsFresh(Apply(tasks, (t: Task) => t.key));
  }

  lemma OpenedBodied(s: Session, source: string, r: HandoffRequest)
    requires Bodied(s) && FindAgent(s.agents, r.target).Some? && FindTask(s.tasks, KeyFor(s.tasks, r)).None?
    ensures Bodied(QueueHandoff(s, source, r).0)
  {
    var key := KeyFor(s.tasks, r);
    var role := s.agents[FindAgent(s.agents, r.target).value].role;
    var task := Task(key, role, Some(r.target), source, TaskReady, 1, s.epoch, None, None, r.body, r.semantic, r.files);
    var mid := s.(tasks := s.tasks + [task]);
    KeyIsCanonical(s.tasks, r);
    forall h | 0 <= h < |s.handoffs| ensures LiveBody(mid.tasks, s.handoffs[h]) {
      assert LiveBody(s.tasks, s.handoffs[h]);
    }
    EnqueueBodied(mid, |s.tasks|, source, role, r);
  }

  lemma RehandIsEnqueue(s: Session, source: string, r: HandoffRequest, t: nat, role: string)
    requires FindAgent(s.agents, r.target).Some? && FindTask(s.tasks, KeyFor(s.tasks, r)) == Some(t)
    requires t < |s.tasks| && !Duplicate(s, t, r) && role == s.agents[FindAgent(s.agents, r.target).value].role
    ensures QueueHandoff(s, source, r).0
      == Enqueue(s.(tasks := s.tasks[t := Rehanded(s, s.tasks[t], source, role, r)]), t, source, role, r)
  {
  }

  lemma RehandKeys(s: Session, source: string, role: string, r: HandoffRequest, t: nat)
    requires t < |s.tasks| && CanonicalKeys(s.tasks)
    ensures CanonicalKeys(s.tasks[t := Rehanded(s, s.tasks[t], source, role, r)])
  {
  }

  lemma RehandedRowBodied(s: Session, source: string, role: string, r: HandoffRequest, t: nat)
    requires Bodied(s) && t < |s.tasks|
    ensures Bodied(Enqueue(s.(tasks := s.tasks[t := Rehanded(s, s.tasks[t], source, role, r)]), t, source, role, r))
  {
    var mid := s.(tasks := s.tasks[t := Rehanded(s, s.tasks[t], source, role, r)]);
    RehandKeys(s, source, role, r, t);
    forall h | 0 <= h < |s.handoffs| && s.handoffs[h].task != t ensures LiveBody(mid.tasks, s.handoffs[h]) {
      assert LiveBody(s.tasks, s.handoffs[h]);
    }
    EnqueueBodied(mid, t, source, role, r);
  }

  lemma RehandedBodied(s: Session, source: string, r: HandoffRequest, t: nat)
    requires Bodied(s) && FindAgent(s.agents, r.target).Some? && FindTask(s.tasks, KeyFor(s.tasks, r)) == Some(t)
    requires t < |s.tasks| && !Duplicate(s, t, r)
    ensures Bodied(QueueHandoff(s, source, r).0)
  {
    var role := s.agents[FindAgent(s.agents, r.target).value].role;
    RehandIsEnqueue(s, source, r, t, role);
    RehandedRowBodied(s, source, role, r, t);
  }

  lemma QueueHandoffBodied(s: Session, source: string, r: HandoffRequest)
    requires Bodied(s) && FindAgent(s.agents, r.target).Some?
    ensures Bodied(QueueHandoff(s, source, r).0)
  {
    match FindTask(s.tasks, KeyFor(s.tasks, r))
    case None => OpenedBodied(s, source, r);
    case Some(t) => if !Duplicate(s, t, r) { RehandedBodied(s, source, r, t); }
  }

  lemma {:induction false} QueueEachBodied(s: Session, source: string, rs: seq<HandoffRequest>)
    requires Bodied(s) && KnownTargets(s.agents, rs)
    ensures Bodied(QueueEach(s, source, rs).0)
  {
    if |rs| > 0 {
      QueueEachBodied(s, source, rs[..|rs| - 1]);
      QueueHandoffBodied(QueueEach(s, source, rs[..|rs| - 1]).0, source, rs[|rs| - 1]);
    }
  }

  lemma QueueHandoffsBodied(s: Session, source: string, rs: seq<HandoffRequest>)
    requires Bodied(s) && KnownTargets(s.agents, rs)
    ensures Bodied(QueueHandoffs(s, source, rs))
  {
    QueueEachBodied(s, source, rs);
    CuratorEventIsBlank(QueueEach(s, source, rs).0, source);
    BlankBodied(QueueEach(s, source, rs).0, QueueCuratorEvent(QueueEach(s, source, rs).0, source));
  }

  lemma FollowUpsBodied(s: Session, source: string, ds: seq<DiscussRequest>, rejected: seq<Rejection>)
    requires Bodied(s)
    ensures Bodied(QueueRepair(QueueDiscussions(s, source, ds), source, rejected))
  {
    DiscussionsAreBlank(s, source, ds);
    BlankBodied(s, QueueDiscussions(s, source, ds));
    RepairIsBlank(QueueDiscussions(s, source, ds), source, rejected);
    BlankBodied(QueueDiscussions(s, source, ds), QueueRepair(QueueDiscussions(s, source, ds), source, rejected));
  }

  lemma SyncBodied(s: Session, was: Job, question: bool, rs: seq<HandoffRequest>)
    requires Bodied(s)
    ensures Bodied(SyncCompleted(s, was, question, rs)) && Bodied(SyncFailed(s, was))
  {
    SyncLater(s, was, question, rs);
    SyncTexts(s, was, question, rs);
    SameTextsBodied(s, SyncCompleted(s, was, question, rs));
    SameTextsBodied(s, SyncFailed(s, was));
  }

  lemma SyncTexts(s: Session, was: Job, question: bool, rs: seq<HandoffRequest>)
    ensures SameTexts(s.tasks, SyncCompleted(s, was, question, rs).tasks) && SameTexts(s.tasks, SyncFailed(s, was).tasks)
    ensures |SyncCompleted(s, was, question, rs).handoffs| == |s.handoffs| == |SyncFailed(s, was).handoffs|
  {
  }

  lemma CompleteBodied(s: Session, c: Callback, out: Output)
    requires Bodied(s)
    ensures Bodied(CompleteJob(s, c, out).0)
  {
    if Admit(s, c) == Applied {
      var hs := AcceptedHandoffs(s, c, out);
      var ds := ExtractDiscussions(s.agents, c.agent, out.discussions).accepted;
      var done := MarkCompleted(s, c, out);
      QueueHandoffsBodied(done, c.agent, hs.accepted);
      var queued := QueueHandoffs(done, c.agent, hs.accepted);
      FollowUpsBodied(queued, c.agent, ds, hs.rejected);
      SyncBodied(QueueRepair(QueueDiscussions(queued, c.agent, ds), c.agent, hs.rejected), s.jobs[c.job], out.question, hs.accepted);
    }
  }

  lemma FailBodied(s: Session, c: Callback)
    requires Bodied(s)
    ensures Bodied(FailJob(s, c).0)
  {
    if Admit(s, c) == Applied {
      var finished := FinishJob(s, c.job, Failed, FindAgent(s.agents, c.agent).value);
      SyncBodied(finished, s.jobs[c.job], false, []);
      RecoveryIsBlank(SyncFailed(finished, s.jobs[c.job]), c.agent, s.jobs[c.job].kind);
      BlankBodied(SyncFailed(finished, s.jobs[c.job]), FailJob(s, c).0);
    }
  }

  lemma StartTexts(s: Session, i: nat, h: nat, worker: string)
    requires i < |s.agents| && h < |s.handoffs| && s.handoffs[h].task < |s.tasks|
    ensures var r := ClaimHandoff(s, i, h, worker).0; SameTexts(s.tasks, r.tasks) && |r.handoffs| == |s.handoffs|
  {
  }

  lemma FreeTexts(s: Session, i: nat, worker: string, sweep: Sweep)
    requires i < |s.agents|
    ensures var r := ClaimWhenFree(s, i, worker, sweep).0;
      SameTexts(s.tasks, r.tasks) && |r.handoffs| == |s.handoffs|
  {
    FreeStarts(s, i, worker, sweep);
    if ReadyHandoff(s, s.agents[i]).Some? { StartTexts(s, i, ReadyHandoff(s, s.agents[i]).value, worker); }
  }

  lemma ClaimTexts(s: Session, name: string, worker: string, sweep: Sweep)
    ensures var r := ClaimNextJob(s, name, worker, sweep).0;
      SameTexts(s.tasks, r.tasks) && |r.handoffs| == |s.handoffs|
  {
    ClaimIsFree(s, name, worker, sweep);
    var r := ClaimNextJob(s, name, worker, sweep).0;
    if !(r.tasks == s.tasks && r.handoffs == s.handoffs) {
      var i := FindAgent(s.agents, name).value;
      match ActiveJob(s.jobs, name)
      case None => FreeTexts(s, i, worker, sweep);
      case Some(j) => FreeTexts(Recover(s, j), i, worker, sweep);
    }
  }

  lemma OtherTexts(s: Session, op: Op)
    requires !op.Complete? && !op.Fail? && !op.Claim?
    ensures SameTexts(s.tasks, Step(s, op).0.tasks) && |Step(s, op).0.handoffs| == |s.handoffs|
  {
  }

  lemma StepBodied(s: Session, op: Op)
    requires Bodied(s)
    ensures Bodied(Step(s, op).0)
  {
    match op
    case Complete(c, out) => CompleteBodied(s, c, out);
    case Fail(c) => FailBodied(s, c);
    case Claim(name, worker, sweep) =>
      ClaimTexts(s, name, worker, sweep);
      ClaimLater(s, name, worker, sweep);
      SameTextsBodied(s, Step(s, op).0);
    case _ =>
      OtherTexts(s, op);
      StepLater(s, op);
      SameTextsBodied(s, Step(s, op).0);
  }

  /** Over every run a live handoff's body is its task's, and task keys are canonical. */
  lemma {:induction false} BodiedOverRuns(start: Session, ops: seq<Op>)
    requires Created(start)
    ensures Bodied(Run(start, ops))
  {
    if |ops| > 0 {
      BodiedOverRuns(start, ops[..|ops| - 1]);
      StepBodied(Run(start, ops[..|ops| - 1]), ops[|ops| - 1]);
    }
  }

  // ---- what an accepted request leaves ----

  /** The task is ready for the request's target with what the request says of it: its body and its scopes, the target's
      role, and where it comes from. */
  ghost predicate CarriesRequest(t: Task, epoch: nat, source: string, role: string, r: HandoffRequest)
  {
    && t.state == TaskReady && t.epoch == epoch && t.lease == None && t.worker == None
    && t.assignee == Some(r.target) && t.role == role && t.source == source
    && t.body == r.body && t.semantic == r.semantic && t.files == r.files
  }

  ghost predicate CarriesOn(h: Handoff, t: nat, revision: nat, epoch: nat, source: string, role: string, r: HandoffRequest)
  {
    && h.task == t && h.state == Queued && h.epoch == epoch && h.revision == revision && h.source == source
    && h.target == r.target && h.targetRole == role && h.body == r.body && h.claimedBy == None
  }

  /** What is queued is the request: the task of its key, a new one or the old one with the next revision, and a handoff
      behind all others carry everything the request says. */
  lemma QueuedCarries(s: Session, source: string, r: HandoffRequest, i: nat)
    requires FindAgent(s.agents, r.target) == Some(i) && QueueHandoff(s, source, r).1
    ensures var out, key := QueueHandoff(s, source, r).0, KeyFor(s.tasks, r);
      var t := if FindTask(s.tasks, key).Some? then FindTask(s.tasks, key).value else |s.tasks|;
      && t < |out.tasks| && out.tasks[t].key == key && |out.handoffs| == |s.handoffs| + 1
      && CarriesRequest(out.tasks[t], s.epoch, source, s.agents[i].role, r)
      && out.tasks[t].revision == (if t < |s.tasks| then s.tasks[t].revision + 1 else 1)
      && CarriesOn(out.handoffs[|s.handoffs|], t, out.tasks[t].revision, s.epoch, source, s.agents[i].role, r)
  {
    match FindTask(s.tasks, KeyFor(s.tasks, r))
    case None =>
    case Some(t) => RehandIsEnqueue(s, source, r, t, s.agents[i].role);
  }

  // ---- emitting again ----

  /** The request names handoff h again: its task's key, its target and its body. */
  ghost predicate Repeats(s: Session, h: nat, r: HandoffRequest)
  {
    && h < |s.handoffs| && Live(s.handoffs[h]) && s.handoffs[h].task < |s.tasks|
    && r.target == s.handoffs[h].target && r.body == s.handoffs[h].body
    && r.taskId == Some(s.tasks[s.handoffs[h].task].key)
  }

  /** The task is nobody's or the target's, and not at an end. */
  predicate StillMeant(t: Task, target: string)
  {
    && (t.assignee.Some? && t.assignee.value != "" ==> Lower(t.assignee.value) == Lower(target))
    && t.state in {TaskReady, TaskInProgress, TaskReview, TaskVerify, TaskQueued}
  }

  lemma RepeatFindsTask(s: Session, h: nat, r: HandoffRequest)
    requires UniqueKeys(s.tasks) && CanonicalKeys(s.tasks) && Repeats(s, h, r)
    ensures FindTask(s.tasks, KeyFor(s.tasks, r)) == Some(s.handoffs[h].task)
  {
    FoundTask(s.tasks, s.handoffs[h].task, s.tasks[s.handoffs[h].task].key);
  }

  lemma RepeatDuplicates(s: Session, h: nat, r: HandoffRequest)
    requires Inv(s) && Bodied(s) && Repeats(s, h, r)
    ensures var t := s.handoffs[h].task;
      FindTask(s.tasks, KeyFor(s.tasks, r)) == Some(t) && (Duplicate(s, t, r) <==> StillMeant(s.tasks[t], r.target))
  {
    var t := s.handoffs[h].task;
    assert LiveBody(s.tasks, s.handoffs[h]);
    assert TaskRow(s.tasks[t], s.epoch, s.nextLease);
    RepeatFindsTask(s, h, r);
  }

  /** What a repeated handoff does when it is not a duplicate: the live one is superseded, even a claimed one, and
      the task is handed over afresh. */
  ghost predicate HandsOver(s: Session, h: nat, out: (Session, bool))
    requires h < |s.handoffs| && s.handoffs[h].task < |s.tasks|
  {
    var t := s.handoffs[h].task;
    && out.1 && |out.0.handoffs| == |s.handoffs| + 1 && out.0.handoffs[h].state == Superseded
    && out.0.handoffs[|s.handoffs|].state == Queued && out.0.handoffs[|s.handoffs|].task == t
    && t < |out.0.tasks| && out.0.tasks[t].state == TaskReady && out.0.tasks[t].lease == None
    && out.0.tasks[t].revision == s.tasks[t].revision + 1
  }

  lemma RepeatHandsOver(s: Session, h: nat, again: string, r: HandoffRequest)
    requires Inv(s) && Bodied(s) && Repeats(s, h, r) && FindAgent(s.agents, r.target).Some?
    requires !StillMeant(s.tasks[s.handoffs[h].task], r.target)
    ensures HandsOver(s, h, QueueHandoff(s, again, r))
  {
    RepeatDuplicates(s, h, r);
    var out := QueueHandoff(s, again, r).0;
    assert out.handoffs[h] == Retire(s.handoffs[h], s.handoffs[h].task);
  }

  /** In every reachable session, emitting a live handoff again, whatever has happened since it was queued, adds
      nothing and changes nothing exactly when the task is still meant for the target and not at an end.
      Otherwise the task is handed over afresh. */
  lemma LiveReemissionIff(start: Session, ops: seq<Op>, h: nat, again: string, r: HandoffRequest)
    requires Created(start) && Repeats(Run(start, ops), h, r) && FindAgent(Run(start, ops).agents, r.target).Some?
    ensures var s := Run(start, ops);
      var t := s.tasks[s.handoffs[h].task];
      && (QueueHandoff(s, again, r) == (s, false) <==> StillMeant(t, r.target))
      && (!StillMeant(t, r.target) ==> HandsOver(s, h, QueueHandoff(s, again, r)))
  {
    RunKeepsInv(start, ops);
    BodiedOverRuns(start, ops);
    var s := Run(start, ops);
    RepeatDuplicates(s, h, r);
    if !StillMeant(s.tasks[s.handoffs[h].task], r.target) { RepeatHandsOver(s, h, again, r); }
  }
}
