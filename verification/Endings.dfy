/** What a finished job leaves of its task and of the handoff it was started for. */
module Endings {
  import opened Text
  import opened Rows
  import opened ControlBlocks
  import opened Protocol
  import opened Invariants
  import opened Steps
  import opened Runs
  import opened History
  import opened Guarantees
  import opened Reemission
  import opened Claiming
  import opened Starvation
  import opened Assignments
  import TaskKeys

  // ---- a failure ----

  /** What an applied failure of job c.job leaves: its task, if any, has failed, its own handoff too if it was still
      live, and every other task and handoff is as it was. */
  ghost predicate LeavesFailed(s: Session, c: Callback, r: Session)
    requires c.job < |s.jobs|
  {
    var was := s.jobs[c.job];
    && |r.tasks| == |s.tasks| && |r.handoffs| == |s.handoffs|
    && (forall t: nat :: t < |s.tasks| ==>
          r.tasks[t] == if was.task == Some(t)
            then s.tasks[t].(state := TaskFailed, revision := s.tasks[t].revision + 1, lease := None, worker := None)
            else s.tasks[t])
    && (forall h: nat :: h < |s.handoffs| ==>
          r.handoffs[h] == if was.handoff == Some(h) && s.handoffs[h].state in {Queued, Claimed}
            then s.handoffs[h].(state := HandoffFailed)
            else s.handoffs[h])
  }

  lemma FailureLeaves(s: Session, c: Callback)
    requires Inv(s) && Admit(s, c) == Applied
    ensures LeavesFailed(s, c, FailJob(s, c).0)
  {
    var finished := FinishJob(s, c.job, Failed, FindAgent(s.agents, c.agent).value);
    assert JobRefs(s.jobs[c.job], |s.tasks|, s.handoffs);
    RecoveryIsBlank(SyncFailed(finished, s.jobs[c.job]), c.agent, s.jobs[c.job].kind);
  }

  // ---- a completion that does not hand its task on ----

  /** A completion that does not hand its task on consumes the job's own handoff exactly if that is still live. */
  lemma CompletionConsumes(s: Session, c: Callback, out: Output, h: nat)
    requires Inv(s) && Admit(s, c) == Applied && s.jobs[c.job].handoff == Some(h)
    ensures h < |s.handoffs| && s.handoffs[h].task < |s.tasks| && s.jobs[c.job].task == Some(s.handoffs[h].task)
    ensures !SameTask(AcceptedHandoffs(s, c, out).accepted, s.tasks[s.handoffs[h].task].key) ==>
      var r := CompleteJob(s, c, out).0;
      h < |r.handoffs|
      && r.handoffs[h] == if s.handoffs[h].state in {Queued, Claimed} then s.handoffs[h].(state := Consumed) else s.handoffs[h]
  {
    assert JobRefs(s.jobs[c.job], |s.tasks|, s.handoffs);
    var hs := AcceptedHandoffs(s, c, out);
    if !SameTask(hs.accepted, s.tasks[s.handoffs[h].task].key) {
      QueueHandoffsLeaves(MarkCompleted(s, c, out), c.agent, hs.accepted, h);
      CompleteFromFiled(s, c, out);
    }
  }

  // ---- handing the task on ----

  /** Task t and its handoffs are in b as they are in a. */
  ghost predicate SameView(a: Session, b: Session, t: nat)
  {
    && b.epoch == a.epoch && t < |a.tasks| <= |b.tasks| && b.tasks[t] == a.tasks[t] && |a.handoffs| <= |b.handoffs|
    && forall h: nat :: h < |b.handoffs| ==> SameHandoff(a, b, t, h)
  }

  /** Handoff h is not one of t in either, or the same in both. */
  ghost predicate SameHandoff(a: Session, b: Session, t: nat, h: nat)
    requires h < |b.handoffs|
  {
    if h < |a.handoffs| && a.handoffs[h].task == t then b.handoffs[h] == a.handoffs[h] else b.handoffs[h].task != t
  }

  lemma SameViewOn(a: Session, b: Session, c: Session, t: nat)
    requires SameView(a, b, t) && SameView(b, c, t)
    ensures SameView(a, c, t)
  {
    forall h: nat | h < |c.handoffs| ensures SameHandoff(a, c, t, h) {
      assert SameHandoff(b, c, t, h);
      if h < |b.handoffs| { assert SameHandoff(a, b, t, h); }
    }
  }

  lemma SameRowsView(a: Session, b: Session, t: nat)
    requires b.tasks == a.tasks && b.handoffs == a.handoffs && b.epoch == a.epoch && t < |a.tasks|
    ensures SameView(a, b, t)
  {
  }

  lemma EnqueueView(s: Session, mid: Session, u: nat, source: string, role: string, r: HandoffRequest, t: nat)
    requires u < |mid.tasks| && t < |s.tasks| <= |mid.tasks| && u != t && mid.tasks[t] == s.tasks[t]
    requires mid.handoffs == s.handoffs && mid.epoch == s.epoch
    ensures SameView(s, Enqueue(mid, u, source, role, r), t)
  {
    var out := Enqueue(mid, u, source, role, r);
    forall h: nat | h < |out.handoffs| ensures SameHandoff(s, out, t, h) {
      if h < |s.handoffs| { assert out.handoffs[h] == Retire(s.handoffs[h], u); }
    }
  }

  /** A request that names another task, or none, leaves t alone. */
  lemma OtherRequest(s: Session, source: string, r: HandoffRequest, t: nat)
    requires FindAgent(s.agents, r.target).Some? && t < |s.tasks| && r.taskId != Some(s.tasks[t].key)
    ensures SameView(s, QueueHandoff(s, source, r).0, t)
  {
    var role := s.agents[FindAgent(s.agents, r.target).value].role;
    match FindTask(s.tasks, KeyFor(s.tasks, r))
    case None => NewTaskView(s, source, role, r, t);
    case Some(u) =>
      OtherKeyOtherTask(s, r, u, t);
      if Duplicate(s, u, r) {
        SameRowsView(s, s, t);
      } else {
        RehandIsEnqueue(s, source, r, u, role);
        EnqueueView(s, s.(tasks := s.tasks[u := Rehanded(s, s.tasks[u], source, role, r)]), u, source, role, r, t);
      }
  }

  lemma NewTaskView(s: Session, source: string, role: string, r: HandoffRequest, t: nat)
    requires FindAgent(s.agents, r.target).Some? && role == s.agents[FindAgent(s.agents, r.target).value].role
    requires FindTask(s.tasks, KeyFor(s.tasks, r)).None? && t < |s.tasks|
    ensures SameView(s, QueueHandoff(s, source, r).0, t)
  {
    var task := Task(KeyFor(s.tasks, r), role, Some(r.target), source, TaskReady, 1, s.epoch, None, None, r.body, r.semantic, r.files);
    EnqueueView(s, s.(tasks := s.tasks + [task]), |s.tasks|, source, role, r, t);
  }

  /** Task t is ready for q's target with q's body, and of its handoffs only h is live: queued after the first n rows,
      for the same target, with the same body and the task's revision. */
  ghost predicate HandedTo(r: Session, n: nat, t: nat, q: HandoffRequest, h: nat)
  {
    && t < |r.tasks| && r.tasks[t].state == TaskReady && r.tasks[t].assignee == Some(q.target) && r.tasks[t].body == q.body
    && r.tasks[t].lease == None && r.tasks[t].worker == None && r.tasks[t].epoch == r.epoch
    && n <= h < |r.handoffs| && r.handoffs[h].task == t && r.handoffs[h].state == Queued && r.handoffs[h].epoch == r.epoch
    && r.handoffs[h].target == q.target && r.handoffs[h].body == q.body && r.handoffs[h].revision == r.tasks[t].revision
    && forall k: nat :: k < |r.handoffs| && k != h ==> EndedOrOther(r, t, k)
  }

  ghost predicate EndedOrOther(r: Session, t: nat, k: nat)
    requires k < |r.handoffs|
  {
    r.handoffs[k].task == t ==> r.handoffs[k].state !in {Queued, Claimed}
  }

  ghost predicate Handed(r: Session, n: nat, t: nat, q: HandoffRequest)
  {
    exists h: nat :: HandedTo(r, n, t, q, h)
  }

  lemma RehandHands(s: Session, source: string, r: HandoffRequest, t: nat)
    requires FindAgent(s.agents, r.target).Some? && FindTask(s.tasks, KeyFor(s.tasks, r)) == Some(t) && t < |s.tasks|
    requires !Duplicate(s, t, r)
    ensures Handed(QueueHandoff(s, source, r).0, |s.handoffs|, t, r)
    ensures var out := QueueHandoff(s, source, r).0; out.tasks[t].revision == s.tasks[t].revision + 1
  {
    var role := s.agents[FindAgent(s.agents, r.target).value].role;
    RehandIsEnqueue(s, source, r, t, role);
    var out := QueueHandoff(s, source, r).0;
    forall k: nat | k < |s.handoffs| ensures EndedOrOther(out, t, k) { assert out.handoffs[k] == Retire(s.handoffs[k], t); }
    assert HandedTo(out, |s.handoffs|, t, r, |s.handoffs|);
  }

  lemma HandedStays(a: Session, b: Session, n: nat, t: nat, q: HandoffRequest)
    requires Handed(a, n, t, q) && SameView(a, b, t)
    ensures Handed(b, n, t, q)
  {
    var h: nat :| HandedTo(a, n, t, q, h);
    assert SameHandoff(a, b, t, h);
    forall k: nat | k < |b.handoffs| && k != h ensures EndedOrOther(b, t, k) {
      assert SameHandoff(a, b, t, k);
      if k < |a.handoffs| { assert EndedOrOther(a, t, k); }
    }
    assert HandedTo(b, n, t, q, h);
  }

  lemma HandedSince(r: Session, n: nat, m: nat, t: nat, q: HandoffRequest)
    requires Handed(r, n, t, q) && m <= n
    ensures Handed(r, m, t, q)
  {
    var h: nat :| HandedTo(r, n, t, q, h);
    assert HandedTo(r, m, t, q, h);
  }

  /** What repeats the one live handoff of the task names the same target and body. */
  lemma RepeatIsSame(s: Session, n: nat, t: nat, q: HandoffRequest, r: HandoffRequest)
    requires Handed(s, n, t, q) && t < |s.tasks| && Duplicate(s, t, r)
    ensures Handed(s, n, t, r)
  {
    var h: nat :| HandedTo(s, n, t, q, h);
    var k :| 0 <= k < |s.handoffs| && s.handoffs[k].task == t && s.handoffs[k].target == r.target && Live(s.handoffs[k]);
    if k != h { assert EndedOrOther(s, t, k); }
    assert HandedTo(s, n, t, r, h);
  }

  lemma DuplicateInView(a: Session, b: Session, t: nat, r: HandoffRequest)
    requires SameView(a, b, t)
    ensures Duplicate(b, t, r) <==> Duplicate(a, t, r)
  {
    if h :| 0 <= h < |a.handoffs| && a.handoffs[h].task == t && a.handoffs[h].target == r.target && Live(a.handoffs[h]) {
      assert SameHandoff(a, b, t, h);
    }
    if h :| 0 <= h < |b.handoffs| && b.handoffs[h].task == t && b.handoffs[h].target == r.target && Live(b.handoffs[h]) {
      assert SameHandoff(a, b, t, h);
    }
  }

  /** The last request that names the task. */
  function LastFor(rs: seq<HandoffRequest>, key: string): (r: Option<HandoffRequest>)
    ensures r.Some? <==> SameTask(rs, key)
    ensures r.Some? ==> r.value in rs && r.value.taskId == Some(key)
  {
    if |rs| == 0 then None
    else
      assert SameTask(rs, key) <==> SameTask(rs[..|rs| - 1], key) || rs[|rs| - 1].taskId == Some(key) by {
        NotSameFront(rs, key);
      }
      if rs[|rs| - 1].taskId == Some(key) then Some(rs[|rs| - 1]) else LastFor(rs[..|rs| - 1], key)
  }

  /** Every request that names the task repeats a live handoff that the task had before. */
  ghost predicate AllRepeat(s: Session, t: nat, rs: seq<HandoffRequest>)
    requires t < |s.tasks|
  {
    forall k :: 0 <= k < |rs| && rs[k].taskId == Some(s.tasks[t].key) ==> Duplicate(s, t, rs[k])
  }

  /** What filing requests leaves of task t. */
  ghost predicate Filing(s: Session, r: Session, t: nat, rs: seq<HandoffRequest>)
    requires t < |s.tasks|
  {
    if AllRepeat(s, t, rs) then SameView(s, r, t)
    else LastFor(rs, s.tasks[t].key).Some? && Handed(r, |s.handoffs|, t, LastFor(rs, s.tasks[t].key).value)
  }

  lemma AllRepeatSnoc(s: Session, t: nat, front: seq<HandoffRequest>, q: HandoffRequest)
    requires t < |s.tasks|
    ensures AllRepeat(s, t, front + [q])
      <==> AllRepeat(s, t, front) && (q.taskId == Some(s.tasks[t].key) ==> Duplicate(s, t, q))
  {
    var rs := front + [q];
    assert rs[|front|] == q;
    if AllRepeat(s, t, rs) {
      forall k | 0 <= k < |front| && front[k].taskId == Some(s.tasks[t].key) ensures Duplicate(s, t, front[k]) { assert rs[k] == front[k]; }
    }
  }

  lemma LastForSnoc(front: seq<HandoffRequest>, q: HandoffRequest, key: string)
    ensures LastFor(front + [q], key) == if q.taskId == Some(key) then Some(q) else LastFor(front, key)
  {
    assert (front + [q])[..|front|] == front;
  }

  /** The next request does not name the task. */
  lemma FilingOther(s: Session, mid: Session, r: Session, t: nat, front: seq<HandoffRequest>, q: HandoffRequest)
    requires t < |s.tasks| && Filing(s, mid, t, front) && q.taskId != Some(s.tasks[t].key) && SameView(mid, r, t)
    ensures Filing(s, r, t, front + [q])
  {
    AllRepeatSnoc(s, t, front, q);
    LastForSnoc(front, q, s.tasks[t].key);
    if AllRepeat(s, t, front) {
      SameViewOn(s, mid, r, t);
    } else {
      HandedStays(mid, r, |s.handoffs|, t, LastFor(front, s.tasks[t].key).value);
    }
  }

  /** The next request names the task and repeats its live handoff. */
  lemma FilingRepeat(s: Session, mid: Session, t: nat, front: seq<HandoffRequest>, q: HandoffRequest)
    requires t < |s.tasks| && Filing(s, mid, t, front) && q.taskId == Some(s.tasks[t].key)
    requires t < |mid.tasks| && Duplicate(mid, t, q)
    ensures Filing(s, mid, t, front + [q])
  {
    AllRepeatSnoc(s, t, front, q);
    LastForSnoc(front, q, s.tasks[t].key);
    if AllRepeat(s, t, front) {
      DuplicateInView(s, mid, t, q);
    } else {
      RepeatIsSame(mid, |s.handoffs|, t, LastFor(front, s.tasks[t].key).value, q);
    }
  }

  /** The next request names the task and hands it over. */
  lemma FilingAgain(s: Session, mid: Session, r: Session, t: nat, front: seq<HandoffRequest>, q: HandoffRequest)
    requires t < |s.tasks| && Filing(s, mid, t, front) && q.taskId == Some(s.tasks[t].key)
    requires t < |mid.tasks| && !Duplicate(mid, t, q) && |s.handoffs| <= |mid.handoffs| && Handed(r, |mid.handoffs|, t, q)
    ensures Filing(s, r, t, front + [q])
  {
    AllRepeatSnoc(s, t, front, q);
    LastForSnoc(front, q, s.tasks[t].key);
    HandedSince(r, |mid.handoffs|, |s.handoffs|, t, q);
    if AllRepeat(s, t, front) { DuplicateInView(s, mid, t, q); }
  }

  lemma FilingNext(s: Session, mid: Session, source: string, t: nat, front: seq<HandoffRequest>, q: HandoffRequest)
    requires t < |s.tasks| && Filing(s, mid, t, front) && FindAgent(mid.agents, q.target).Some?
    requires q.taskId.Some? && TaskKeys.Number(q.taskId.value).Some?
    requires FirstKey(mid.tasks, t) && mid.tasks[t].key == s.tasks[t].key && |s.handoffs| <= |mid.handoffs|
    ensures Filing(s, QueueHandoff(mid, source, q).0, t, front + [q])
  {
    var r := QueueHandoff(mid, source, q).0;
    if q.taskId != Some(s.tasks[t].key) {
      OtherRequest(mid, source, q, t);
      FilingOther(s, mid, r, t, front, q);
    } else {
      FoundTask(mid.tasks, t, mid.tasks[t].key);
      if Duplicate(mid, t, q) {
        FilingRepeat(s, mid, t, front, q);
      } else {
        RehandHands(mid, source, q, t);
        FilingAgain(s, mid, r, t, front, q);
      }
    }
  }

  lemma MidRow(s: Session, source: string, front: seq<HandoffRequest>, t: nat)
    requires KnownTargets(s.agents, front) && FirstKey(s.tasks, t)
    ensures var mid := QueueEach(s, source, front).0;
      FirstKey(mid.tasks, t) && mid.tasks[t].key == s.tasks[t].key && |s.handoffs| <= |mid.handoffs|
  {
    var mid := QueueEach(s, source, front).0;
    QueueEachLater(s, source, front);
    KeepsFirstKey(s.tasks, mid.tasks, t);
    assert TaskLater(s.tasks[t], mid.tasks[t]);
  }

  lemma FilesLast(s: Session, source: string, front: seq<HandoffRequest>, q: HandoffRequest, t: nat)
    requires KnownTargets(s.agents, front + [q]) && KnownTargets(s.agents, front) && FindAgent(s.agents, q.target).Some?
    requires q.taskId.Some? && TaskKeys.Number(q.taskId.value).Some?
    requires FirstKey(s.tasks, t) && Filing(s, QueueEach(s, source, front).0, t, front)
    ensures Filing(s, QueueEach(s, source, front + [q]).0, t, front + [q])
  {
    MidRow(s, source, front, t);
    FilingNext(s, QueueEach(s, source, front).0, source, t, front, q);
    assert (front + [q])[..|front|] == front;
  }

  lemma FrontOk(agents: seq<Agent>, front: seq<HandoffRequest>, q: HandoffRequest)
    requires KnownTargets(agents, front + [q]) && AllCanonical(front + [q])
    ensures KnownTargets(agents, front) && AllCanonical(front)
    ensures FindAgent(agents, q.target).Some? && q.taskId.Some? && TaskKeys.Number(q.taskId.value).Some?
  {
    var rs := front + [q];
    assert rs[|front|] == q;
    forall k | 0 <= k < |front| ensures rs[k] == front[k] {}
    forall k | 0 <= k < |front| ensures FindAgent(agents, front[k].target).Some? { assert rs[k] == front[k]; }
    forall k | 0 <= k < |front| ensures front[k].taskId.Some? && TaskKeys.Number(front[k].taskId.value).Some? {
      assert rs[k] == front[k];
    }
  }

  lemma {:induction false} QueueEachFiles(s: Session, source: string, rs: seq<HandoffRequest>, t: nat)
    requires KnownTargets(s.agents, rs) && AllCanonical(rs) && FirstKey(s.tasks, t)
    ensures Filing(s, QueueEach(s, source, rs).0, t, rs)
  {
    if |rs| == 0 {
      SameRowsView(s, s, t);
    } else {
      var front, q := rs[..|rs| - 1], rs[|rs| - 1];
      assert rs == front + [q];
      FrontOk(s.agents, front, q);
      QueueEachFiles(s, source, front, t);
      FilesLast(s, source, front, q, t);
    }
  }

  // ---- the job that handed its task on ----

  /** Settling the job's own task leaves it handed over. */
  lemma SyncHanded(s: Session, n: nat, t: nat, q: HandoffRequest, was: Job, question: bool, rs: seq<HandoffRequest>)
    requires Handed(s, n, t, q) && was.task == Some(t) && t < |s.tasks| && SameTask(rs, s.tasks[t].key)
    requires was.handoff.Some? ==> was.handoff.value < n
    ensures Handed(SyncCompleted(s, was, question, rs), n, t, q)
  {
    var h: nat :| HandedTo(s, n, t, q, h);
    var r := SyncCompleted(s, was, question, rs);
    forall k: nat | k < |r.handoffs| && k != h ensures EndedOrOther(r, t, k) { assert EndedOrOther(s, t, k); }
    assert HandedTo(r, n, t, q, h);
  }

  /** The task is as it was but ready and held by nobody, and its handoffs are as they were. */
  ghost predicate LeftReady(s: Session, r: Session, t: nat)
  {
    && t < |s.tasks| && t < |r.tasks| && r.tasks[t].state in {TaskReady, TaskReview, TaskVerify}
    && r.tasks[t] == s.tasks[t].(state := r.tasks[t].state, lease := None, worker := None)
    && |s.handoffs| <= |r.handoffs| && forall h: nat :: h < |r.handoffs| ==> SameHandoff(s, r, t, h)
  }

  lemma SyncRepeated(s: Session, mid: Session, t: nat, was: Job, question: bool, rs: seq<HandoffRequest>)
    requires SameView(s, mid, t) && was.task == Some(t) && SameTask(rs, s.tasks[t].key)
    requires was.handoff.Some? && was.handoff.value < |s.handoffs| && s.handoffs[was.handoff.value].task == t
    requires !Live(s.handoffs[was.handoff.value])
    ensures LeftReady(s, SyncCompleted(mid, was, question, rs), t)
  {
    var r := SyncCompleted(mid, was, question, rs);
    assert SameHandoff(s, mid, t, was.handoff.value);
    forall h: nat | h < |r.handoffs| ensures SameHandoff(s, r, t, h) { assert SameHandoff(s, mid, t, h); }
  }

  /** A job whose task another agent has been handed no longer has a live handoff of its own. */
  lemma OwnIsEnded(s: Session, j: nat, q: HandoffRequest)
    requires Inv(s) && AllOwn(s) && j < |s.jobs| && !Terminal(s.jobs[j]) && s.jobs[j].task.Some? && s.jobs[j].agent != ""
    requires s.jobs[j].task.value < |s.tasks| && Duplicate(s, s.jobs[j].task.value, q) && Lower(q.target) != Lower(s.jobs[j].agent)
    ensures s.jobs[j].handoff.Some? && s.jobs[j].handoff.value < |s.handoffs|
    ensures s.handoffs[s.jobs[j].handoff.value].task == s.jobs[j].task.value && !Live(s.handoffs[s.jobs[j].handoff.value])
  {
    assert Owns(s, j) && JobRefs(s.jobs[j], |s.tasks|, s.handoffs);
  }

  lemma LastIsForeign(agents: seq<Agent>, source: string, blocks: seq<HandoffBlock>, key: string)
    requires SameTask(ExtractHandoffs(agents, source, blocks).accepted, key)
    ensures var rs := ExtractHandoffs(agents, source, blocks).accepted;
      LastFor(rs, key).Some? && Lower(LastFor(rs, key).value.target) != Lower(source)
  {
    AcceptedHandoffIsSound(agents, source, blocks, LastFor(ExtractHandoffs(agents, source, blocks).accepted, key).value);
  }

  lemma InvFirstKey(s: Session, t: nat)
    requires Inv(s) && t < |s.tasks|
    ensures FirstKey(s.tasks, t)
  {
  }

  /** What a completion files before it settles the job's own task. */
  lemma CompletionFiles(s: Session, c: Callback, out: Output, t: nat)
    requires Inv(s) && Admit(s, c) == Applied && t < |s.tasks|
    ensures Filing(s, Filed(s, c, out), t, AcceptedHandoffs(s, c, out).accepted)
    ensures t < |Filed(s, c, out).tasks| && Filed(s, c, out).tasks[t].key == s.tasks[t].key
  {
    var done, rs := MarkCompleted(s, c, out), AcceptedHandoffs(s, c, out).accepted;
    var each := QueueEach(done, c.agent, rs).0;
    InvFirstKey(s, t);
    AcceptedCanonical(s.agents, c.agent, out.handoffs);
    QueueEachFiles(done, c.agent, rs, t);
    QueueEachLater(done, c.agent, rs);
    assert TaskLater(done.tasks[t], each.tasks[t]);
    CuratorEventIsBlank(each, c.agent);
    CompleteFromFiled(s, c, out);
    FiledEpoch(s, c, out);
    SameFiling(s, done, each, Filed(s, c, out), t, rs);
  }

  lemma SameFiling(s: Session, done: Session, each: Session, filed: Session, t: nat, rs: seq<HandoffRequest>)
    requires t < |s.tasks| && done.tasks == s.tasks && done.handoffs == s.handoffs && done.epoch == s.epoch
    requires Filing(done, each, t, rs) && filed.tasks == each.tasks && filed.handoffs == each.handoffs && filed.epoch == each.epoch
    requires t < |each.tasks|
    ensures Filing(s, filed, t, rs)
  {
    assert forall q :: Duplicate(s, t, q) <==> Duplicate(done, t, q);
    SameRowsView(each, filed, t);
    SameRowsView(s, done, t);
    if AllRepeat(s, t, rs) {
      SameViewOn(done, each, filed, t);
      SameViewOn(s, done, filed, t);
    } else {
      HandedStays(each, filed, |s.handoffs|, t, LastFor(rs, s.tasks[t].key).value);
    }
  }

  lemma FiledEpoch(s: Session, c: Callback, out: Output)
    requires Admit(s, c) == Applied
    ensures var each := QueueEach(MarkCompleted(s, c, out), c.agent, AcceptedHandoffs(s, c, out).accepted).0;
      Filed(s, c, out).epoch == each.epoch
  {
    var hs := AcceptedHandoffs(s, c, out);
    var ds := ExtractDiscussions(s.agents, c.agent, out.discussions).accepted;
    var each := QueueEach(MarkCompleted(s, c, out), c.agent, hs.accepted).0;
    CuratorEventIsBlank(each, c.agent);
    var queued := QueueHandoffs(MarkCompleted(s, c, out), c.agent, hs.accepted);
    DiscussionsAreBlank(queued, c.agent, ds);
    RepairIsBlank(QueueDiscussions(queued, c.agent, ds), c.agent, hs.rejected);
  }

  /** How a completion that hands its own task on leaves it.  If every request that names the task repeats a live handoff
      of it, the task is ready as it was, and so are its handoffs.  Otherwise the last such request decides: the task is
      ready for its target, and a new handoff to that target is the only live one. */
  ghost predicate LeavesHandedOn(s: Session, r: Session, t: nat, rs: seq<HandoffRequest>)
    requires t < |s.tasks|
  {
    if AllRepeat(s, t, rs) then LeftReady(s, r, t)
    else LastFor(rs, s.tasks[t].key).Some? && Handed(r, |s.handoffs|, t, LastFor(rs, s.tasks[t].key).value)
  }

  lemma SettlesHandedOn(s: Session, c: Callback, out: Output, t: nat)
    requires Inv(s) && AllOwn(s) && Admit(s, c) == Applied && s.jobs[c.job].task == Some(t) && c.agent != ""
    requires t < |s.tasks| && SameTask(AcceptedHandoffs(s, c, out).accepted, s.tasks[t].key)
    ensures LeavesHandedOn(s, CompleteJob(s, c, out).0, t, AcceptedHandoffs(s, c, out).accepted)
  {
    var rs, was, filed := AcceptedHandoffs(s, c, out).accepted, s.jobs[c.job], Filed(s, c, out);
    CompletionFiles(s, c, out, t);
    CompleteFromFiled(s, c, out);
    assert JobRefs(was, |s.tasks|, s.handoffs);
    if AllRepeat(s, t, rs) {
      LastIsForeign(s.agents, c.agent, out.handoffs, s.tasks[t].key);
      RepeatedLast(s, t, rs);
      OwnIsEnded(s, c.job, LastFor(rs, s.tasks[t].key).value);
      SyncRepeated(s, filed, t, was, out.question, rs);
    } else {
      SyncHanded(filed, |s.handoffs|, t, LastFor(rs, s.tasks[t].key).value, was, out.question, rs);
    }
  }

  lemma RepeatedLast(s: Session, t: nat, rs: seq<HandoffRequest>)
    requires t < |s.tasks| && AllRepeat(s, t, rs) && LastFor(rs, s.tasks[t].key).Some?
    ensures Duplicate(s, t, LastFor(rs, s.tasks[t].key).value)
  {
    var q := LastFor(rs, s.tasks[t].key).value;
    var k :| 0 <= k < |rs| && rs[k] == q;
  }

  /** The task is ready, nobody holds it, and exactly one of its handoffs is live: it is for the target of q. */
  ghost predicate WaitsFor(r: Session, t: nat, q: HandoffRequest)
  {
    && t < |r.tasks| && r.tasks[t].state in {TaskReady, TaskReview, TaskVerify} && r.tasks[t].lease == None
    && r.tasks[t].worker == None
    && exists h: nat :: OnlyLive(r, t, h) && r.handoffs[h].target == q.target
  }

  ghost predicate OnlyLive(r: Session, t: nat, h: nat)
  {
    && h < |r.handoffs| && r.handoffs[h].task == t && r.handoffs[h].state in {Queued, Claimed}
    && forall k: nat :: k < |r.handoffs| && k != h ==> EndedOrOther(r, t, k)
  }

  lemma HandedWaits(r: Session, n: nat, t: nat, q: HandoffRequest)
    requires Handed(r, n, t, q)
    ensures WaitsFor(r, t, q)
  {
    var h: nat :| HandedTo(r, n, t, q, h);
    assert OnlyLive(r, t, h);
  }

  lemma LeftReadyWaits(s: Session, r: Session, t: nat, q: HandoffRequest)
    requires OneLive(s.handoffs) && LeftReady(s, r, t) && Duplicate(s, t, q)
    ensures WaitsFor(r, t, q)
  {
    var h :| 0 <= h < |s.handoffs| && s.handoffs[h].task == t && s.handoffs[h].target == q.target && Live(s.handoffs[h]);
    assert SameHandoff(s, r, t, h);
    forall k: nat | k < |r.handoffs| && k != h ensures EndedOrOther(r, t, k) {
      assert SameHandoff(s, r, t, k);
      if k < |s.handoffs| && Live(s.handoffs[k]) { OneLiveEach(s.handoffs, h, k); }
    }
    assert OnlyLive(r, t, h);
  }

  /** In every reachable session a completion whose accepted handoffs name its own task leaves the task ready, held by
      nobody, and with exactly one live handoff, to the target of the last of them.  That handoff is a new, queued one
      with the task's new revision exactly when some of them repeats no live handoff of the task; otherwise the task
      and its handoffs are as they were. */
  lemma HandedOnOverRuns(start: Session, ops: seq<Op>, c: Callback, out: Output, t: nat)
    requires Created(start) && Admit(Run(start, ops), c) == Applied && Run(start, ops).jobs[c.job].task == Some(t)
    requires c.agent != "" && t < |Run(start, ops).tasks|
    requires SameTask(AcceptedHandoffs(Run(start, ops), c, out).accepted, Run(start, ops).tasks[t].key)
    ensures var s := Run(start, ops);
      var rs, r := AcceptedHandoffs(s, c, out).accepted, CompleteJob(s, c, out).0;
      LastFor(rs, s.tasks[t].key).Some? && WaitsFor(r, t, LastFor(rs, s.tasks[t].key).value) && LeavesHandedOn(s, r, t, rs)
  {
    RunInv(start, ops);
    AssignedOverRuns(start, ops);
    HandedOn(Run(start, ops), c, out, t);
  }

  lemma HandedOn(s: Session, c: Callback, out: Output, t: nat)
    requires Inv(s) && AllOwn(s) && Admit(s, c) == Applied && s.jobs[c.job].task == Some(t) && c.agent != ""
    requires t < |s.tasks| && SameTask(AcceptedHandoffs(s, c, out).accepted, s.tasks[t].key)
    ensures var rs, r := AcceptedHandoffs(s, c, out).accepted, CompleteJob(s, c, out).0;
      LastFor(rs, s.tasks[t].key).Some? && WaitsFor(r, t, LastFor(rs, s.tasks[t].key).value) && LeavesHandedOn(s, r, t, rs)
  {
    var rs, r := AcceptedHandoffs(s, c, out).accepted, CompleteJob(s, c, out).0;
    SettlesHandedOn(s, c, out, t);
    var q := LastFor(rs, s.tasks[t].key).value;
    if AllRepeat(s, t, rs) {
      RepeatedLast(s, t, rs);
      LeftReadyWaits(s, r, t, q);
    } else {
      HandedWaits(r, |s.handoffs|, t, q);
    }
  }
}
