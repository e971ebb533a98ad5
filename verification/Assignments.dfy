/** Who works on what, over every run: a handoff's jobs are run by agents it is meant for, and a claimed handoff's task is
    assigned to the agent that claimed it. */
module Assignments {
  import opened Text
  import opened Rows
  import opened ControlBlocks
  import opened Protocol
  import opened Invariants
  import opened Steps
  import opened Runs
  import opened History
  import opened Guarantees
  import opened Reemission
  import opened Serving
  import opened Starvation

  // ---- jobs run by agents they are meant for ----

  /** If job j was started for a handoff, it is run by an agent that the handoff is meant for. */
  ghost predicate Fits(s: Session, j: nat)
    requires j < |s.jobs|
  {
    var h := s.jobs[j].handoff;
    h.Some? && h.value < |s.handoffs| ==>
      exists i :: 0 <= i < |s.agents| && s.agents[i].name == s.jobs[j].agent && MeantFor(s.handoffs[h.value], s.agents[i])
  }

  ghost predicate AllFit(s: Session)
  {
    forall j: nat :: j < |s.jobs| ==> Fits(s, j)
  }

  lemma OldJobFits(s: Session, r: Session, j: nat)
    requires Inv(s) && Later(s, r) && j < |s.jobs| && Fits(s, j)
    ensures Fits(r, j)
  {
    assert JobLater(s.jobs[j], r.jobs[j]) && JobRefs(s.jobs[j], |s.tasks|, s.handoffs);
    if s.jobs[j].handoff.Some? {
      var h := s.jobs[j].handoff.value;
      assert HandoffLater(s.handoffs[h], r.handoffs[h]);
      var i :| 0 <= i < |s.agents| && s.agents[i].name == s.jobs[j].agent && MeantFor(s.handoffs[h], s.agents[i]);
      assert r.agents[i].name == s.agents[i].name && r.agents[i].role == s.agents[i].role;
    }
  }

  /** The jobs that r adds were started for no handoff. */
  ghost predicate AddsNoServer(s: Session, r: Session)
  {
    forall j: nat :: |s.jobs| <= j < |r.jobs| ==> r.jobs[j].handoff.None?
  }

  lemma StillFit(s: Session, r: Session)
    requires Inv(s) && Later(s, r) && AllFit(s)
    requires forall j: nat :: |s.jobs| <= j < |r.jobs| ==> Fits(r, j)
    ensures AllFit(r)
  {
    forall j: nat | j < |r.jobs| ensures Fits(r, j) {
      if j < |s.jobs| { OldJobFits(s, r, j); }
    }
  }

  lemma BlankAddsNoServer(s: Session, r: Session)
    requires OnlyBlankJobs(s, r)
    ensures AddsNoServer(s, r) && |s.jobs| <= |r.jobs|
  {
    forall j: nat | |s.jobs| <= j < |r.jobs| ensures r.jobs[j].handoff.None? { assert Blank(r.jobs[j], s.epoch); }
  }

  lemma QueuedAddsNoServer(s: Session, c: Callback, out: Output)
    requires Admit(s, c) == Applied
    ensures var r := QueueHandoffs(MarkCompleted(s, c, out), c.agent, AcceptedHandoffs(s, c, out).accepted);
      AddsNoServer(s, r) && |s.jobs| <= |r.jobs|
  {
    var done, rs := MarkCompleted(s, c, out), AcceptedHandoffs(s, c, out).accepted;
    var each := QueueEach(done, c.agent, rs).0;
    QueueEachJobs(done, c.agent, rs);
    CuratorEventIsBlank(each, c.agent);
    BlankAddsNoServer(each, QueueCuratorEvent(each, c.agent));
  }

  lemma CompleteAddsNoServer(s: Session, c: Callback, out: Output)
    ensures AddsNoServer(s, CompleteJob(s, c, out).0)
  {
    if Admit(s, c) == Applied {
      var hs := AcceptedHandoffs(s, c, out);
      var ds := ExtractDiscussions(s.agents, c.agent, out.discussions).accepted;
      var queued := QueueHandoffs(MarkCompleted(s, c, out), c.agent, hs.accepted);
      var talked := QueueDiscussions(queued, c.agent, ds);
      QueuedAddsNoServer(s, c, out);
      DiscussionsAreBlank(queued, c.agent, ds);
      BlankAddsNoServer(queued, talked);
      RepairIsBlank(talked, c.agent, hs.rejected);
      BlankAddsNoServer(talked, QueueRepair(talked, c.agent, hs.rejected));
    }
  }

  lemma FailAddsNoServer(s: Session, c: Callback)
    ensures AddsNoServer(s, FailJob(s, c).0)
  {
    if Admit(s, c) == Applied {
      var finished := FinishJob(s, c.job, Failed, FindAgent(s.agents, c.agent).value);
      RecoveryIsBlank(SyncFailed(finished, s.jobs[c.job]), c.agent, s.jobs[c.job].kind);
      BlankAddsNoServer(SyncFailed(finished, s.jobs[c.job]), FailJob(s, c).0);
    }
  }

  lemma OtherAddsNoServer(s: Session, op: Op)
    requires !op.Complete? && !op.Fail? && !op.Claim?
    ensures AddsNoServer(s, Step(s, op).0)
  {
  }

  /** The claim of a free agent adds a job for a handoff only by starting the one that is ready for it. */
  lemma FreeAdds(s: Session, i: nat, worker: string, sweep: Sweep)
    requires i < |s.agents|
    ensures var r := ClaimWhenFree(s, i, worker, sweep).0;
      AddsNoServer(s, r)
      || (ReadyHandoff(s, s.agents[i]).Some?
          && ReadyHandoff(s, s.agents[i]).value < |s.handoffs|
          && s.handoffs[ReadyHandoff(s, s.agents[i]).value].task < |s.tasks|
          && r == ClaimHandoff(s, i, ReadyHandoff(s, s.agents[i]).value, worker).0)
  {
  }

  lemma StartedFits(s: Session, i: nat, k: nat, worker: string)
    requires i < |s.agents| && ReadyHandoff(s, s.agents[i]) == Some(k) && k < |s.handoffs| && s.handoffs[k].task < |s.tasks|
    ensures var r := ClaimHandoff(s, i, k, worker).0; |r.jobs| == |s.jobs| + 1 && Fits(r, |s.jobs|)
  {
    var r := ClaimHandoff(s, i, k, worker).0;
    ReadyIffNext(s, s.agents[i], k);
    assert r.agents[i].name == s.agents[i].name && r.agents[i].role == s.agents[i].role;
    assert MeantFor(r.handoffs[k], r.agents[i]);
  }

  lemma FreeFits(s: Session, i: nat, worker: string, sweep: Sweep)
    requires i < |s.agents|
    ensures var r := ClaimWhenFree(s, i, worker, sweep).0; forall j: nat :: |s.jobs| <= j < |r.jobs| ==> Fits(r, j)
  {
    FreeAdds(s, i, worker, sweep);
    if !AddsNoServer(s, ClaimWhenFree(s, i, worker, sweep).0) {
      StartedFits(s, i, ReadyHandoff(s, s.agents[i]).value, worker);
    }
  }

  lemma ClaimFits(s: Session, name: string, worker: string, sweep: Sweep)
    ensures var r := ClaimNextJob(s, name, worker, sweep).0; forall j: nat :: |s.jobs| <= j < |r.jobs| ==> Fits(r, j)
  {
    ClaimIsFree(s, name, worker, sweep);
    if FindAgent(s.agents, name).Some? {
      var i := FindAgent(s.agents, name).value;
      match ActiveJob(s.jobs, name)
      case None => FreeFits(s, i, worker, sweep);
      case Some(j) => FreeFits(Recover(s, j), i, worker, sweep);
    }
  }

  /** The jobs that r adds fit. */
  ghost predicate AddsFitting(s: Session, r: Session)
  {
    forall j: nat :: |s.jobs| <= j < |r.jobs| ==> Fits(r, j)
  }

  lemma StepAdds(s: Session, op: Op)
    ensures AddsFitting(s, Step(s, op).0)
  {
    match op
    case Claim(name, worker, sweep) => ClaimFits(s, name, worker, sweep);
    case Complete(c, out) => CompleteAddsNoServer(s, c, out);
    case Fail(c) => FailAddsNoServer(s, c);
    case _ => OtherAddsNoServer(s, op);
  }

  lemma StepFits(s: Session, op: Op)
    requires Inv(s) && AllFit(s)
    ensures AllFit(Step(s, op).0)
  {
    StepLater(s, op);
    StepAdds(s, op);
    StillFit(s, Step(s, op).0);
  }

  // ---- claimed handoffs' tasks ----

  /** While the handoff that unfinished job j was started for is claimed, the handoff's task is assigned to j's agent. */
  ghost predicate Owns(s: Session, j: nat)
    requires j < |s.jobs|
  {
    var h := s.jobs[j].handoff;
    !Terminal(s.jobs[j]) && h.Some? && h.value < |s.handoffs| && s.handoffs[h.value].state == Claimed ==>
      s.handoffs[h.value].task < |s.tasks| && s.tasks[s.handoffs[h.value].task].assignee == Some(s.jobs[j].agent)
  }

  ghost predicate AllOwn(s: Session)
  {
    forall j: nat :: j < |s.jobs| ==> Owns(s, j)
  }

  /** What is claimed in b was so in a, and its task is assigned as it was. */
  ghost predicate ClaimsStay(a: Session, b: Session)
  {
    && |a.handoffs| <= |b.handoffs| && |a.tasks| <= |b.tasks|
    && forall h: nat :: h < |b.handoffs| && b.handoffs[h].state == Claimed ==> ClaimStays(a, b, h)
  }

  ghost predicate ClaimStays(a: Session, b: Session, h: nat)
    requires h < |b.handoffs|
  {
    && h < |a.handoffs| && a.handoffs[h].state == Claimed && b.handoffs[h].task == a.handoffs[h].task
    && (a.handoffs[h].task < |a.tasks| ==>
          a.handoffs[h].task < |b.tasks| && b.tasks[a.handoffs[h].task].assignee == a.tasks[a.handoffs[h].task].assignee)
  }

  lemma StillOwn(a: Session, b: Session)
    requires AllOwn(a) && ClaimsStay(a, b) && JobsLater(a.jobs, b.jobs) && AddsNoServer(a, b)
    ensures AllOwn(b)
  {
    forall j: nat | j < |b.jobs| ensures Owns(b, j) {
      if j < |a.jobs| && b.jobs[j].handoff.Some? {
        assert JobLater(a.jobs[j], b.jobs[j]) && Owns(a, j);
        var h := b.jobs[j].handoff.value;
        if h < |b.handoffs| && b.handoffs[h].state == Claimed { assert ClaimStays(a, b, h); }
      }
    }
  }

  lemma ClaimsStayOn(a: Session, b: Session, c: Session)
    requires ClaimsStay(a, b) && ClaimsStay(b, c)
    ensures ClaimsStay(a, c)
  {
    forall h: nat | h < |c.handoffs| && c.handoffs[h].state == Claimed ensures ClaimStays(a, c, h) {
      assert ClaimStays(b, c, h) && ClaimStays(a, b, h);
    }
  }

  lemma EnqueueClaims(a: Session, mid: Session, t: nat, source: string, role: string, r: HandoffRequest)
    requires t < |mid.tasks| && mid.handoffs == a.handoffs && |a.tasks| <= |mid.tasks|
    requires forall u: nat :: u < |a.tasks| && u != t ==> mid.tasks[u] == a.tasks[u]
    ensures ClaimsStay(a, Enqueue(mid, t, source, role, r))
  {
    var out := Enqueue(mid, t, source, role, r);
    forall h: nat | h < |out.handoffs| && out.handoffs[h].state == Claimed ensures ClaimStays(a, out, h) {
      assert h < |a.handoffs| && out.handoffs[h] == Retire(a.handoffs[h], t);
    }
  }

  lemma QueueHandoffClaims(s: Session, source: string, r: HandoffRequest)
    requires FindAgent(s.agents, r.target).Some?
    ensures ClaimsStay(s, QueueHandoff(s, source, r).0)
  {
    var role := s.agents[FindAgent(s.agents, r.target).value].role;
    match FindTask(s.tasks, KeyFor(s.tasks, r))
    case None => NewTaskClaims(s, source, role, r);
    case Some(t) =>
      if !Duplicate(s, t, r) {
        RehandIsEnqueue(s, source, r, t, role);
        EnqueueClaims(s, s.(tasks := s.tasks[t := Rehanded(s, s.tasks[t], source, role, r)]), t, source, role, r);
      }
  }

  lemma NewTaskClaims(s: Session, source: string, role: string, r: HandoffRequest)
    requires FindAgent(s.agents, r.target).Some? && role == s.agents[FindAgent(s.agents, r.target).value].role
    requires FindTask(s.tasks, KeyFor(s.tasks, r)).None?
    ensures ClaimsStay(s, QueueHandoff(s, source, r).0)
  {
    var task := Task(KeyFor(s.tasks, r), role, Some(r.target), source, TaskReady, 1, s.epoch, None, None, r.body, r.semantic, r.files);
    EnqueueClaims(s, s.(tasks := s.tasks + [task]), |s.tasks|, source, role, r);
  }

  lemma {:induction false} QueueEachClaims(s: Session, source: string, rs: seq<HandoffRequest>)
    requires KnownTargets(s.agents, rs)
    ensures ClaimsStay(s, QueueEach(s, source, rs).0)
  {
    if |rs| > 0 {
      var before, last := QueueEach(s, source, rs[..|rs| - 1]).0, rs[|rs| - 1];
      QueueEachClaims(s, source, rs[..|rs| - 1]);
      QueueHandoffClaims(before, source, last);
      ClaimsStayOn(s, before, QueueHandoff(before, source, last).0);
    }
  }

  lemma SameRowsClaims(s: Session, r: Session)
    requires r.tasks == s.tasks && r.handoffs == s.handoffs
    ensures ClaimsStay(s, r)
  {
  }

  lemma SyncClaims(s: Session, was: Job, question: bool, rs: seq<HandoffRequest>)
    ensures ClaimsStay(s, SyncCompleted(s, was, question, rs)) && ClaimsStay(s, SyncFailed(s, was))
  {
  }

  lemma CompleteClaims(s: Session, c: Callback, out: Output)
    ensures ClaimsStay(s, CompleteJob(s, c, out).0)
  {
    if Admit(s, c) == Applied {
      var hs := AcceptedHandoffs(s, c, out);
      var done := MarkCompleted(s, c, out);
      var each, filed := QueueEach(done, c.agent, hs.accepted).0, Filed(s, c, out);
      QueueEachClaims(done, c.agent, hs.accepted);
      CuratorEventIsBlank(each, c.agent);
      CompleteFromFiled(s, c, out);
      SameRowsClaims(s, done);
      SameRowsClaims(each, filed);
      ClaimsStayOn(s, done, each);
      ClaimsStayOn(s, each, filed);
      SyncClaims(filed, s.jobs[c.job], out.question, hs.accepted);
      ClaimsStayOn(s, filed, CompleteJob(s, c, out).0);
    }
  }

  lemma FailClaims(s: Session, c: Callback)
    ensures ClaimsStay(s, FailJob(s, c).0)
  {
    if Admit(s, c) == Applied {
      var finished := FinishJob(s, c.job, Failed, FindAgent(s.agents, c.agent).value);
      var synced := SyncFailed(finished, s.jobs[c.job]);
      SameRowsClaims(s, finished);
      SyncClaims(finished, s.jobs[c.job], false, []);
      ClaimsStayOn(s, finished, synced);
      RecoveryIsBlank(synced, c.agent, s.jobs[c.job].kind);
      SameRowsClaims(synced, FailJob(s, c).0);
      ClaimsStayOn(s, synced, FailJob(s, c).0);
    }
  }

  lemma OtherClaims(s: Session, op: Op)
    requires !op.Complete? && !op.Fail? && !op.Claim?
    ensures ClaimsStay(s, Step(s, op).0)
  {
  }

  /** Starting handoff k assigns its task; no other live handoff is of that task. */
  lemma StartOwns(s: Session, i: nat, k: nat, worker: string)
    requires Inv(s) && AllOwn(s) && i < |s.agents| && k < |s.handoffs| && s.handoffs[k].state == Queued
    requires s.handoffs[k].task < |s.tasks|
    ensures AllOwn(ClaimHandoff(s, i, k, worker).0)
  {
    var r := ClaimHandoff(s, i, k, worker).0;
    forall j: nat | j < |r.jobs| ensures Owns(r, j) {
      if j < |s.jobs| && s.jobs[j].handoff.Some? {
        assert Owns(s, j) && JobRefs(s.jobs[j], |s.tasks|, s.handoffs);
        var h := s.jobs[j].handoff.value;
        if h != k && Live(s.handoffs[h]) { OneLiveEach(s.handoffs, h, k); }
      }
    }
  }

  lemma FreeOwns(s: Session, i: nat, worker: string, sweep: Sweep)
    requires Inv(s) && AllOwn(s) && i < |s.agents|
    ensures AllOwn(ClaimWhenFree(s, i, worker, sweep).0)
  {
    var r := ClaimWhenFree(s, i, worker, sweep).0;
    FreeAdds(s, i, worker, sweep);
    if AddsNoServer(s, r) {
      FreeAddsNone(s, i, worker, sweep);
      ClaimWhenFreeLater(s, i, worker, sweep);
      SameRowsClaims(s, r);
      StillOwn(s, r);
    } else {
      StartOwns(s, i, ReadyHandoff(s, s.agents[i]).value, worker);
    }
  }

  lemma FreeAddsNone(s: Session, i: nat, worker: string, sweep: Sweep)
    requires i < |s.agents| && AddsNoServer(s, ClaimWhenFree(s, i, worker, sweep).0)
    ensures var r := ClaimWhenFree(s, i, worker, sweep).0; r.tasks == s.tasks && r.handoffs == s.handoffs
  {
    FreeStarts(s, i, worker, sweep);
    if ReadyHandoff(s, s.agents[i]).Some? {
      var r := ClaimHandoff(s, i, ReadyHandoff(s, s.agents[i]).value, worker).0;
      assert r.jobs[|s.jobs|].handoff.Some?;
    }
  }

  lemma RecoveredOwn(s: Session, j: nat)
    requires Inv(s) && AllOwn(s) && j < |s.jobs| && s.jobs[j].status == InProgress
    ensures Inv(Recover(s, j)) && AllOwn(Recover(s, j))
  {
    RecoverKeeps(s, j);
    forall k: nat | k < |s.jobs| ensures Owns(Recover(s, j), k) { assert Owns(s, k); }
  }

  lemma ClaimOwns(s: Session, name: string, worker: string, sweep: Sweep)
    requires Inv(s) && AllOwn(s)
    ensures AllOwn(ClaimNextJob(s, name, worker, sweep).0)
  {
    var r := ClaimNextJob(s, name, worker, sweep).0;
    ClaimIsFree(s, name, worker, sweep);
    if r.jobs == s.jobs && r.tasks == s.tasks && r.handoffs == s.handoffs {
      forall j: nat | j < |s.jobs| ensures Owns(r, j) { assert Owns(s, j); }
    } else {
      var i := FindAgent(s.agents, name).value;
      match ActiveJob(s.jobs, name)
      case None => FreeOwns(s, i, worker, sweep);
      case Some(j) =>
        RecoveredOwn(s, j);
        FreeOwns(Recover(s, j), i, worker, sweep);
    }
  }

  lemma StepClaims(s: Session, op: Op)
    requires !op.Claim?
    ensures ClaimsStay(s, Step(s, op).0) && AddsNoServer(s, Step(s, op).0)
  {
    match op
    case Complete(c, out) =>
      CompleteClaims(s, c, out);
      CompleteAddsNoServer(s, c, out);
    case Fail(c) =>
      FailClaims(s, c);
      FailAddsNoServer(s, c);
    case _ =>
      OtherClaims(s, op);
      OtherAddsNoServer(s, op);
  }

  lemma StepOwns(s: Session, op: Op)
    requires Inv(s) && AllOwn(s)
    ensures AllOwn(Step(s, op).0)
  {
    if op.Claim? {
      ClaimOwns(s, op.name, op.worker, op.sweep);
    } else {
      StepLater(s, op);
      StepClaims(s, op);
      StillOwn(s, Step(s, op).0);
    }
  }

  // ---- over runs ----

  /** Over every run each job that was started for a handoff is run by an agent of the session that the handoff is meant
      for, and while the handoff of an unfinished job is claimed, its task is assigned to the job's agent. */
  lemma {:induction false} AssignedOverRuns(start: Session, ops: seq<Op>)
    requires Created(start)
    ensures AllFit(Run(start, ops)) && AllOwn(Run(start, ops))
  {
    if |ops| > 0 {
      AssignedOverRuns(start, ops[..|ops| - 1]);
      RunInv(start, ops[..|ops| - 1]);
      StepFits(Run(start, ops[..|ops| - 1]), ops[|ops| - 1]);
      StepOwns(Run(start, ops[..|ops| - 1]), ops[|ops| - 1]);
    }
  }
}
