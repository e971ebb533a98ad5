/** What closing a session stops, and what undoes it. */
module Closing {
  import opened Rows
  import opened ControlBlocks
  import opened Protocol
  import opened Invariants
  import opened Steps
  import opened Runs
  import opened Guarantees
  import opened Claiming

  /** Closed for work: nothing runs, and neither claims nor messages are served. */
  ghost predicate Shut(s: Session)
  {
    s.closed && !Serving(s) && (s.status == Closed || s.desired == WantPaused) && Running(s.jobs) == {}
  }

  lemma BlankRunning(s: Session, r: Session)
    requires OnlyBlankJobs(s, r)
    ensures Running(r.jobs) == Running(s.jobs)
  {
    forall k | |s.jobs| <= k < |r.jobs| ensures r.jobs[k].status == Pending {
      assert Blank(r.jobs[k], s.epoch);
    }
  }

  /** r starts no job and leaves the session's statuses alone. */
  ghost predicate StartsNothing(s: Session, r: Session)
  {
    Running(r.jobs) <= Running(s.jobs) && r.status == s.status && r.desired == s.desired
  }

  lemma BlankStartsNothing(s: Session, r: Session)
    requires OnlyBlankJobs(s, r)
    ensures StartsNothing(s, r)
  {
    BlankRunning(s, r);
  }

  lemma QueuedStartsNothing(s: Session, c: Callback, out: Output)
    requires Admit(s, c) == Applied
    ensures StartsNothing(s, QueueHandoffs(MarkCompleted(s, c, out), c.agent, AcceptedHandoffs(s, c, out).accepted))
  {
    var rs := AcceptedHandoffs(s, c, out).accepted;
    var done := MarkCompleted(s, c, out);
    var each := QueueEach(done, c.agent, rs).0;
    QueueEachJobs(done, c.agent, rs);
    QueueEachStatus(done, c.agent, rs);
    assert StartsNothing(s, each);
    CuratorEventIsBlank(each, c.agent);
    BlankStartsNothing(each, QueueCuratorEvent(each, c.agent));
  }

  lemma CompleteStartsNothing(s: Session, c: Callback, out: Output)
    requires Admit(s, c) == Applied
    ensures StartsNothing(s, CompleteJob(s, c, out).0)
  {
    var hs := AcceptedHandoffs(s, c, out);
    var ds := ExtractDiscussions(s.agents, c.agent, out.discussions).accepted;
    var queued := QueueHandoffs(MarkCompleted(s, c, out), c.agent, hs.accepted);
    var talked := QueueDiscussions(queued, c.agent, ds);
    var repaired := QueueRepair(talked, c.agent, hs.rejected);
    QueuedStartsNothing(s, c, out);
    DiscussionsAreBlank(queued, c.agent, ds);
    BlankStartsNothing(queued, talked);
    RepairIsBlank(talked, c.agent, hs.rejected);
    BlankStartsNothing(talked, repaired);
    assert StartsNothing(repaired, SyncCompleted(repaired, s.jobs[c.job], out.question, hs.accepted));
  }

  lemma {:induction false} QueueEachStatus(s: Session, source: string, rs: seq<HandoffRequest>)
    requires KnownTargets(s.agents, rs)
    ensures var r := QueueEach(s, source, rs).0; r.status == s.status && r.desired == s.desired
  {
    if |rs| > 0 { QueueEachStatus(s, source, rs[..|rs| - 1]); }
  }

  lemma FailStartsNothing(s: Session, c: Callback)
    requires Admit(s, c) == Applied
    ensures StartsNothing(s, FailJob(s, c).0)
  {
    var finished := FinishJob(s, c.job, Failed, FindAgent(s.agents, c.agent).value);
    var synced := SyncFailed(finished, s.jobs[c.job]);
    RecoveryIsBlank(synced, c.agent, s.jobs[c.job].kind);
    BlankStartsNothing(synced, FailJob(s, c).0);
    assert StartsNothing(s, synced);
  }

  lemma ResetStartsNothing(s: Session)
    ensures Running(ResetSession(s).jobs) == {}
  {
    ResetCancels(s);
    var r := ResetSession(s);
    forall j | 0 <= j < |r.jobs| ensures r.jobs[j].status != InProgress {
      if j >= |s.jobs| { assert r.jobs[|s.jobs| + (j - |s.jobs|)] == NewJob(s.agents[j - |s.jobs|].name, Restart, s.epoch + 1); }
    }
  }

  lemma CloseShuts(s: Session)
    ensures Shut(CloseSession(s))
  {
  }

  lemma OtherStepShut(s: Session, op: Op)
    requires Shut(s) && (op.Claim? || op.Route? || op.RestartAgent? || op.Beat? || op.Pause?)
    ensures Shut(Step(s, op).0) && (op.Claim? || op.Route? ==> !Step(s, op).1.Granted?)
  {
    var r := Step(s, op).0;
    if op.RestartAgent? && r != s { BlankRunning(s, r); }
  }

  lemma StepShut(s: Session, op: Op)
    requires Shut(s) && !op.Register? && !op.Administer?
    ensures Shut(Step(s, op).0)
  {
    StepClosed(s, op);
    match op
    case Complete(c, out) =>
      if Admit(s, c) == Applied { CompleteStartsNothing(s, c, out); }
    case Fail(c) => if Admit(s, c) == Applied { FailStartsNothing(s, c); }
    case Reset => ResetStartsNothing(s);
    case Close => CloseShuts(s);
    case _ => OtherStepShut(s, op);
  }

  /** From the close on, as long as no worker registers and no service sets the status, every claim and
      every message goes unserved and nothing runs. */
  lemma {:induction false} ClosedStaysShut(s: Session, ops: seq<Op>, next: Op)
    requires forall k :: 0 <= k < |ops| ==> !ops[k].Register? && !ops[k].Administer?
    ensures var r := Run(CloseSession(s), ops);
      && r.closed && Running(r.jobs) == {}
      && (next.Claim? || next.Route? ==> !Step(r, next).1.Granted?)
  {
    ShutAfter(s, ops);
    if next.Claim? || next.Route? { OtherStepShut(Run(CloseSession(s), ops), next); }
  }

  lemma {:induction false} ShutAfter(s: Session, ops: seq<Op>)
    requires forall k :: 0 <= k < |ops| ==> !ops[k].Register? && !ops[k].Administer?
    ensures Shut(Run(CloseSession(s), ops))
  {
    if |ops| == 0 {
      CloseShuts(s);
    } else {
      ShutAfter(s, ops[..|ops| - 1]);
      StepShut(Run(CloseSession(s), ops[..|ops| - 1]), ops[|ops| - 1]);
    }
  }

  /** A registering worker reopens a closed session: its next message is taken. */
  lemma RegisterReopens(s: Session, name: string, worker: string, recent: set<string>, kind: JobKind)
    requires FindAgent(s.agents, name).Some?
    ensures var r := RegisterWorker(CloseSession(s), name, worker, recent).0;
      r.closed && Serving(r) && RouteMessage(r, name, kind).1.Granted?
  {
    var shut := CloseSession(s);
    var r := RegisterWorker(shut, name, worker, recent).0;
    AgentsKept(s.agents, shut.agents, r.agents, name);
  }

  lemma AgentsKept(xs: seq<Agent>, ys: seq<Agent>, zs: seq<Agent>, name: string)
    requires FindAgent(xs, name).Some? && SameAgents(xs, ys)
    requires |ys| == |zs| && forall i :: 0 <= i < |ys| ==> ys[i].name == zs[i].name
    ensures FindAgent(ys, name).Some? && FindAgent(zs, name).Some?
  {
    var i := FindAgent(xs, name).value;
    assert ys[i].name == name && zs[i].name == name;
  }
}
