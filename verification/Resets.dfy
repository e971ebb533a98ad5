/** What a reset leaves: every task that was under way can be taken up again, and nothing that had ended starts anew. */
module Resets {
  import opened Text
  import opened Rows
  import opened Protocol
  import opened Invariants
  import opened Guarantees
  import opened Serving

  /** Handoff h is queued in r, in r's epoch, if it was live in s, and ended as before if not; the rest of it is kept. */
  ghost predicate Requeued(s: Session, r: Session, h: nat)
    requires h < |s.handoffs| && h < |r.handoffs|
  {
    var was, now := s.handoffs[h], r.handoffs[h];
    && now.state == (if was.state in {Queued, Claimed} then Queued else was.state) && now.epoch == r.epoch
    && now.task == was.task && now.source == was.source && now.target == was.target && now.targetRole == was.targetRole
    && now.body == was.body && now.revision == was.revision
  }

  /** Task t is ready in r if it was under way or ready in s, and otherwise stays at the state it had; nobody holds it, and
      what it is about is kept. */
  ghost predicate Released(s: Session, r: Session, t: nat)
    requires t < |s.tasks| && t < |r.tasks|
  {
    var was, now := s.tasks[t], r.tasks[t];
    && now.state == (if was.state in {TaskBlocked, TaskQueued, TaskDone, TaskFailed} then was.state else TaskReady)
    && now.lease == None && now.worker == None && now.epoch == r.epoch
    && now.key == was.key && now.revision == was.revision && now.role == was.role && now.assignee == was.assignee
    && now.source == was.source && now.body == was.body && now.semantic == was.semantic && now.files == was.files
  }

  /** Of the agent's jobs exactly one is unfinished, a pending restart. */
  ghost predicate RestartsOnly(r: Session, name: string, j: nat)
  {
    && j < |r.jobs| && r.jobs[j].agent == name && r.jobs[j].kind == Restart && r.jobs[j].status == Pending
    && r.jobs[j].epoch == r.epoch
    && forall k: nat :: k < |r.jobs| && k != j && r.jobs[k].agent == name ==> Terminal(r.jobs[k])
  }

  /** A reset moves to the next epoch, queues the live handoffs again, releases the tasks and leaves each agent with a
      restart and nothing else to do. */
  lemma ResetLeaves(s: Session)
    requires Inv(s)
    ensures var r := ResetSession(s);
      && r.epoch == s.epoch + 1 && |r.handoffs| == |s.handoffs| && |r.tasks| == |s.tasks| && r.agents == s.agents
      && (forall h: nat :: h < |s.handoffs| ==> Requeued(s, r, h))
      && (forall t: nat :: t < |s.tasks| ==> Released(s, r, t))
  {
  }

  lemma ResetRestarts(s: Session, i: nat)
    requires Inv(s) && i < |s.agents|
    ensures RestartsOnly(ResetSession(s), s.agents[i].name, |s.jobs| + i)
  {
    var r := ResetSession(s);
    var cancelled := Apply(s.jobs, (j: Job) => Cancel(j));
    var restarts := Apply(s.agents, (a: Agent) => NewJob(a.name, Restart, s.epoch + 1));
    assert r.jobs == cancelled + restarts;
    forall k: nat | k < |r.jobs| && k != |s.jobs| + i && r.jobs[k].agent == s.agents[i].name ensures Terminal(r.jobs[k]) {
      if k < |s.jobs| { assert r.jobs[k] == Cancel(s.jobs[k]); } else { OneSuchName(s.agents, i, k - |s.jobs|); }
    }
  }

  lemma OneSuchName(agents: seq<Agent>, i: nat, k: nat)
    requires UniqueNames(agents) && i < |agents| && k < |agents| && agents[i].name == agents[k].name
    ensures i == k
  {
  }

  /** Handoff h is queued for task t, which is ready, and no other handoff of t is live. */
  ghost predicate TakenUpBy(r: Session, t: nat, h: nat)
  {
    && t < |r.tasks| && r.tasks[t].state == TaskReady && h < |r.handoffs| && r.handoffs[h].task == t
    && r.handoffs[h].state == Queued && r.handoffs[h].epoch == r.epoch
    && forall k: nat :: k < |r.handoffs| && k != h && r.handoffs[k].task == t ==> r.handoffs[k].state !in {Queued, Claimed}
  }

  lemma ClaimedIsQueued(s: Session, t: nat, h: nat)
    requires Inv(s) && t < |s.tasks| && s.tasks[t].state == TaskInProgress
    requires h < |s.handoffs| && s.handoffs[h].task == t && s.handoffs[h].state == Claimed
    ensures TakenUpBy(ResetSession(s), t, h)
  {
    var r := ResetSession(s);
    ResetLeaves(s);
    assert Requeued(s, r, h) && Released(s, r, t);
    forall k: nat | k < |r.handoffs| && k != h && r.handoffs[k].task == t ensures r.handoffs[k].state !in {Queued, Claimed} {
      assert Requeued(s, r, k);
      OtherIsEnded(s.handoffs, h, k);
    }
  }

  lemma OtherIsEnded(handoffs: seq<Handoff>, h: nat, k: nat)
    requires OneLive(handoffs) && h < |handoffs| && k < |handoffs| && h != k
    requires Live(handoffs[h]) && handoffs[h].task == handoffs[k].task
    ensures handoffs[k].state !in {Queued, Claimed}
  {
    if Live(handoffs[k]) { OneLiveEach(handoffs, h, k); }
  }

  /** While the links hold, a task in progress is ready after a reset and waits under exactly one queued handoff, the one
      that was claimed. */
  lemma ResetTakesUp(s: Session, t: nat)
    requires Inv(s) && Linked(s) && t < |s.tasks| && s.tasks[t].state == TaskInProgress
    ensures exists h: nat :: TakenUpBy(ResetSession(s), t, h) && s.handoffs[h].state == Claimed
  {
    var j, h := HolderFound(s, t);
    ClaimedIsQueued(s, t, h);
  }

  /** No task is in progress after it, so every queued handoff of this epoch waits for each agent it is meant for. */
  lemma ResetAwaits(s: Session, a: Agent, h: nat)
    requires Inv(s) && h < |s.handoffs| && Live(s.handoffs[h]) && MeantFor(s.handoffs[h], a)
    ensures Awaits(ResetSession(s), a, h)
  {
    var r := ResetSession(s);
    ResetLeaves(s);
    assert Requeued(s, r, h);
    forall u: nat | u < |r.tasks| ensures r.tasks[u].state != TaskInProgress { assert Released(s, r, u); }
  }
}
