/** Jobs that work on one task, or on tasks that share a scope: when the bridge lets them. */
module Overlaps {
  import opened Text
  import opened Rows
  import opened Protocol
  import opened Invariants
  import opened Runs
  import opened Guarantees
  import opened Serving

  /** The tasks are one, or share a semantic scope or a file. */
  predicate Overlap(tasks: seq<Task>, t: nat, u: nat)
    requires t < |tasks| && u < |tasks|
  {
    t == u || !Apart(tasks[t], tasks[u])
  }

  /** Job j is unfinished and works on task t. */
  ghost predicate WorksOn(s: Session, j: nat, t: nat)
  {
    j < |s.jobs| && t < |s.tasks| && !Terminal(s.jobs[j]) && s.jobs[j].task == Some(t)
  }

  /** Job j is unfinished and works on a task that overlaps task u. */
  ghost predicate WorksNear(s: Session, j: nat, u: nat)
    requires u < |s.tasks|
  {
    exists t: nat :: WorksOn(s, j, t) && Overlap(s.tasks, t, u)
  }

  /** Job j no longer holds its task: that is not in progress, or it is under another job's lease. */
  ghost predicate Lost(s: Session, j: nat)
    requires j < |s.jobs|
  {
    forall t: nat :: WorksOn(s, j, t) ==> s.tasks[t].state != TaskInProgress || !Holds(s, j, t)
  }

  /** Two running jobs work on one task, or on tasks that share a scope. */
  ghost predicate Sharing(s: Session, j: nat, k: nat)
  {
    && j != k && j < |s.jobs| && k < |s.jobs| && s.jobs[j].status == InProgress && s.jobs[k].status == InProgress
    && exists u: nat :: WorksOn(s, k, u) && WorksNear(s, j, u)
  }

  lemma HolderIsNear(s: Session, v: nat, u: nat) returns (j: nat)
    requires Inv(s) && Linked(s) && u < |s.tasks| && v < |s.tasks|
    requires s.tasks[v].state == TaskInProgress && !Apart(s.tasks[u], s.tasks[v])
    ensures WorksNear(s, j, u) && !Lost(s, j)
  {
    var h;
    j, h := HolderFound(s, v);
    assert WorksOn(s, j, v) && Overlap(s.tasks, v, u);
  }

  /** The check before a task is started lets it through exactly when every unfinished job on it, or on a task it
      overlaps, no longer holds its own. */
  lemma MayStartIff(s: Session, u: nat)
    requires Inv(s) && Linked(s) && u < |s.tasks| && s.tasks[u].state != TaskInProgress
    ensures CanSelfClaim(s.tasks, u) <==> forall j: nat :: WorksNear(s, j, u) ==> Lost(s, j)
  {
    ClearIff(s.tasks, u);
    if Clear(s.tasks, u) {
      forall j: nat | WorksNear(s, j, u) ensures Lost(s, j) {
        var t: nat :| WorksOn(s, j, t) && Overlap(s.tasks, t, u);
        assert t != u && s.tasks[t].state == TaskInProgress ==> Apart(s.tasks[u], s.tasks[t]);
      }
    }
    if forall j: nat :: WorksNear(s, j, u) ==> Lost(s, j) {
      forall v | 0 <= v < |s.tasks| && v != u && s.tasks[v].state == TaskInProgress ensures Apart(s.tasks[u], s.tasks[v]) {
        if !Apart(s.tasks[u], s.tasks[v]) { var _ := HolderIsNear(s, v, u); }
      }
    }
  }

  /** Starting the handoff h makes the new job share with exactly the running jobs on its task or on one it overlaps,
      and each of those has lost its own. */
  lemma StartSharesIff(s: Session, i: nat, h: nat, worker: string, j: nat)
    requires Inv(s) && Linked(s) && i < |s.agents| && ReadyHandoff(s, s.agents[i]) == Some(h)
    requires j < |s.jobs| && s.jobs[j].status == InProgress
    ensures h < |s.handoffs| && s.handoffs[h].task < |s.tasks|
    ensures Sharing(ClaimHandoff(s, i, h, worker).0, j, |s.jobs|) <==> WorksNear(s, j, s.handoffs[h].task)
    ensures WorksNear(s, j, s.handoffs[h].task) ==> Lost(s, j)
  {
    MayStartIff(s, s.handoffs[h].task);
    StartedNear(s, i, h, worker, j);
  }

  lemma StartedNear(s: Session, i: nat, h: nat, worker: string, j: nat)
    requires i < |s.agents| && h < |s.handoffs| && s.handoffs[h].task < |s.tasks|
    requires j < |s.jobs| && s.jobs[j].status == InProgress
    ensures Sharing(ClaimHandoff(s, i, h, worker).0, j, |s.jobs|) <==> WorksNear(s, j, s.handoffs[h].task)
  {
    var r, u := ClaimHandoff(s, i, h, worker).0, s.handoffs[h].task;
    assert forall t :: 0 <= t < |s.tasks| ==> (Overlap(r.tasks, t, u) <==> Overlap(s.tasks, t, u));
    assert forall t: nat :: WorksOn(r, j, t) <==> WorksOn(s, j, t);
    assert WorksOn(r, |s.jobs|, u);
  }

  lemma HoldersApart(s: Session, j: nat, k: nat, t: nat, u: nat)
    requires Inv(s) && j != k && WorksOn(s, j, t) && WorksOn(s, k, u) && Overlap(s.tasks, t, u)
    requires s.tasks[t].state == TaskInProgress && s.tasks[u].state == TaskInProgress && Holds(s, j, t)
    ensures !Holds(s, k, u)
  {
    assert TaskRow(s.tasks[t], s.epoch, s.nextLease);
    ApartIff(s.tasks[t], s.tasks[u]);
  }

  lemma SharerLost(s: Session, j: nat, k: nat)
    requires Inv(s) && Sharing(s, j, k) && !Lost(s, j)
    ensures Lost(s, k)
  {
    var u: nat :| WorksOn(s, k, u) && WorksNear(s, j, u);
    var t: nat :| WorksOn(s, j, t) && Overlap(s.tasks, t, u);
    if s.tasks[u].state == TaskInProgress { HoldersApart(s, j, k, t, u); }
  }

  /** Over every run, of two running jobs that share one at least has lost its task. */
  lemma SharersLost(start: Session, ops: seq<Op>, j: nat, k: nat)
    requires Created(start) && Sharing(Run(start, ops), j, k)
    ensures Lost(Run(start, ops), j) || Lost(Run(start, ops), k)
  {
    RunInv(start, ops);
    if !Lost(Run(start, ops), j) { SharerLost(Run(start, ops), j, k); }
  }
}
