/** Whom a finished job puts to work: the curator, the planner and the agents it talks to. */
module Wakeups {
  import opened Text
  import opened Rows
  import opened ControlBlocks
  import opened Protocol
  import opened Steps
  import opened History
  import opened Guarantees
  import opened Starvation

  // ---- who they are ----

  /** The first agent called by the name, ignoring case, or if there is none the first whose role says so. */
  ghost predicate Appointed(agents: seq<Agent>, name: string, words: set<string>, i: nat)
  {
    && i < |agents|
    && if exists k :: 0 <= k < |agents| && Lower(agents[k].name) == name
       then Lower(agents[i].name) == name && forall k :: 0 <= k < i ==> Lower(agents[k].name) != name
       else RoleSays(agents[i], words) && forall k :: 0 <= k < i ==> !RoleSays(agents[k], words)
  }

  ghost predicate RoleSays(a: Agent, words: set<string>)
  {
    exists w :: w in words && Contains(Lower(a.role), w)
  }

  lemma CuratorRole(a: Agent)
    ensures Contains(Lower(a.role), "coordination") || Contains(Lower(a.role), "curat") <==> RoleSays(a, {"coordination", "curat"})
  {
    if Contains(Lower(a.role), "coordination") { assert "coordination" in {"coordination", "curat"}; }
    if Contains(Lower(a.role), "curat") { assert "curat" in {"coordination", "curat"}; }
  }

  lemma PlannerRole(a: Agent)
    ensures Contains(Lower(a.role), "plan") <==> RoleSays(a, {"plan"})
  {
    if Contains(Lower(a.role), "plan") { assert "plan" in {"plan"}; }
  }

  /** The curator is the one so named or else so described, and is exempt from the cap; without one nobody is exempt. */
  lemma CuratorAppointed(agents: seq<Agent>, i: nat)
    ensures FindCurator(agents) == Some(i) <==> Appointed(agents, "curator", {"coordination", "curat"}, i)
    ensures FindCurator(agents) == Some(i) ==> i < |agents| && IsCurator(agents[i])
    ensures FindCurator(agents).None? ==> forall k :: 0 <= k < |agents| ==> !IsCurator(agents[k])
  {
    forall k | 0 <= k < |agents|
      ensures Contains(Lower(agents[k].role), "coordination") || Contains(Lower(agents[k].role), "curat")
        <==> RoleSays(agents[k], {"coordination", "curat"})
    {
      CuratorRole(agents[k]);
    }
  }

  lemma PlannerAppointed(agents: seq<Agent>, i: nat)
    ensures FindPlanner(agents) == Some(i) <==> Appointed(agents, "planner", {"plan"}, i)
  {
    forall k | 0 <= k < |agents| ensures Contains(Lower(agents[k].role), "plan") <==> RoleSays(agents[k], {"plan"}) {
      PlannerRole(agents[k]);
    }
  }

  // ---- open work ----

  /** The agent has an unfinished job of one of the kinds. */
  ghost predicate AtWork(r: Session, name: string, kinds: set<JobKind>)
  {
    exists j: nat :: j < |r.jobs| && r.jobs[j].agent == name && r.jobs[j].kind in kinds && r.jobs[j].status in {Pending, InProgress}
  }

  lemma OpenIsAtWork(r: Session, name: string, kinds: set<JobKind>)
    ensures HasOpenJob(r.jobs, name, kinds) <==> AtWork(r, name, kinds)
  {
    if j :| 0 <= j < |r.jobs| && r.jobs[j].agent == name && r.jobs[j].kind in kinds && !Terminal(r.jobs[j]) {
      var k: nat := j;
      assert r.jobs[k].status.Pending? || r.jobs[k].status.InProgress?;
    }
  }

  lemma NewIsAtWork(s: Session, name: string, kind: JobKind, kinds: set<JobKind>)
    requires kind in kinds
    ensures AtWork(AddJob(s, name, kind), name, kinds)
  {
    assert AddJob(s, name, kind).jobs[|s.jobs|] == NewJob(name, kind, s.epoch);
  }

  lemma MoreJobsAtWork(s: Session, r: Session, name: string, kinds: set<JobKind>)
    requires OnlyBlankJobs(s, r) && AtWork(s, name, kinds)
    ensures AtWork(r, name, kinds)
  {
    var j: nat :| j < |s.jobs| && s.jobs[j].agent == name && s.jobs[j].kind in kinds && s.jobs[j].status in {Pending, InProgress};
    assert r.jobs[j] == s.jobs[j];
  }

  /** If the curator is not the source, it has curation work. */
  ghost predicate CuratorWoken(r: Session, source: string)
  {
    forall i: nat :: Appointed(r.agents, "curator", {"coordination", "curat"}, i) && Lower(r.agents[i].name) != Lower(source)
      ==> AtWork(r, r.agents[i].name, {CurationEvent, CurationSweep})
  }

  lemma EventWakes(s: Session, source: string)
    ensures CuratorWoken(QueueCuratorEvent(s, source), source)
  {
    var r := QueueCuratorEvent(s, source);
    forall i: nat | Appointed(r.agents, "curator", {"coordination", "curat"}, i) && Lower(r.agents[i].name) != Lower(source)
      ensures AtWork(r, r.agents[i].name, {CurationEvent, CurationSweep})
    {
      CuratorAppointed(r.agents, i);
      NewIsAtWork(s, r.agents[i].name, CurationEvent, {CurationEvent, CurationSweep});
      OpenIsAtWork(s, r.agents[i].name, {CurationEvent, CurationSweep});
    }
  }

  lemma StaysWoken(s: Session, r: Session, source: string)
    requires OnlyBlankJobs(s, r) && CuratorWoken(s, source)
    ensures CuratorWoken(r, source)
  {
    forall i: nat | Appointed(r.agents, "curator", {"coordination", "curat"}, i) && Lower(r.agents[i].name) != Lower(source)
      ensures AtWork(r, r.agents[i].name, {CurationEvent, CurationSweep})
    {
      MoreJobsAtWork(s, r, r.agents[i].name, {CurationEvent, CurationSweep});
    }
  }

  /** If the planner is not the source, it has planning work. */
  ghost predicate PlannerWoken(r: Session, source: string)
  {
    forall i: nat :: Appointed(r.agents, "planner", {"plan"}, i) && Lower(r.agents[i].name) != Lower(source)
      ==> AtWork(r, r.agents[i].name, {Orchestration, Routing, Recovery, HandoffRepair})
  }

  lemma RepairWakes(s: Session, source: string, rejected: seq<Rejection>)
    requires rejected != []
    ensures PlannerWoken(QueueRepair(s, source, rejected), source)
  {
    var r := QueueRepair(s, source, rejected);
    var kinds := {Orchestration, Routing, Recovery, HandoffRepair};
    forall i: nat | Appointed(r.agents, "planner", {"plan"}, i) && Lower(r.agents[i].name) != Lower(source)
      ensures AtWork(r, r.agents[i].name, kinds)
    {
      PlannerAppointed(r.agents, i);
      NewIsAtWork(s, r.agents[i].name, HandoffRepair, kinds);
      OpenIsAtWork(s, r.agents[i].name, kinds);
    }
  }

  /** Neither the curator nor the planner is asked twice, or about what it did itself: while it has such work, or as the
      source, it gets no job, and otherwise one at most. */
  lemma AskedOnce(s: Session, source: string, rejected: seq<Rejection>, failed: string, kind: JobKind, i: nat)
    ensures |QueueCuratorEvent(s, source).jobs| <= |s.jobs| + 1 && |QueueRepair(s, source, rejected).jobs| <= |s.jobs| + 1
    ensures Appointed(s.agents, "curator", {"coordination", "curat"}, i) && AtWork(s, s.agents[i].name, {CurationEvent, CurationSweep})
      ==> QueueCuratorEvent(s, source) == s
    ensures Appointed(s.agents, "planner", {"plan"}, i) && AtWork(s, s.agents[i].name, {Orchestration, Routing, Recovery, HandoffRepair})
      ==> QueueRepair(s, source, rejected) == s
    ensures Appointed(s.agents, "curator", {"coordination", "curat"}, i) && Lower(s.agents[i].name) == Lower(source)
      ==> QueueCuratorEvent(s, source) == s
    ensures Appointed(s.agents, "planner", {"plan"}, i) && Lower(s.agents[i].name) == Lower(source)
      ==> QueueRepair(s, source, rejected) == s
    ensures Appointed(s.agents, "planner", {"plan"}, i) && AtWork(s, s.agents[i].name, {Recovery})
      ==> QueueRecovery(s, failed, kind) == s
  {
    CuratorAppointed(s.agents, i);
    PlannerAppointed(s.agents, i);
    if i < |s.agents| {
      OpenIsAtWork(s, s.agents[i].name, {CurationEvent, CurationSweep});
      OpenIsAtWork(s, s.agents[i].name, {Orchestration, Routing, Recovery, HandoffRepair});
      OpenIsAtWork(s, s.agents[i].name, {Recovery});
    }
  }

  // ---- discussions ----

  /** The agents a discussion addresses: those an opening asks, and the one a reply goes to. */
  ghost predicate Addresses(d: DiscussRequest, name: string)
  {
    (d.kind == OpenTalk && name in d.asks) || (d.kind == ReplyTalk && d.to == Some(name))
  }

  ghost predicate Addressed(ds: seq<DiscussRequest>, name: string)
  {
    exists k: nat :: k < |ds| && Addresses(ds[k], name)
  }

  lemma {:induction false} AddresseesAre(ds: seq<DiscussRequest>, name: string)
    ensures name in AllAddressees(ds) <==> Addressed(ds, name)
  {
    if |ds| > 0 {
      var front, last := ds[..|ds| - 1], ds[|ds| - 1];
      AddresseesAre(front, name);
      if k: nat :| k < |front| && Addresses(front[k], name) { assert ds[k] == front[k]; }
      if k: nat :| k < |ds| && Addresses(ds[k], name) {
        if k < |front| { assert front[k] == ds[k]; }
      }
    }
  }

  /** A new discussion job of the agent. */
  ghost predicate TalkQueued(s: Session, r: Session, name: string)
  {
    exists j: nat :: |s.jobs| <= j < |r.jobs| && r.jobs[j].agent == name && r.jobs[j].kind == Discussion && r.jobs[j].status == Pending
  }

  lemma DiscussionsWake(s: Session, source: string, ds: seq<DiscussRequest>, name: string)
    ensures TalkQueued(s, QueueDiscussions(s, source, ds), name) <==> Addressed(ds, name)
    ensures Addressed(ds, name) ==> CuratorWoken(QueueDiscussions(s, source, ds), source)
  {
    var names := AllAddressees(ds);
    var mid, r := AddJobs(s, names, Discussion), QueueDiscussions(s, source, ds);
    AddresseesAre(ds, name);
    if names != [] {
      EventWakes(mid, source);
      EventAddsNoTalk(mid, source);
      AddedTalks(s, names, name);
      if TalkQueued(s, mid, name) {
        var j: nat :| |s.jobs| <= j < |mid.jobs| && mid.jobs[j].agent == name && mid.jobs[j].kind == Discussion;
        assert r.jobs[j] == mid.jobs[j];
      }
      if TalkQueued(s, r, name) {
        var j: nat :| |s.jobs| <= j < |r.jobs| && r.jobs[j].agent == name && r.jobs[j].kind == Discussion;
        assert j < |mid.jobs| && r.jobs[j] == mid.jobs[j];
      }
    }
  }

  lemma EventAddsNoTalk(s: Session, source: string)
    ensures var r := QueueCuratorEvent(s, source);
      && |s.jobs| <= |r.jobs| && (forall j :: 0 <= j < |s.jobs| ==> r.jobs[j] == s.jobs[j])
      && (forall j :: |s.jobs| <= j < |r.jobs| ==> r.jobs[j].kind == CurationEvent)
  {
  }

  lemma AddedTalks(s: Session, names: seq<string>, name: string)
    ensures TalkQueued(s, AddJobs(s, names, Discussion), name) <==> name in names
  {
    var r := AddJobs(s, names, Discussion);
    if name in names {
      var k: nat :| k < |names| && names[k] == name;
      assert r.jobs[|s.jobs| + k] == NewJob(name, Discussion, s.epoch);
    }
    if TalkQueued(s, r, name) {
      var j: nat :| |s.jobs| <= j < |r.jobs| && r.jobs[j].agent == name;
      assert r.jobs[j] == NewJob(names[j - |s.jobs|], Discussion, s.epoch);
    }
  }

  // ---- a completion ----

  lemma {:induction false} EachGrows(s: Session, source: string, rs: seq<HandoffRequest>)
    requires KnownTargets(s.agents, rs)
    ensures var out := QueueEach(s, source, rs); |out.0.handoffs| >= |s.handoffs| && (out.1 <==> |out.0.handoffs| > |s.handoffs|)
  {
    if |rs| > 0 { EachGrows(s, source, rs[..|rs| - 1]); }
  }

  lemma HandoffsWake(s: Session, c: Callback, out: Output)
    requires Admit(s, c) == Applied
    ensures var r := QueueHandoffs(MarkCompleted(s, c, out), c.agent, AcceptedHandoffs(s, c, out).accepted);
      |r.handoffs| > |s.handoffs| ==> CuratorWoken(r, c.agent)
  {
    var done, rs := MarkCompleted(s, c, out), AcceptedHandoffs(s, c, out).accepted;
    EachGrows(done, c.agent, rs);
    EventWakes(QueueEach(done, c.agent, rs).0, c.agent);
    CuratorEventIsBlank(QueueEach(done, c.agent, rs).0, c.agent);
  }

  lemma SyncKeepsWoken(s: Session, was: Job, question: bool, rs: seq<HandoffRequest>, source: string)
    ensures var r := SyncCompleted(s, was, question, rs);
      r.jobs == s.jobs && r.agents == s.agents && |r.handoffs| == |s.handoffs|
      && (CuratorWoken(s, source) ==> CuratorWoken(r, source)) && (PlannerWoken(s, source) ==> PlannerWoken(r, source))
  {
    var r := SyncCompleted(s, was, question, rs);
    forall name: string, kinds ensures AtWork(r, name, kinds) <==> AtWork(s, name, kinds) { SameJobsAtWork(s, r, name, kinds); }
  }

  lemma SameJobsAtWork(s: Session, r: Session, name: string, kinds: set<JobKind>)
    requires r.jobs == s.jobs
    ensures AtWork(r, name, kinds) <==> AtWork(s, name, kinds)
  {
  }

  /** When the completion has queued a handoff or addressed somebody, the curator has curation work; when a block was
      refused, the planner has planning work; each unless it is the source itself. */
  lemma CompletionWakes(s: Session, c: Callback, out: Output, name: string)
    requires Admit(s, c) == Applied
    ensures var r := CompleteJob(s, c, out).0;
      && (|r.handoffs| > |s.handoffs| ==> CuratorWoken(r, c.agent))
      && (Addressed(ExtractDiscussions(s.agents, c.agent, out.discussions).accepted, name) ==> CuratorWoken(r, c.agent))
      && (AcceptedHandoffs(s, c, out).rejected != [] ==> PlannerWoken(r, c.agent))
  {
    var hs, ds := AcceptedHandoffs(s, c, out), ExtractDiscussions(s.agents, c.agent, out.discussions).accepted;
    var queued := QueueHandoffs(MarkCompleted(s, c, out), c.agent, hs.accepted);
    var talked, filed := QueueDiscussions(queued, c.agent, ds), Filed(s, c, out);
    HandoffsWake(s, c, out);
    DiscussionsWake(queued, c.agent, ds, name);
    DiscussionsAreBlank(queued, c.agent, ds);
    RepairIsBlank(talked, c.agent, hs.rejected);
    if hs.rejected != [] { RepairWakes(talked, c.agent, hs.rejected); }
    if CuratorWoken(queued, c.agent) { StaysWoken(queued, talked, c.agent); }
    if CuratorWoken(talked, c.agent) { StaysWoken(talked, filed, c.agent); }
    CompleteFromFiled(s, c, out);
    SyncKeepsWoken(filed, s.jobs[c.job], out.question, hs.accepted, c.agent);
  }

  lemma QueuedAddsNoTalk(s: Session, c: Callback, out: Output)
    requires Admit(s, c) == Applied
    ensures var r := QueueHandoffs(MarkCompleted(s, c, out), c.agent, AcceptedHandoffs(s, c, out).accepted);
      |s.jobs| <= |r.jobs| && forall j :: |s.jobs| <= j < |r.jobs| ==> r.jobs[j].kind == CurationEvent
  {
    var done, rs := MarkCompleted(s, c, out), AcceptedHandoffs(s, c, out).accepted;
    QueueEachLater(done, c.agent, rs);
    QueueEachJobs(done, c.agent, rs);
    EventAddsNoTalk(QueueEach(done, c.agent, rs).0, c.agent);
  }

  lemma FiledAddresses(s: Session, c: Callback, out: Output, queued: Session, talked: Session, name: string)
    requires Admit(s, c) == Applied
    requires queued == QueueHandoffs(MarkCompleted(s, c, out), c.agent, AcceptedHandoffs(s, c, out).accepted)
    requires talked == QueueDiscussions(queued, c.agent, ExtractDiscussions(s.agents, c.agent, out.discussions).accepted)
    ensures TalkQueued(s, Filed(s, c, out), name)
      <==> Addressed(ExtractDiscussions(s.agents, c.agent, out.discussions).accepted, name)
  {
    var ds := ExtractDiscussions(s.agents, c.agent, out.discussions).accepted;
    QueuedAddsNoTalk(s, c, out);
    DiscussionsWake(queued, c.agent, ds, name);
    DiscussionsAreBlank(queued, c.agent, ds);
    TalkSince(s, queued, talked, name);
    RepairAddsNoTalk(talked, c.agent, AcceptedHandoffs(s, c, out).rejected);
    TalkUntil(s, talked, Filed(s, c, out), name);
  }

  lemma SyncAddsNone(s: Session, was: Job, question: bool, rs: seq<HandoffRequest>)
    ensures SyncCompleted(s, was, question, rs).jobs == s.jobs
  {
  }

  /** The completion queues a discussion job for exactly the agents that its accepted discussions address. */
  lemma CompletionAddresses(s: Session, c: Callback, out: Output, name: string)
    requires Admit(s, c) == Applied
    ensures TalkQueued(s, CompleteJob(s, c, out).0, name)
      <==> Addressed(ExtractDiscussions(s.agents, c.agent, out.discussions).accepted, name)
  {
    var hs, ds := AcceptedHandoffs(s, c, out), ExtractDiscussions(s.agents, c.agent, out.discussions).accepted;
    var queued := QueueHandoffs(MarkCompleted(s, c, out), c.agent, hs.accepted);
    FiledAddresses(s, c, out, queued, QueueDiscussions(queued, c.agent, ds), name);
    CompleteFromFiled(s, c, out);
    SyncAddsNone(Filed(s, c, out), s.jobs[c.job], out.question, hs.accepted);
  }

  lemma TalkSince(s: Session, mid: Session, r: Session, name: string)
    requires |s.jobs| <= |mid.jobs| && forall j :: |s.jobs| <= j < |mid.jobs| ==> mid.jobs[j].kind == CurationEvent
    requires OnlyBlankJobs(mid, r)
    ensures TalkQueued(s, r, name) <==> TalkQueued(mid, r, name)
  {
    if j: nat :| |s.jobs| <= j < |r.jobs| && r.jobs[j].agent == name && r.jobs[j].kind == Discussion && r.jobs[j].status == Pending {
      if j < |mid.jobs| { assert r.jobs[j] == mid.jobs[j]; }
    }
  }

  lemma TalkUntil(s: Session, mid: Session, r: Session, name: string)
    requires |s.jobs| <= |mid.jobs| <= |r.jobs| && forall j :: 0 <= j < |mid.jobs| ==> r.jobs[j] == mid.jobs[j]
    requires forall j :: |mid.jobs| <= j < |r.jobs| ==> r.jobs[j].kind == HandoffRepair
    ensures TalkQueued(s, r, name) <==> TalkQueued(s, mid, name)
  {
    if j: nat :| |s.jobs| <= j < |mid.jobs| && mid.jobs[j].agent == name && mid.jobs[j].kind == Discussion && mid.jobs[j].status == Pending {
      assert r.jobs[j] == mid.jobs[j];
    }
  }

  lemma RepairAddsNoTalk(s: Session, source: string, rejected: seq<Rejection>)
    ensures var r := QueueRepair(s, source, rejected);
      && |s.jobs| <= |r.jobs| && (forall j :: 0 <= j < |s.jobs| ==> r.jobs[j] == s.jobs[j])
      && (forall j :: |s.jobs| <= j < |r.jobs| ==> r.jobs[j].kind == HandoffRepair)
  {
  }

  // ---- a failure ----

  /** After a failed handoff or verification by another agent than one named planner the planner has a recovery job; after
      any other failure no job is added. */
  lemma FailureAsksPlanner(s: Session, c: Callback, i: nat)
    requires Admit(s, c) == Applied
    ensures var r, was := FailJob(s, c).0, s.jobs[c.job];
      && (was.kind in {HandoffWork, Verification} && Lower(c.agent) != "planner" && Appointed(s.agents, "planner", {"plan"}, i) ==>
            i < |r.agents| && AtWork(r, r.agents[i].name, {Recovery}) && |r.jobs| <= |s.jobs| + 1)
      && (was.kind !in {HandoffWork, Verification} || Lower(c.agent) == "planner" ==> |r.jobs| == |s.jobs|)
  {
    var finished := FinishJob(s, c.job, Failed, FindAgent(s.agents, c.agent).value);
    var synced := SyncFailed(finished, s.jobs[c.job]);
    RecoveryAsks(synced, c.agent, s.jobs[c.job].kind, i);
    SameAppointed(s.agents, synced.agents, i);
  }

  lemma SameAppointed(a: seq<Agent>, b: seq<Agent>, i: nat)
    requires SameAgents(a, b)
    ensures Appointed(a, "planner", {"plan"}, i) <==> Appointed(b, "planner", {"plan"}, i)
  {
    forall k | 0 <= k < |a| ensures RoleSays(a[k], {"plan"}) <==> RoleSays(b[k], {"plan"}) {
      PlannerRole(a[k]);
      PlannerRole(b[k]);
    }
    if k :| 0 <= k < |a| && Lower(a[k].name) == "planner" { assert Lower(b[k].name) == "planner"; }
    if k :| 0 <= k < |b| && Lower(b[k].name) == "planner" { assert Lower(a[k].name) == "planner"; }
  }

  lemma RecoveryAsks(s: Session, failed: string, kind: JobKind, i: nat)
    ensures var r := QueueRecovery(s, failed, kind);
      && r.agents == s.agents
      && (kind in {HandoffWork, Verification} && Lower(failed) != "planner" && Appointed(s.agents, "planner", {"plan"}, i) ==>
            AtWork(r, r.agents[i].name, {Recovery}) && |r.jobs| <= |s.jobs| + 1)
      && (kind !in {HandoffWork, Verification} || Lower(failed) == "planner" ==> |r.jobs| == |s.jobs|)
  {
    if Appointed(s.agents, "planner", {"plan"}, i) {
      PlannerAppointed(s.agents, i);
      NewIsAtWork(s, s.agents[i].name, Recovery, {Recovery});
      OpenIsAtWork(s, s.agents[i].name, {Recovery});
    }
  }
}
