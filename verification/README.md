# Verified models of the Ops-Cure coordination core

This project models four parts of the system and proves what they promise.

1. **The orchestration protocol** of the bridge (`nas_bridge/app/session_service.py`). One session's agents, jobs,
   tasks and handoffs are rows; every service method is one committed transaction. `Rows`, `HandoffBody`,
   `ControlBlocks` and `Protocol` define the rows and the transactions as functions; `SessionStore.Store` is the object whose methods
   update the rows in place, each proved equal to its function. `Invariants` and `Steps` show what every transaction
   keeps, `Runs` and `History` lift that to arbitrary runs, and `Guarantees`, `Claiming`, `Closing`, `Reemission`,
   `Starvation` and `Overlaps` state the results. What the single operations leave is said of the rows alone in `Serving`
   and `Assignments` (claims), `Endings` and `Wakeups` (completions and failures), `Resets`, and `Attendance` (workers,
   messages, pauses and closes). `Witnesses` and `Traces` hold the runs on which a promise fails.
2. **The task board** of a workspace (`pc_launcher/artifact_workspace.py`). `Forest` is the theory of parent links,
   `RollUp` the roll-up rule and its sweeps. `Settling` and `ClosedForm` give the result on boards without cycles:
   termination, uniqueness, order independence and meaning. `Rounds`, `Arrivals` and `Rests` say on any board, in any
   visiting order, what each round reads and exactly when the loop ends; `Sorting` and `Schedules` apply that to the
   sorted order the code uses, and `Cycles` to rings. `TaskEdits` has the edits and when they keep the board acyclic,
   `FinalRanks` says what a board that has come to rest shows, `Records` what it shows after each edit, `TaskBoard.Workspace` is the object with its loops, and
   `BoardRuns` follows it over many runs.
3. **Transcript paging** (`get_thread_delta`): `ThreadDelta`.
4. **The wire**: the three server-sent-event readers (`Lines`, `Sse`, `SseAgreement`), the reply prefix
   (`ReplyPrefix`), and the agent's dispatch loop and what it answers (`AgentLoop`, `Replies`).

How the source's forms are rendered: a row's id is its position in its table, which is also its creation order; a
lease token (a UUID in the source) is a number from a counter; a transaction that raises leaves the rows as they
were (`nas_bridge/app/db.py:265-274`).

## What the proofs found

* A pause can break the link between a task and its job. A job recovered from a replaced worker while the cap is full
  waits as `pending`; the pause workflow cancels pending jobs and leaves the task `in_progress` and the handoff
  `claimed`. The links hold throughout a run exactly when no pause meets such a job
  (`Guarantees.LinkedThroughoutIff`); `Witnesses.PauseStrandsTask` is a reachable run with one.
* `nas_bridge/README.md:36-43` says stale workers do not corrupt current state. That holds across resets
  (`Guarantees.EpochFence`), but not within one epoch, in two ways.
  A recovered job keeps its lease and has no worker until it is claimed again, and `_require_job` lets any worker
  through by then. So the worker that was replaced, or any other that gives the agent's name, can finish it
  (`Traces.RecoveredJobTakesAnyWorker`). `Guarantees.AppliedIff` says exactly which callbacks take effect on an
  unfinished job.
  And a callback is compared with the job's own lease, not with its task's, so a job whose task was handed over again
  can still finish that task (`Claiming.CompletionDecidesTask`). `Claiming.TaskMovesOnlySo` lists every way a task row
  can change, and `Guarantees.HolderIffClaimed` says exactly which job holds the task.
* Such a late completion starves the target of the new handoff. The task is done, the handoff stays queued, and it is
  the first that `_claim_ready_task_job` picks, so nothing behind it is started, not even a handoff that could be
  (`Starvation.StuckHoldsUp`, with the reachable session of `Traces.StaleCompletionStarves`). A reset does not help. Over every run it stays so exactly
  until a completion hands that task over again (`Starvation.StuckUntilHandedOver`).
* Emitting a handoff again while it is live adds nothing exactly when its task is still assigned to the target or to
  nobody and is not blocked, done or failed (`Reemission.LiveReemissionIff`). The code can miss both. Claiming assigns
  the task to the claimer, so once another agent of the role has taken the handoff, emitting it again supersedes it
  and hands the running task over afresh (`Traces.TakenHandoffIsHandedOver`). And a handoff that is still waiting is
  queued a second time when a late completion has finished its task (`Traces.WaitingHandoffIsHandedOver`).
* The check that keeps two jobs off the same files looks at the task rows, not at the jobs. A task handed over again is
  ready while its old job goes on, so a second job can be started on it (`Traces.TwoJobsShareTask`). A task may start
  exactly when every unfinished job on it, or on a task that shares a scope with it, no longer holds its own task
  (`Overlaps.MayStartIff`); two jobs that both hold theirs never share (`Overlaps.SharersLost`).
* A job whose task was handed to somebody else meanwhile and that hands it to the same agent once more, with the same
  body, queues nothing, but settling its task still releases it: the task is ready and held by nobody while the other
  agent's handoff may be claimed and its job running (`Endings.HandedOnOverRuns`, the case of repeats).
* A worker that registers reopens a closed session for messages and claims (`Closing.RegisterReopens`); without such a
  call it stays shut (`Closing.ClosedStaysShut`).
* The reconcile loop of the task board can go on for ever. It ends exactly when every ring of cards is fed the same
  highest rank in every round by the cards read before they are visited and the leaf cards on its branches
  (`Rests.RestsIff`); otherwise the ranks on a ring repeat for ever (`Rests.RanksComeBack`). Boards without cycles and
  boards whose rings have one or two cards always settle, so a run may hand its own root task over again
  (`TaskBoard.SelfHandoffSettles`). Filing a handoff does not check for longer rings. When a run hands its task back
  to the root of its chain of three and asks a question, the loop never ends exactly when the ids sort as a, b, c or as
  b, c, a along the chain (`Cycles.BackHandoffWithQuestionSettlesIff`).
* A cursor never moves again once 120 rows share its timestamp at or before it (`ThreadDelta.ProgressIff`).
* An unterminated last event is dropped by the TypeScript reader and kept by both Python readers
  (`SseAgreement.UnterminatedLastFrame`). They also differ on frames without a name or without data and on indented data
  (`SseAgreement.UnnamedFrame`, `SseAgreement.DatalessFrame`, `SseAgreement.IndentedData`). Sections 9.2.5 and 9.2.6 of the WHATWG HTML Living Standard discard it.
* An event first delivered before the agent knows its own actor id is never answered by address later, because a
  resend is dropped as seen (`AgentLoop.PostedIffFirstSelected`).

## Model

| member | source | states |
|---|---|---|
| `Guarantees.LinkageOverRuns` | nas_bridge/app/session_service.py:2696-2798 | in every open session reached by any run in which each pause not followed by a reset meets no recovered job waiting for its claimed handoff, each in-progress task has exactly one unfinished job with its task id and current lease, and each claimed handoff exactly one unfinished job |
| `Guarantees.LinkedThroughoutIff` | nas_bridge/app/workflows/pause_workflow.py:26-51 | the links hold at every open moment of a run exactly when none of its pauses meets such a job |
| `Guarantees.PauseKeepsLinksIff` | nas_bridge/app/workflows/pause_workflow.py:26-51 | a pause keeps those links exactly when no pending job was started for a still claimed handoff |
| `Witnesses.PauseStrandsTask` | nas_bridge/app/workflows/pause_workflow.py:44-51 | a run from creation reaches an open, linked session in which a pause breaks the links |
| `Guarantees.HolderIffClaimed` | nas_bridge/app/session_service.py:2619-2648 | an unfinished job of an in-progress task carries the task's lease exactly while its own handoff is claimed; otherwise it is stale |
| `Guarantees.ParallelismOverRuns` | nas_bridge/app/session_service.py:1221-1292 | over every run an agent runs at most one job, non-curators run at most `max_parallel_agents`, and all together exceed that by at most the number of curators |
| `Guarantees.TasksOverRuns` | nas_bridge/app/session_service.py:3085-3101 | over every run in-progress tasks share no scope and no file, a lease is held exactly while in progress, a task has one live handoff at most, and every task, handoff and unfinished job carries the session's epoch |
| `Serving.ApartOverRuns` | nas_bridge/app/session_service.py:3085-3101 | over every run no two tasks in progress name a common file or the same semantic scope |
| `Overlaps.MayStartIff` | nas_bridge/app/session_service.py:3085-3101 | while the links hold, a task that is not in progress passes the check exactly when every unfinished job on it, or on a task that shares a scope or a file with it, no longer holds its own task |
| `Overlaps.StartSharesIff` | nas_bridge/app/session_service.py:2696-2758 | a started handoff then shares with exactly the running jobs on its task or on one that shares a scope or a file, and each of these has lost its own |
| `Overlaps.SharersLost` | nas_bridge/app/session_service.py:3085-3101 | over every run, of two running jobs that work on one task, or on tasks that share a scope or a file, one at least no longer holds its task |
| `Traces.TwoJobsShareTask` | nas_bridge/app/session_service.py:2598-2648 | a reachable session in which two running jobs work on one task, which was handed over again under the first |
| `Guarantees.EffectsAtMostOnce` | nas_bridge/app/session_service.py:1322-1456 | over every run at most one callback for a job takes effect, and none once the job is finished, also across recovery and resets |
| `Guarantees.FinishedByOwner` | nas_bridge/app/session_service.py:4056-4075 | any unfinished job, also one that waits after a recovery, becomes completed or failed only through a callback under its own agent that names no other lease, epoch or revision, and while it runs only through its own worker |
| `Guarantees.AppliedIff` | nas_bridge/app/session_service.py:4056-4075 | a callback for an unfinished job by its agent takes effect exactly when the job is pending or the worker is its own, and it names no other lease, epoch or revision |
| `Traces.RecoveredJobTakesAnyWorker` | nas_bridge/app/session_service.py:3563-3582 | a reachable session with a recovered, waiting job that the replaced worker and any other worker can finish |
| `Guarantees.EpochFence` | nas_bridge/app/session_service.py:804-873 | after a reset and anything else, no callback for a job that existed before changes any row |
| `Guarantees.RevisionsOverRuns` | nas_bridge/app/session_service.py:2619-2648 | over every run a task keeps its key and its revision never decreases |
| `Guarantees.HandoffIdempotentIff` | nas_bridge/app/session_service.py:2658-2682 | a handoff emitted again right away adds nothing and changes nothing exactly when it names its task by a canonical key |
| `Reemission.LiveReemissionIff` | nas_bridge/app/session_service.py:2658-2682 | in every reachable session, emitting a live handoff again adds nothing and changes nothing exactly when its task is assigned to the target or nobody and not at an end; otherwise the live handoff is superseded and the task handed over afresh |
| `Reemission.BodiedOverRuns` | nas_bridge/app/session_service.py:2570-2655 | over every run a live handoff carries its task's body and task keys are canonical |
| `Reemission.QueuedCarries` | nas_bridge/app/session_service.py:2570-2655 | a queued request's task and handoff carry its target, that agent's role, its body, scopes and source, under the next revision |
| `Traces.TakenHandoffIsHandedOver` | nas_bridge/app/session_service.py:2753-2760 | a reachable session in which emitting a claimed handoff again supersedes it, because another agent of the role took it |
| `Traces.WaitingHandoffIsHandedOver` | nas_bridge/app/session_service.py:2672-2673 | a reachable session in which a queued handoff is queued again, because a late completion has finished its task |
| `Guarantees.CompleteJobsFrame` | nas_bridge/app/session_service.py:1368-1440 | a completion finishes its own job, leaves every other existing job alone and adds only unstarted jobs |
| `Runs.RunKeepsInv` | nas_bridge/app/session_service.py:1194-1317 | the invariant holds after every run, and so do the links while the session is open and was never paused |
| `Runs.StepClosed` | nas_bridge/app/session_service.py:3806-3851 | only closing sets the closing time, and nothing clears it |
| `History.RunLater` | nas_bridge/app/session_service.py:4056-4075 | over every run finished jobs and ended handoffs are absorbing, jobs keep their lease and task, epochs and lease counter never go back |
| `Claiming.ClaimGrants` | nas_bridge/app/session_service.py:1194-1317 | a granted job is the claimer's running one: its first unfinished job, or if none the earliest admissible handoff, now linked to task and lease, or for a curator a sweep |
| `Claiming.ClaimGrantsIff` | nas_bridge/app/session_service.py:1221-1292 | when exactly an agent, curator or not, is granted work, also as the replacement of a lost worker |
| `Serving.ClaimServesIff` | nas_bridge/app/session_service.py:2696-2758 | a claim starts a job for a handoff exactly when the session serves, the agent has no unfinished job and room for one, and the handoff is the first queued one of this epoch that names the agent, or its role or name as the role it is for, and whose task shares nothing with a task in progress, and that task is ready |
| `Serving.NothingToServe` | nas_bridge/app/session_service.py:1221-1292 | an agent without an unfinished job, without such a handoff and without a sweep gets nothing, and no row of work changes |
| `Serving.UngrantedLeaves` | nas_bridge/app/session_service.py:1205-1317 | a claim that grants nothing changes only its agent's status: paused when the session is to pause, busy while the agent's job is run by its worker, otherwise idle; a curator whose sweep cannot be assembled changes nothing |
| `Assignments.AssignedOverRuns` | nas_bridge/app/session_service.py:2696-2798 | over every run each job started for a handoff is run by an agent the handoff is meant for, and while an unfinished job's handoff is claimed its task is assigned to the job's agent |
| `Starvation.StuckHoldsUp` | nas_bridge/app/session_service.py:2696-2735 | a queued handoff whose task is at an end, and clashes with no running task, lets no agent it is meant for start a handoff behind it |
| `Starvation.StaleCompletionSticks` | nas_bridge/app/session_service.py:3190-3247 | finishing a task that was handed over meanwhile, without handing it over again, leaves its new handoff queued that way |
| `Starvation.StuckEndsIff` | nas_bridge/app/session_service.py:2598-2648 | a step ends that exactly when it is a completion whose accepted handoffs name the task; then the handoff is superseded |
| `Starvation.StuckUntilHandedOver` | nas_bridge/app/session_service.py:804-887 | over every run, through claims, failures, recoveries and resets, it lasts exactly until the task is handed over again |
| `Traces.StaleCompletionStarves` | nas_bridge/app/session_service.py:3190-3247 | a reachable, open, never paused session in which an agent is given no handoff, before and after a reset, although it could start one that waits behind the stuck one |
| `Claiming.TaskMovesOnlySo` | nas_bridge/app/session_service.py:3190-3289 | a task row changes only by a reset, by a claim while ready and free of clashes, by a callback of a job started for it, or by an accepted handoff naming its key |
| `Closing.ClosedStaysShut` | nas_bridge/app/session_service.py:3806-3851 | after a close nothing runs and nothing is granted until a worker registers or a service sets the status |
| `Closing.RegisterReopens` | nas_bridge/app/session_service.py:968-1030 | a worker registering on a closed session makes it serve again |
| `Steps.ClaimKeeps` | nas_bridge/app/session_service.py:1194-1317 | a claim, with or without orphan recovery, keeps the invariant and the links |
| `Steps.CompleteKeeps` | nas_bridge/app/session_service.py:1322-1456 | a completion with all its handoffs, discussions and repairs keeps them |
| `Steps.FailKeeps` | nas_bridge/app/session_service.py:1458-1554 | a failure and the recovery job it queues keep them |
| `Steps.ResetKeeps` | nas_bridge/app/session_service.py:804-887 | a reset moves every row to the new epoch and keeps them |
| `Resets.ResetLeaves` | nas_bridge/app/session_service.py:804-873 | after a reset a handoff is queued exactly if it was live, with everything it says kept, ended ones stay ended, tasks that were under way or ready are ready and the others stay as they were |
| `Resets.ResetTakesUp` | nas_bridge/app/session_service.py:848-851 | while the links hold, each task in progress is ready after a reset under exactly one queued handoff, the one that was claimed |
| `Resets.ResetAwaits` | nas_bridge/app/session_service.py:848-851 | and every handoff that was live waits for each agent it is meant for |
| `Resets.ResetRestarts` | nas_bridge/app/session_service.py:853-874 | each agent has one unfinished job after a reset, a restart |
| `ControlBlocks.BlocksConserved` | nas_bridge/app/session_service.py:2349-2453 | every block becomes one accepted item or one rejection, and the accepted ones are the first acceptable ones in text order up to the limit |
| `ControlBlocks.AcceptedHandoffIsSound` | nas_bridge/app/session_service.py:2349-2387 | an accepted handoff goes to a known other agent, its body passes every check, its task id is the one the body names, and it stems from a block naming its target |
| `ControlBlocks.AcceptedHandoffNamesTask` | nas_bridge/app/session_service.py:2371-2385 | an accepted handoff always names its task by a canonical key |
| `ControlBlocks.HandoffAcceptedIff` | nas_bridge/app/session_service.py:2349-2387 | but for the limit a handoff block is accepted exactly when it calls an agent of the session other than its source and its body passes |
| `ControlBlocks.DiscussAcceptedIff` | nas_bridge/app/session_service.py:2391-2435 | when exactly a discuss block is accepted |
| `ControlBlocks.AcceptedDiscussionAsks` | nas_bridge/app/session_service.py:2409-2447 | an accepted opening asks exactly the other agents its block lists, and a reply goes to the agent it names |
| `ControlBlocks.FourOfEach` | nas_bridge/app/session_service.py:2349-2400 | the first four acceptable blocks of each kind are accepted, no more |
| `HandoffBody.ValidBodyNamesTask` | nas_bridge/app/session_service.py:3971-3988 | a body whose white-space-collapsed form holds a task id holds one itself, and that one is canonical |
| `HandoffBody.ValidBodyIff` | nas_bridge/app/session_service.py:3971-3981 | a body passes exactly when its collapsed text has 40 characters and a whole task id, and it names both files and announces a summary |
| `HandoffBody.FormatIsId` | nas_bridge/app/session_service.py:2684-2694 | a formatted key of up to three digits is itself found as a task id |
| `Claiming.CompletionDecidesTask` | nas_bridge/app/session_service.py:3190-3247 | a completion sets its job's task to done or blocked and bumps its revision whatever lease the task has by then, unless it hands the task over again |
| `Endings.HandedOnOverRuns` | nas_bridge/app/session_service.py:3190-3247 | in every reachable session a completion whose accepted handoffs name its own task leaves the task ready, held by nobody and with exactly one live handoff, to the target of the last of them; it is a new queued one with the task's revision exactly when one of them repeats no live handoff of the task, and otherwise task and handoffs are as they were |
| `Endings.CompletionConsumes` | nas_bridge/app/session_service.py:3190-3247 | a completion that does not hand its task on consumes its own handoff exactly if that is live |
| `Endings.FailureLeaves` | nas_bridge/app/session_service.py:3251-3289 | a failure fails its task under the next revision and its own handoff exactly if that is live, and leaves every other task and handoff alone |
| `Wakeups.CompletionWakes` | nas_bridge/app/session_service.py:3008-3060 | when a completion has queued a handoff or addressed somebody the curator has curation work, and when a block was refused the planner has planning work, each unless it is the source |
| `Wakeups.CompletionAddresses` | nas_bridge/app/session_service.py:3291-3388 | a completion queues a discussion job for exactly the agents its accepted discussions address |
| `Wakeups.FailureAsksPlanner` | nas_bridge/app/session_service.py:3418-3475 | after a failed handoff or verification by another agent than the planner the planner has a recovery job, and after other failures no job is added |
| `Wakeups.AskedOnce` | nas_bridge/app/session_service.py:3496-3547 | neither curator nor planner gets a job while it has such work or about what it did itself |
| `Wakeups.CuratorAppointed` | nas_bridge/app/session_service.py:3865-3888 | the curator is the first agent so named or else so described, is exempt from the cap, and without one nobody is |
| `Wakeups.PlannerAppointed` | nas_bridge/app/session_service.py:3854-3863 | the planner is the first agent so named or else so described |
| `TaskKeys.NumberOfFormat` | pc_launcher/artifact_workspace.py:1795-1803 | reading the number of a task id inverts the zero-padded format for every number |
| `TaskKeys.AllocateIsFresh` | nas_bridge/app/session_service.py:2684-2694 | an allocated key is none of those present and numbered above all of them |
| `SessionStore.Store.ClaimNextJob` | nas_bridge/app/session_service.py:1194-1317 | the method leaves the rows the claim transaction specifies and returns its answer |
| `SessionStore.Store.ClaimHandoff` | nas_bridge/app/session_service.py:2696-2798 | starting a handoff creates the job, marks the task and the handoff, and issues one lease |
| `SessionStore.Store.FindReadyHandoff` | nas_bridge/app/session_service.py:2696-2758 | the scan finds the handoff the specification picks, or none |
| `SessionStore.Store.CanSelfClaim` | nas_bridge/app/session_service.py:3085-3101 | the loop answers whether no other in-progress task shares a scope or a file |
| `SessionStore.Store.CompleteJob` | nas_bridge/app/session_service.py:1322-1456 | the method leaves the rows the completion transaction specifies |
| `SessionStore.Store.FailJob` | nas_bridge/app/session_service.py:1458-1554 | the method leaves the rows the failure transaction specifies |
| `SessionStore.Store.Admit` | nas_bridge/app/session_service.py:3171-3188 | which callbacks are refused, ignored or applied |
| `SessionStore.Store.QueueHandoffs` | nas_bridge/app/session_service.py:2455-2546 | accepted handoffs are filed in order and the curator is woken if any was queued |
| `SessionStore.Store.QueueHandoff` | nas_bridge/app/session_service.py:2570-2682 | a new task, a task handed over again with its live handoffs superseded, or nothing for a duplicate |
| `SessionStore.Store.ExtractHandoffs` | nas_bridge/app/session_service.py:2336-2453 | the loop collects what the specification accepts and rejects |
| `SessionStore.Store.QueueDiscussions` | nas_bridge/app/session_service.py:3291-3388 | one discussion job for each addressee, and a curator event if there was one |
| `SessionStore.Store.QueueRepair` | nas_bridge/app/session_service.py:3496-3547 | a repair job for the planner unless it has planning work open |
| `SessionStore.Store.QueueRecovery` | nas_bridge/app/session_service.py:3418-3475 | a recovery job for the planner after a failed handoff or verification |
| `SessionStore.Store.SyncCompleted` | nas_bridge/app/session_service.py:3190-3247 | the task's new state, revision and lease after a completion, and its handoff consumed if still live |
| `SessionStore.Store.SyncFailed` | nas_bridge/app/session_service.py:3251-3289 | the same after a failure |
| `SessionStore.Store.Reset` | nas_bridge/app/session_service.py:804-887 | new epoch, jobs cancelled, tasks and handoffs released, one restart job per agent |
| `SessionStore.Store.Close` | nas_bridge/app/session_service.py:3806-3851 | agents offline and unfinished jobs cancelled; tasks and handoffs as they were |
| `SessionStore.Store.Pause` | nas_bridge/app/workflows/pause_workflow.py:26-51 | pending jobs cancelled, idle agents paused |
| `SessionStore.Store.RegisterWorker` | nas_bridge/app/session_service.py:968-1030 | the agent's worker and status, and the session's startup status |
| `SessionStore.Store.Heartbeat` | nas_bridge/app/session_service.py:1032-1121 | the same for a heartbeat |
| `SessionStore.Store.RefreshStartup` | nas_bridge/app/session_service.py:3904-3950 | the startup status from attachments and open jobs |
| `SessionStore.Store.RouteMessage` | nas_bridge/app/session_service.py:889-965 | a job for the chosen agent unless the session is closed or paused |
| `SessionStore.Store.EnqueueRestart` | nas_bridge/app/session_service.py:747-802 | a restart job for a known agent |
| `Attendance.RegisterAttaches` | nas_bridge/app/session_service.py:968-1030 | a registered worker is attached, its agent idle or paused, and the status shows which agents are present and whether jobs are open |
| `Attendance.HeartbeatReports` | nas_bridge/app/session_service.py:1032-1121 | a heartbeat attaches its worker and sets the agent's status, with the same session status |
| `Attendance.MessagePosted` | nas_bridge/app/session_service.py:889-965 | when exactly a message becomes a job, and which |
| `Attendance.RestartPosted` | nas_bridge/app/session_service.py:747-802 | when exactly a restart is queued, and which |
| `Attendance.PauseLeaves` | nas_bridge/app/workflows/pause_workflow.py:26-51 | what a pause cancels, leaves and pauses, and that nothing is handed out after it |
| `Attendance.CloseLeaves` | nas_bridge/app/session_service.py:3806-3851 | what a close cancels and leaves, and that nothing is handed out after it |
| `Attendance.FinishFrees` | nas_bridge/app/session_service.py:1368-1400 | a completion or failure frees its agent and no other |
| `Settling.SweepsReachFinal` | pc_launcher/artifact_workspace.py:1625-1655 | on an acyclic board as many rounds as the longest chain has links reach the bottom-up result, which a further round leaves alone |
| `Settling.OrderIndependent` | pc_launcher/artifact_workspace.py:1633-1652 | the result is the same for every order of visiting the parents |
| `Settling.FixpointUnique` | pc_launcher/artifact_workspace.py:1625-1655 | of the boards that keep the leaf cards exactly the bottom-up result is unchanged by every visit |
| `Rests.RestsIff` | pc_launcher/artifact_workspace.py:1631-1653 | on any listed board and in any visiting order the loop ends exactly when on each ring the cards that feed it, read before they are visited or without children, have the same highest rank in every round; and then after at most two rounds more than there are cards |
| `Rests.RanksComeBack` | pc_launcher/artifact_workspace.py:1631-1653 | whether or not it ends, the rank of a card on a ring comes back after as many rounds as the ring has cards read before they are visited |
| `Rests.RanksRestIff` | pc_launcher/artifact_workspace.py:1631-1653 | the ranks stop changing under the same condition, and then after at most one round more than there are cards |
| `Rests.SmallRingsAgree` | pc_launcher/artifact_workspace.py:1631-1653 | a board whose rings have one or two cards always comes to rest |
| `Arrivals.RankIsTop` | pc_launcher/artifact_workspace.py:1633-1652 | after any number of rounds a card has the highest rank among those that have reached it by then, each delayed by the links read before they are overwritten |
| `Schedules.AcyclicSettles` | pc_launcher/artifact_workspace.py:1625-1655 | without cycles the loop ends, with the bottom-up result |
| `Schedules.RolledSettles` | pc_launcher/artifact_workspace.py:1625-1655 | a board the loop has left is at rest |
| `TaskBoard.LoopEndsAcyclic` | pc_launcher/artifact_workspace.py:1631-1653 | without cycles no more rounds change something than the longest chain has links |
| `TaskBoard.Workspace.Reconcile` | pc_launcher/artifact_workspace.py:1625-1655 | on every board on which it ends, the loop visits the parents in sorted order and ends, at the first round that changes nothing, with the board those rounds give; the returned ids are exactly the cards some round changed |
| `TaskBoard.Workspace.Round` | pc_launcher/artifact_workspace.py:1633-1652 | one round visits every parent once, in place, and reports exactly the cards a visit changed |
| `TaskBoard.Workspace.RollUpInto` | pc_launcher/artifact_workspace.py:1641-1649 | a visit changes at most the parent's status and notes, and reports whether it did |
| `TaskBoard.Workspace.ChildrenByParent` | pc_launcher/artifact_workspace.py:1626-1629 | each parent with its children in index order, and nothing else |
| `ClosedForm.RollUpHighest` | pc_launcher/artifact_workspace.py:1657-1682 | one roll-up shows the highest rank among the children: blocked, active, failed, done |
| `TaskBoard.RolledParentStatus` | pc_launcher/artifact_workspace.py:1657-1682 | after reconciliation, on every board on which it ends, a parent shows a status exactly when that is the highest rank among the first statuses of the leaf cards below it and, if it is on a ring, of the cards that lead to it and are read before they are visited |
| `TaskBoard.ForestParentStatus` | pc_launcher/artifact_workspace.py:1657-1682 | on a board without cycles that is the highest rank among its leaf descendants |
| `TaskBoard.RolledDoneBelow` | pc_launcher/artifact_workspace.py:1676-1681 | after reconciliation, on every board on which it ends, a done card has only done descendants |
| `ClosedForm.LeavesDecide` | pc_launcher/artifact_workspace.py:1657-1682 | the result depends on the leaf cards alone, not on what parents held before |
| `TaskBoard.FinishingParentIsMoot` | pc_launcher/artifact_workspace.py:1561-1593 | on a board without cycles, finishing a run of a task that has children, whatever it asks, hands on or reports, changes no status and no note of the reconciled board |
| `Records.FinishedShows` | pc_launcher/artifact_workspace.py:1561-1593 | on the reconciled board a finished leaf card is blocked with the question exactly if the run asked, waits exactly if it did not ask and handed on, and is done exactly otherwise; the other leaves show what they did |
| `Records.FinishedParents` | pc_launcher/artifact_workspace.py:1561-1593 | and each parent shows the highest rank of its leaves with that one weighed as blocked, active or done |
| `Records.ClaimedShows` | pc_launcher/artifact_workspace.py:1534-1559 | a claimed leaf card is in progress for its agent, and the other leaves show what they did |
| `Records.ClaimedParents` | pc_launcher/artifact_workspace.py:1534-1559 | and each parent weighs it as active |
| `Records.FailedShows` | pc_launcher/artifact_workspace.py:1595-1623 | a failed leaf card has failed with the summary, and the other leaves show what they did |
| `Records.FailedParents` | pc_launcher/artifact_workspace.py:1595-1623 | and each parent weighs it as failed |
| `Records.FiledShows` | pc_launcher/artifact_workspace.py:1484-1532 | each leaf card a handoff was filed under is ready for the target of the last such handoff, and the others show what they did |
| `Records.FiledParents` | pc_launcher/artifact_workspace.py:1484-1532 | and each parent weighs the filed ones as active |
| `Records.ParentNotes` | pc_launcher/artifact_workspace.py:1657-1682 | on every board on which the loop ends a parent's notes name exactly its children that rank as it does |
| `Cycles.PureRingAgreesIff` | pc_launcher/artifact_workspace.py:1631-1653 | a ring of any length without side branches, visited in any order, meets that condition exactly when the cards read before they are visited rank alike |
| `Cycles.ThreeRingSettlesIff` | pc_launcher/artifact_workspace.py:1631-1653 | the rounds over three cards in a ring come to rest exactly then |
| `Sorting.LessIff` | pc_launcher/artifact_workspace.py:1633-1633 | the order of the visits is that of the first difference between two ids |
| `Cycles.BackHandoffWithQuestionSettlesIff` | pc_launcher/artifact_workspace.py:1484-1593 | a run of c in the chain a, b, c that hands back to a leaves a board that still settles; after it also asks a question the loop ends exactly when the ids do not sort as a, b, c nor as b, c, a |
| `TaskBoard.SelfHandoffSettles` | pc_launcher/artifact_workspace.py:1519-1519 | a run that hands its own root task over again makes the card depend on itself, and the loop still ends |
| `TaskEdits.FileKeepsAcyclicIff` | pc_launcher/artifact_workspace.py:1497-1525 | filing one handoff keeps the board acyclic exactly when the current task does not already depend on the card it newly links |
| `TaskEdits.FileAllKeepsAcyclicIff` | pc_launcher/artifact_workspace.py:1495-1525 | the same for all handoffs of a run, judged on the board before the run |
| `BoardRuns.NeverCyclicIff` | pc_launcher/artifact_workspace.py:1484-1623 | over any sequence of claims, recorded results, failures and filed handoffs, each followed by reconciling, a board without cycles never gets one exactly when each handoff is safe on the board it is filed on, and then every reconciling loop ends |
| `TaskEdits.MissingClosesNoCycle` | pc_launcher/artifact_workspace.py:1627-1629 | dependencies on missing cards close no cycle |
| `TaskEdits.AllocatedIdsAreNew` | pc_launcher/artifact_workspace.py:1495-1525 | an allocated id was not on the board and differs from all ids handed out before it in the same loop |
| `TaskEdits.AllocatedIdIsSafe` | pc_launcher/artifact_workspace.py:1497-1519 | without dangling dependencies an allocated id never closes a cycle |
| `TaskBoard.Workspace.Materialize` | pc_launcher/artifact_workspace.py:1484-1532 | the loop files the handoffs in order, returns their ids, and reconciles, on every board on which reconciling ends |
| `TaskBoard.Workspace.Claim` | pc_launcher/artifact_workspace.py:1534-1559 | a claimed card, made if missing, and the reconciled board |
| `TaskBoard.Workspace.Finalize` | pc_launcher/artifact_workspace.py:1561-1593 | the card of a finished run, and the reconciled board |
| `TaskBoard.Workspace.MarkFailed` | pc_launcher/artifact_workspace.py:1595-1623 | the card of a failed run, made if missing, and the reconciled board |
| `ThreadDelta.GetThreadDelta` | nas_bridge/app/session_service.py:1123-1192 | the scan loop with its early exit gives what a poll is specified to give |
| `ThreadDelta.PollIsExact` | nas_bridge/app/session_service.py:1165-1189 | a poll returns exactly the matching rows between its cursor and the one it gives back, once and in order |
| `ThreadDelta.PollFilters` | nas_bridge/app/session_service.py:1165-1178 | of the unread rows up to the new cursor a poll returns exactly those of the kinds and the task asked for |
| `ThreadDelta.PollFills` | nas_bridge/app/session_service.py:1183-1189 | a poll returns no more events than its limit, and fewer only after scanning all it could reach |
| `ThreadDelta.WholeWindow` | nas_bridge/app/session_service.py:1143-1162 | with room for them all a poll gets the next 120 rows less those its cursor's time repeats, and a new reader the last 120 |
| `ThreadDelta.ProgressIff` | nas_bridge/app/session_service.py:1153-1162 | with rows left to read the cursor moves exactly when fewer than 120 rows share its timestamp at or before it |
| `ThreadDelta.PagingIsExact` | nas_bridge/app/session_service.py:1123-1192 | over any number of polls of a growing log the reader gets every matching row between the first and the last cursor exactly once and in order |
| `ThreadDelta.PagingFromWindowIsExact` | nas_bridge/app/session_service.py:1143-1152 | the same for a reader without a usable cursor, from the start of its first window |
| `ThreadDelta.PagingCatchesUp` | nas_bridge/app/session_service.py:1165-1192 | as many polls as there are unread rows leave nothing unread, whatever the limit and whatever cursor the reader starts with |
| `Lines.LinesAppend` | clients/ts-agent-loop/src/http.ts:90-98 | cutting the text anywhere and carrying the rest over gives the same lines and the same rest |
| `Lines.LinesRebuild` | clients/ts-agent-loop/src/http.ts:96-98 | the lines and the rest make up the text and hold no newline |
| `Sse.StreamSSE` | clients/ts-agent-loop/src/http.ts:86-119 | the frames depend only on the text the chunks make up, and the buffer holds no newline between reads |
| `Sse.ParseSseStream` | pc_launcher/bridge_client.py:18-67 | the generator's loop yields the frames of the line fold, with the unterminated last one |
| `Sse.IterSse` | pc_launcher/bridge_client.py:1187-1210 | the same for the second Python reader |
| `SseAgreement.ReadersAgree` | pc_launcher/bridge_client.py:30-67 | frames printed and read back in any pieces give the same names and data in all three readers |
| `SseAgreement.UnterminatedLastFrame` | pc_launcher/bridge_client.py:57-67 | the last frame without its blank line is kept by both Python readers and dropped by streamSSE |
| `SseAgreement.UnnamedFrame` | pc_launcher/bridge_client.py:30-56 | a frame without a name is dropped by streamSSE and called message by both Python readers |
| `SseAgreement.DatalessFrame` | pc_launcher/bridge_client.py:30-56 | a frame without data is kept by parse_sse_stream alone |
| `SseAgreement.IndentedData` | clients/ts-agent-loop/src/http.ts:99-117 | of leading blanks of data parse_sse_stream drops all and the others one |
| `SseAgreement.CommentsIgnored` | clients/ts-agent-loop/src/http.ts:99-117 | comment lines change nothing in any reader |
| `ReplyPrefix.PrefixRoundTrip` | clients/ts-agent-loop/src/agent.ts:140-177 | rendering an allowed kind, an invitation or none, and a body, and parsing it gives them back when the bracket fits the limit |
| `ReplyPrefix.TailRoundTrip` | clients/ts-agent-loop/src/agent.ts:179-198 | distinct handles and any kinds are read back from the invitation's text |
| `ReplyPrefix.ParseInviteTail` | clients/ts-agent-loop/src/agent.ts:179-198 | the collecting loop gives the handles, each once, and the kinds |
| `ReplyPrefix.RejectedIsWhole` | clients/ts-agent-loop/src/agent.ts:140-177 | a text without an allowed prefix is its own trimmed body and invites nobody |
| `ReplyPrefix.AcceptedIsProper` | clients/ts-agent-loop/src/agent.ts:140-177 | whatever the text, an accepted kind is allowed and an invitation names somebody, each once |
| `ReplyPrefix.BracketIff` | clients/ts-agent-loop/src/agent.ts:140-150 | a trimmed text has a prefix bracket exactly when it starts with one that closes within 200 characters |
| `ReplyPrefix.ThreeSeparators` | clients/ts-agent-loop/src/agent.ts:150-177 | both arrows and the bare sign before the first handle say the same |
| `ReplyPrefix.MarkedHandle` | clients/ts-agent-loop/src/agent.ts:186-198 | a comma or semicolon behind a handle is not part of it |
| `ReplyPrefix.NonEmptyAre` | clients/ts-agent-loop/src/agent.ts:182-186 | empty pieces are no kinds |
| `AgentLoop.AtMostOnePost` | clients/ts-agent-loop/src/index.ts:61-99 | over any frames, resends and reconnections at most one post replies to an event |
| `AgentLoop.PostedIffFirstSelected` | clients/ts-agent-loop/src/agent.ts:42-61 | an event is replied to exactly when the routing selects its first delivery with the actor id known by then |
| `Replies.AnsweredIffAsked` | clients/ts-agent-loop/src/agent.ts:42-98 | an event is answered exactly when its first delivery is a question by somebody else that names the agent's handle as a responder, or without responders addresses its known actor id |
| `Replies.ActorIsLastAnnounced` | clients/ts-agent-loop/src/index.ts:71-79 | the actor id is the last one an open frame announced |
| `Replies.ReplyIsAnswer` | clients/ts-agent-loop/src/agent.ts:78-110 | the reply is an answer to the event that repeats the question's first 200 characters whole |
| `AgentLoop.SeenIffDelivered` | clients/ts-agent-loop/src/agent.ts:57-61 | the seen set holds exactly the delivered events |
| `AgentLoop.Agent.ConsumeSSE` | clients/ts-agent-loop/src/index.ts:61-99 | over all connections the agent's state is that of hearing their frames one after the other |
| `AgentLoop.Agent.Dispatch` | clients/ts-agent-loop/src/index.ts:71-97 | what one frame changes |
| `AgentLoop.Agent.MarkSeen` | clients/ts-agent-loop/src/agent.ts:57-61 | an event is new once |

## Left out

- SessionStore.Store.RouteMessage: the choice of the agent and job kind from the message text is an argument.
- SessionStore.Store.ClaimSweep: the sweep's thresholds and prompt are one argument, which also covers the attempt to unpack a missing result (line 2810), modelled as an aborted transaction.
- SessionStore.Store.RefreshStartup: heartbeat ages are an argument, the set of agents heard from recently.
- SessionStore.Store.Pause: the resume, start and recovery services are one step that may set statuses, desired statuses and worker attachments and touches no job, task or handoff.
- SessionStore.Store.ExtractHandoffs: the regular expressions that find the blocks in the output are not modelled; a block is given by its agent and its stripped body, with the semantic and file scopes its lines name.
- HandoffBody.ValidBodyNamesTask: word characters and digits of the task id pattern are the ASCII ones.
- SessionStore.Store.QueueHandoff: the body is compared and stored as given; normalising its payload text is not modelled.
- Endings.HandedOnOverRuns: an agent whose name is empty is excluded; its claims leave the task assigned to nobody, so it could repeat and then consume its own handoff.
- Guarantees.LinkageOverRuns: presence calls around a transaction are taken to change no row; a call that fails before its commit is a step that changes nothing.
- TaskBoard.Workspace.Reconcile: timestamps and writing files are left out; on a board on which the loop goes on for ever there is no result to state.
- TaskBoard.Workspace.Materialize: like Claim, Finalize and MarkFailed it is called only where the loop ends on the edited board (`Rests.RestsIff`); the source goes on for ever elsewhere. Titles, definitions of done and file names are not modelled, and a body is given already normalised.
- TaskKeys.AllocateIsFresh: digits are ASCII digits.
- Settling.FixpointUnique: statuses outside the eight listed ones are excluded, since a roll-up may then keep the parent's own status.
- ThreadDelta.GetThreadDelta: a cursor is its decoded timestamp and id; the ISO text form, and classifying a row's kind and task from its content, are not modelled.
- Sse.StreamSSE: UTF-8 decoding and the HTTP exchange are not modelled; chunks are decoded text.
- Sse.ParseSseStream: it reads lines; how the HTTP library splits them, and decoding the data as JSON, are not modelled.
- Sse.IterSse: data stays undecoded, so an error from malformed JSON is not modelled.
- ReplyPrefix.PrefixRoundTrip: letters fold case as ASCII does.
- AgentLoop.Agent.ConsumeSSE: how frame data decodes is an argument; envelopes of the wrong shape, the waiting time between connections and the outcome of a post are not modelled.
- Discord output, transcripts, prompts, project finding, drift monitoring, verification runs, token scopes and process supervision: they read or write nothing the results speak of, or would add only easy members.
- Quieting Discord text and parsing the command-line output into blocks: text shaping, not modelled.
