# SteerLane: a verified model of its coordination core

SteerLane runs coding agents against a kanban board. Its core is a handful of state machines that
share rows: tasks, agent sessions, human-in-the-loop (HITL) questions, and the claims under which
timeout notices are sent. Concurrent handlers and background sweeps drive them. This project models
that core and proves what its runs keep; where a promise of the code holds only under a condition,
the condition is stated as an if-and-only-if, with a run that breaks the promise without it.

Two views are used side by side. Code that runs from start to end is a class or method with the
branches of the source and a flag for every call that can fail (`fault`, or a record of faults).
Code that is interleaved with other code is a state machine: a state, an event for each repository
call, a deterministic `Step`, and a `Behaviour`, the sequence of states of one run. Results about
interleaving hold for every behaviour, of any length, with any number of participants. A call whose
reply is lost can still have taken effect where that matters (`LostReply`).

| module | what it covers |
|---|---|
| `Domain` | ids, the session and the task transition tables, the two entities |
| `Questions` | the question table and the guarded statements on it |
| `Lease` | the timeout-notification lease with any number of notifiers |
| `Timeouts` | the two-tier timeout, one sweeper against everything else |
| `Worklist` | the ordered, limited lists of the sweeps |
| `TimeoutSweep` | one tick of the sweep from start to end |
| `TimeoutTicks`, `PlainTick` | what a tick brings about, and the same in one piece |
| `SweepBacklog` | what repeated ticks make of a backlog |
| `OpenQuestion` | ask_human, and how many questions of a session can be open |
| `AnswerSaga` | recording and delivering an answer, over HTTP and from Slack |
| `Postgres` | the store as a class |
| `Orchestrator` | the orchestrator as a class: dispatch, cancel, complete, stall, answer, shutdown |
| `StallSweep`, `RetrySweep` | one round of the stall detector and of the retry scheduler |
| `Backends` | what becomes of backends while dispatches, handlers and a shutdown interleave |
| `Ownership` | who owns a task while dispatches and handlers interleave |
| `Retry` | backoff delays and retry chains |
| `Adr`, `AdrPages` | numbering of decision records, and paging through them meanwhile |
| `Keyset`, `TaskPages` | keyset pagination and the task list |
| `Hub` | subscriptions and fan-out of the WebSocket hub |
| `RateLimit` | the fixed-window rate limiter |
| `Workspace` | workspace path normalisation and resolution |
| `Runs` | runs of a state machine, shared by the modules with one |

## Names and conventions

- Question statuses: `Open` is `pending` and `Withdrawn` is `cancelled`; the others keep their names.
- Times are whole seconds, in `Retry` and `RateLimit` nanoseconds. Ids are natural numbers that are
  never reused; there is one tenant.
- A repository call is one atomic step, as its contract says (internal/domain/task/repository.go:24-25),
  and a call that fails outside the lost-reply events has no effect.
- Sessions are stored under the id the orchestrator chose (internal/domain/agent/repository.go:11-19).
- Where code and schema disagree the code is followed: the CHECK on `hitl_questions.status` in
  migrations/000005_agent_runtime.up.sql does not list `escalated`, which the statements write.

## What holds only under a condition

- The notification lease excludes a second notifier exactly if the claim lives as long as the three
  calls made under it, `3 * call <= ttl` (`Lease.ExclusiveIffTtlCoversCalls`). 15 s and 5 min do.
- A session has one open question in all runs exactly if none of them takes a crossing: an answer that
  resumes the session while the ask_human call that posed its question is under way and another
  question of the session is posed (`OpenQuestion.OneOpenIffNeverCrosses`).
- Backends are conserved in all runs exactly if no dispatch registers its session during a shutdown,
  which works on a copy of the map and clears the map in the end (`Backends.ConservedIffNeverLate`).
- A tick of which no list is cut off leaves exactly those timed-out questions on live sessions that
  were stuck on sessions that never ran, since `pending -> cancelled` is not a transition
  (`TimeoutTicks.LeftOverIsStuck`). Fifty of them ahead of a question fill the last list of every tick
  and starve it; with fewer it is served (`SweepBacklog.EndedIffFewBlockers`).
- An owned task stays in progress under one owner, for whom alone it is moved, in all runs exactly if
  no two handlers of a session get past their update of its row, none does once the session is gone,
  and nobody cancels an untracked session whose task is owned (`Ownership.KeptIffNeverClashes`).
- A user dispatch leads to at most `maxAttempts` further registered sessions exactly if
  `maxAttempts <= 100`: the stored count is clamped at 100 and then stands still
  (`Retry.ChainsBoundedIffCountable`). The default is 3.
- Retry delays lie between base and maximum exactly while `base * 2^(attempt-1)` fits a duration, or
  the platform's float-to-integer conversion yields at least the base (`Retry.DelaysInRangeIff`).
- ADR numbers are gap-free exactly if serializable isolation or the unique key refuses a stale
  commit. The project lock does not matter for that: the snapshot can be older than the lock
  (`Adr.NumberedIffGuarded`).
- Following `next_cursor` yields the whole task list exactly if the limit is between 1 and 200 or the
  page served instead holds every row (`TaskPages.CompleteIff`). The API admits 1 to 100.
- While the table changes between pages, a row that stays is met exactly once exactly if cursor rows
  that are edited leap over it and fall back before it equally often (`TaskPages.MetOnceIff`).
- A workspace path is accepted exactly if it is not absolute and no prefix of it leads out of where
  it starts (`Workspace.AcceptedIffItStaysInside`).

## Model

| member | source | states |
|---|---|---|
| Domain.SessionEntity.Transition | internal/domain/agent/entity.go:106-120 | a transition is all or nothing by the table; the session has a start time iff it ever ran and an end time iff it is terminal, and neither is ever overwritten |
| Domain.TaskEntity.Transition | internal/domain/task/entity.go:88-95 | a task changes status exactly along the table, and a refused transition changes nothing |
| Questions.ExecTouchesOneRow | internal/store/postgres/sqlc/hitl_questions.sql.go:15-18 | statements that name a row leave every other row as it was |
| Questions.RunKeepsRowInvariant | internal/store/postgres/sqlc/hitl_questions.sql.go:15-18 | over every sequence of statements: answered iff answer, answerer and time are set; a claim implies timeout and not notified; notified implies timeout |
| Questions.FinalStatuses | internal/store/postgres/sqlc/hitl_questions.sql.go:56-59 | cancelled is final, timeout is left only by reopening, and notified_at then stays |
| Questions.StatusMovesAlongEdges | internal/store/postgres/sqlc/hitl_questions.sql.go:193-197 | a status changes only along an edge of the lifecycle, and a deadline only by escalating a pending question |
| Questions.EdgesAreTaken | internal/store/postgres/sqlc/hitl_questions.sql.go:586-589 | and every edge is taken: a statement that names the row, or withdraws for its session, moves its status as the lifecycle says; reopening clears the claim and the notice |
| Lease.MutualExclusion | cmd/steerlane/main.go:591-646 | at most one notifier is between a successful claim and its mark, clear or end, in every interleaving of any number of them |
| Lease.AtMostOnceUpToLostMarks | cmd/steerlane/main.go:614-645 | a question's notice is delivered at most once more often than marking it sent has failed |
| Lease.LostMarksRepeat | cmd/steerlane/main.go:636-645 | that bound is tight: for every n there is a run with n failed marks and n + 1 deliveries, and the first mark that succeeds ends it |
| Lease.DeadHolderIsSucceeded | internal/store/postgres/sqlc/hitl_questions.sql.go:72-80 | when a notifier dies with a claim, another can claim as soon as the claim is stale |
| Lease.FailedNoticeIsFree | cmd/steerlane/main.go:614-633 | a notice that failed gives its claim back: another notifier can claim at the same instant |
| Lease.SentStays | internal/store/postgres/sqlc/hitl_questions.sql.go:551-555 | a notified question stays timed out and notified, unless it is deleted |
| Lease.NoClaimAfterSent | internal/store/postgres/sqlc/hitl_questions.sql.go:72-80 | once notified_at is set no claim succeeds again |
| Lease.NoClaimWhileHeld | internal/store/postgres/hitl_repo.go:143-169 | a claim cannot succeed on a question somebody else holds in time |
| Lease.SlowNotifierIsOvertaken | internal/store/postgres/hitl_repo.go:20 | with a lifetime shorter than three calls there is a run with two holders |
| Lease.ExclusiveIffTtlCoversCalls | internal/store/postgres/hitl_repo.go:20 | exclusion in all runs iff the lifetime covers the three calls; it does as deployed |
| Timeouts.NoEarlyTimeout | cmd/steerlane/main.go:457-577 | no question times out before it was asked, plus 30 minutes, plus the extension, whatever races the sweep |
| Timeouts.TimesOutInTime | cmd/steerlane/main.go:409-577 | that bound is tight, for every configured extension: there is a run that times out at that very moment |
| Timeouts.AnsweredInTime | internal/store/postgres/sqlc/hitl_questions.sql.go:15-18 | a question can still be answered between the two tiers |
| Timeouts.TimeoutNeverDecreases | internal/store/postgres/sqlc/hitl_questions.sql.go:193-197 | no step moves a deadline back |
| Timeouts.EscalatedSurvivesItsTick | cmd/steerlane/main.go:425-429 | a question escalated in a tick is not timed out in the same tick |
| Worklist.Take | internal/store/postgres/sqlc/hitl_questions.sql.go:359-364 | ORDER BY and LIMIT: matching rows by deadline, creation time and id, as many as the limit allows, everything left out behind them |
| Worklist.SoonestFirst | internal/store/postgres/sqlc/hitl_questions.sql.go:359-364 | in a list the time never goes back, NULLs are last, rows of one time come oldest first, and what a full list leaves out is behind all of it |
| Worklist.FewPrecede | internal/store/postgres/sqlc/hitl_questions.sql.go:457-459 | whatever precedes a listed row is listed, so fewer rows precede it than fit the list |
| TimeoutSweep.TryNotify | cmd/steerlane/main.go:591-646 | claim, notify, mark or clear: how the row ends for every pattern of failures |
| TimeoutSweep.SweepExpired | cmd/steerlane/main.go:457-505 | tier 1: the first open questions that ran out are listed, exactly those are escalated with the extension as their new deadline, and nothing else changes |
| TimeoutSweep.MarkAll | cmd/steerlane/main.go:534-549 | the questions of one session time out, those whose update fails are left out, and no other row changes |
| TimeoutSweep.GroupBySession | cmd/steerlane/main.go:523-529 | the listed questions are partitioned by their session |
| TimeoutSweep.Cancel | cmd/steerlane/main.go:553-564 | a session that ever ran is cancelled with what it had open withdrawn and its task given back; one that never ran is left as it was |
| TimeoutSweep.EndAndNotify | cmd/steerlane/main.go:551-577 | the same, and the owed notices of the listed questions out; all rows are given, sessions and tasks included |
| TimeoutSweep.TimeOutSession | cmd/steerlane/main.go:531-577 | one session's due questions time out, and then that; all rows are given |
| TimeoutSweep.SweepEscalated | cmd/steerlane/main.go:510-577 | tier 2, session by session, comes to one function of the rows and the list: listed questions time out, their sessions that ever ran end, owed notices go out, other open questions of those sessions are withdrawn, tasks go back |
| TimeoutSweep.EndTwice | cmd/steerlane/main.go:531-577 | ending some sessions and then others is ending all of them, in either tier |
| TimeoutSweep.RetryTimedOutNotifications | cmd/steerlane/main.go:579-589 | exactly the listed owed notices of ended sessions go out |
| TimeoutSweep.FinalizeTimedOut | cmd/steerlane/main.go:432-448 | question by question, the last list comes to the same function: a session met twice is ended once |
| TimeoutSweep.Tick | cmd/steerlane/main.go:409-452 | the tick is a function of the rows and its four lists, each read when its turn comes |
| TimeoutTicks.TickAdvances | cmd/steerlane/main.go:409-452 | whatever the lists hold, rows change only by extension, timeout, notice, or withdrawal with a cancelled session, sessions only by cancellation, and tasks go back exactly with the cancelled ones |
| TimeoutTicks.UncutIffFew | cmd/steerlane/main.go:409-452 | no list is cut off iff each would hold fewer than 50 rows, all four told from the rows the tick began with |
| TimeoutTicks.TickConverges | cmd/steerlane/main.go:409-452 | then what ran out has its extension, nothing is overdue and all notices are out |
| TimeoutTicks.LeftOverIsStuck | cmd/steerlane/main.go:425-450 | and what is left over is exactly what was stuck on sessions that never ran |
| PlainTick.UncutTickIs | cmd/steerlane/main.go:409-452 | with fewer than 50 rows on each list the tick, lists and loops and all, is one function of statuses and times: what it makes of every question, session and task |
| PlainTick.NothingPastDue | internal/store/postgres/sqlc/hitl_questions.sql.go:311-315 | after it no escalated question that ran out is on a pending, running or waiting session, no open one that ran out on a session but a completed or failed one, and every escalated one that was has timed out |
| SweepBacklog.StarvedForEver | cmd/steerlane/main.go:432-448 | a session with 50 stuck questions ahead of each of its own is never ended, however many ticks go by |
| SweepBacklog.EndedInTime | cmd/steerlane/main.go:432-448 | with fewer than 50, stuck or to be stuck, it is ended within one tick more than there are questions queued ahead |
| SweepBacklog.EndedIffFewBlockers | cmd/steerlane/main.go:432-448 | a left-over session is ended by ticks iff fewer than 50 stuck questions are ahead of its first question |
| OpenQuestion.HandleAskHuman | internal/hitlrouter/router.go:87-176 | the question is open and its session waits, or, cleanup permitting, nothing has happened |
| OpenQuestion.InvKeptIff | internal/hitlrouter/router.go:204-235 | of all steps exactly the crossings break the invariant: an answer that resumes a session while its question is still being asked and another one is posed |
| OpenQuestion.WaysOfAnAnswer | internal/hitlrouter/router.go:204-235 | while its session waits an open question takes an answer, in one of three ways: the session runs on; it is cancelled and whatever else it has open is withdrawn; nothing has happened |
| OpenQuestion.WaysOfAnEnding | internal/orchestrator/orchestrator.go:619-640 | a running session can be ended in each of the three ways; then none of its questions is open, and those of other sessions are as before |
| OpenQuestion.SweepCloses | internal/store/postgres/sqlc/hitl_questions.sql.go:586-589 | the sweep closes a question in two steps, open in between, and changes which others are open in neither |
| OpenQuestion.OneOpenQuestion | internal/hitlrouter/router.go:120-131 | without crossings a session has, between asks and endings, at most one open question, and waits if it has one |
| OpenQuestion.SessionsMoveByTheTable | internal/domain/agent/entity.go:106-120 | asks, answers and endings, in any order, move sessions along their table only |
| OpenQuestion.WaysOfAnAsk | internal/hitlrouter/router.go:87-176 | an ask either leaves its session waiting with the question open for 30 minutes, or, if the update of the session fails, everything as before |
| OpenQuestion.ImpatientAnswer | internal/hitlrouter/router.go:204-235 | the code can take a crossing and so leave two open questions; forbidding crossings, or answers before the ask returned, is enough |
| OpenQuestion.OneOpenIffNeverCrosses | internal/hitlrouter/router.go:120-131 | for every condition one could put on answers: all runs under it keep one open question iff none of them takes a crossing |
| AnswerSaga.RouteAnswer | internal/hitlrouter/router.go:204-235 | only a pending question is answered, and only by text that is not blank; which refusal means what |
| AnswerSaga.EndsAreExclusive | internal/api/v1/agent.go:316-361 | the three ends exclude one another |
| AnswerSaga.ResetUndoesAnswer | internal/store/postgres/sqlc/hitl_questions.sql.go:745-748 | reset is the inverse of answer on a pending row |
| AnswerSaga.Resume | internal/api/v1/agent.go:332-358 | reload, delivery and the reset that undoes the answer, with the outcome for every pattern of failures |
| AnswerSaga.AnswerThenResume | internal/api/v1/agent.go:316-361 | the outcome is determined by rows, tracked sessions and failures; nothing is changed by a saga that came too late or was undone |
| AnswerSaga.AnswerQuestion | internal/api/v1/agent.go:316-361 | an awaited question reaches exactly one end: answered and resumed with one prompt, answered and session cancelled, or all as before; the reply tells which |
| AnswerSaga.SagaKeepsProgress | internal/messenger/slack/hitl.go:195-249 | another action of the payload does not spoil an end that was reached |
| AnswerSaga.HandleAction | internal/messenger/slack/hitl.go:157-271 | what one action does; the loop leaves iff the session was unavailable, fails iff the user is unknown or the saga aborted, and goes on otherwise |
| AnswerSaga.HandleInteraction | internal/messenger/slack/hitl.go:154-274 | for every session that waited: nothing happened, or one question was answered and it runs on with one prompt, or one was answered and it is cancelled; an answer for a session nobody tracks stops the loop |
| Postgres.Store.TransitionTask | internal/store/postgres/task_repo.go:266-297 | succeeds exactly on an existing task and an allowed transition |
| Postgres.Store.CreateSession | internal/store/postgres/agent_repo.go:71-115 | inserts the row, with its retry count clamped |
| Postgres.Store.UpdateSessionStatus | internal/store/postgres/agent_repo.go:159-192 | succeeds exactly on an existing session and an allowed transition |
| Postgres.Store.ScheduleRetry | internal/store/postgres/agent_repo.go:117-137 | sets count, clamped, and time; a missing row is not an error |
| Postgres.Store.AnswerQuestion | internal/store/postgres/hitl_repo.go:330-364 | succeeds exactly if the guarded update hits, and then does what it says |
| Postgres.Store.ResetAnswer | internal/store/postgres/hitl_repo.go:366-384 | as above, for the reset |
| Postgres.Store.CancelPendingBySession | internal/store/postgres/hitl_repo.go:112-124 | withdraws the unresolved questions of one session |
| Postgres.Store.EscalateQuestion | internal/store/postgres/hitl_repo.go:273-292 | as above, for the escalation |
| Postgres.Store.MarkTimedOutEscalated | internal/store/postgres/hitl_repo.go:310-328 | as above, for tier 2 |
| Postgres.Store.ClaimTimeoutNotification | internal/store/postgres/hitl_repo.go:143-169 | succeeds exactly on a timed-out, unnotified question that nobody claimed in the last 300 seconds |
| Postgres.Store.ClearTimeoutNotificationClaim | internal/store/postgres/hitl_repo.go:126-141 | gives up the claim without asking whose it is |
| Postgres.Store.MarkTimeoutNotificationSent | internal/store/postgres/hitl_repo.go:171-189 | sets notified_at and drops the claim |
| Orchestrator.Orchestrator.CreateSession | internal/orchestrator/orchestrator.go:210-251 | a pending session exactly for a task found in the backlog |
| Orchestrator.Orchestrator.Prepare | internal/orchestrator/orchestrator.go:210-340 | the task is taken with its session and thread, or given back |
| Orchestrator.Orchestrator.Launch | internal/orchestrator/orchestrator.go:341-442 | the backend runs and is tracked, or is disposed of and the dispatch undone; what status the row is left with |
| Orchestrator.Orchestrator.DispatchTask | internal/orchestrator/orchestrator.go:183-442 | succeeds iff the task was in the backlog and no step failed; an error leaves task, tracked sessions and threads as found, whichever step failed, if the revert goes through, and exactly the row it says; backends are conserved |
| Orchestrator.Orchestrator.CancelSession | internal/orchestrator/orchestrator.go:446-547 | exactly when a cancellation goes through, and what it does to rows, tasks, questions and maps; a session that completed or failed keeps row and task, and a failed cancellation does nothing |
| Orchestrator.Orchestrator.CancelPersisted | internal/orchestrator/orchestrator.go:472-513 | the same for a session nobody tracks, terminal rows included |
| Orchestrator.Orchestrator.RecordExit | internal/orchestrator/orchestrator.go:593-629 | the final status by exit code and, if any is left, the retry; what remains when scheduling it fails |
| Orchestrator.Orchestrator.HandleSessionComplete | internal/orchestrator/orchestrator.go:554-686 | exit code 0 completes the session and moves the task to review, any other fails it and moves the task to the backlog; the retry count goes up by one, to 100 at most, and the retry waits its delay, iff fewer than maxAttempts were made; a retry that cannot be scheduled leaves the row failed and the rest untouched |
| Orchestrator.Orchestrator.HandleStall | internal/orchestrator/stall.go:110-141 | the session is given up whatever its row says; a waiting row stays waiting |
| Orchestrator.Orchestrator.DisposeSession | internal/orchestrator/orchestrator.go:875-892 | a tracked backend becomes a disposed one |
| Orchestrator.Orchestrator.Shutdown | internal/orchestrator/orchestrator.go:784-856 | nothing is tracked any more, every backend ever created is disposed of, rows are cancelled where the table allows it, their tasks are freed and their open questions withdrawn |
| Backends.NoneLost | internal/orchestrator/orchestrator.go:875-892 | in every interleaving of dispatches, ending handlers and shutdowns in which nothing registers during a shutdown, each backend ever created is being launched, tracked or disposed of |
| Backends.LateSessionIsLost | internal/orchestrator/orchestrator.go:788-791 | from every state in which a dispatch registers after the shutdown copied the map, its backend can end up running with nobody tracking it |
| Backends.ConservedIffNeverLate | internal/orchestrator/orchestrator.go:845-848 | for every condition on registrations: at rest each backend is tracked or disposed of and never both, in all runs, iff no run registers a session during a shutdown |
| Backends.CodeLosesBackends | internal/orchestrator/orchestrator.go:434-436 | the code has no such condition and can lose one |
| Orchestrator.Orchestrator.SendHITLAnswer | internal/orchestrator/orchestrator.go:690-752 | delivered iff tracked and resumable; unavailable iff untracked and cancelled as needed, which requeues the task and withdraws what is open; otherwise rolled back |
| StallSweep.CheckStalledSessions | internal/orchestrator/stall.go:63-108 | a session stays tracked iff its last event is at most the timeout ago; the others are given up, and nobody else's rows or questions change |
| Ownership.BecomesOwner | internal/orchestrator/orchestrator.go:268-275 | a session comes to own a task only by its own dispatch's successful move to in_progress |
| Ownership.DispatchTakesItsTask | internal/orchestrator/orchestrator.go:183-440 | an undisturbed dispatch ends with its session running and tracked and the task in progress, and changes nothing else |
| Ownership.BrokenDispatchGivesBack | internal/orchestrator/orchestrator.go:895-945 | one that fails after taking the task returns it to the backlog, and fails its row only if that ran |
| Ownership.EndingMovesTheTask | internal/orchestrator/orchestrator.go:554-686 | an undisturbed ending sets the row, sends the task to review after a completion and to the backlog otherwise, and lets go of the session |
| Ownership.MovesFollowTheTables | internal/domain/task/entity.go:36-40 | dispatches, handlers and cancellations, in any order, move tasks and sessions along their tables only, and a dispatch starts from the backlog |
| Ownership.TaskLeaves | internal/domain/task/entity.go:36-40 | a task leaves in_progress only by the hand of one of its sessions |
| Ownership.OwnedThroughout | internal/orchestrator/orchestrator.go:210-275 | without clashes, in every state an owned task is in progress and has one owner, and whoever is about to move a task acts for its owner |
| Ownership.OnlyTheOwnerMovesItsTask | internal/orchestrator/orchestrator.go:253-263 | whoever moves an owned task is its owner and lets go by it; a losing dispatch's cleanup moves nothing |
| Ownership.StallBreaksOwnership | internal/orchestrator/stall.go:137-140 | a stall that goes on beside a completion lets one of them move the next owner's task |
| Ownership.CancelBreaksOwnership | internal/orchestrator/orchestrator.go:479-513 | cancelling a session that is still being dispatched gives its task away |
| Ownership.KeptIffNeverClashes | internal/orchestrator/orchestrator.go:520-532 | for every condition on lookups, row updates and cancellations: all runs under it keep this iff none clashes, that is, no two handlers of a session go on, none after the session is gone, and no owned task is cancelled from outside |
| Ownership.CalmKeepsOwners | internal/orchestrator/stall.go:115-140 | it is enough that a stall goes on alone, or once the row has ended with nobody else gone on; completions and cancellations need no rule |
| Retry.DelaysInRangeIff | internal/orchestrator/retry.go:84-95 | all delays lie between base and maximum iff the last product fits, or overflow converts to enough |
| Retry.DelaysDouble | internal/orchestrator/retry.go:84-95 | the first delay is the base, and each later one twice the one before, up to the maximum |
| Retry.DelaysGrow | internal/orchestrator/retry.go:84-95 | later attempts never wait shorter |
| Retry.CountsFollowTheChain | internal/orchestrator/retry.go:109-152 | no count exceeds the allowed attempts, and a retried session counts one more than its failed parent did |
| Retry.OneRetryEach | internal/orchestrator/retry.go:109-152 | no session is retried twice |
| Retry.OnlyFailuresAreRetried | internal/orchestrator/orchestrator.go:608-629 | in every run, a session that is the retry of another goes back to a step at which that one failed with retries left and the retry was stored, and is dispatched by a tick at least the base delay later |
| Retry.SuccessIsFinal | internal/orchestrator/orchestrator.go:593-629 | a session that succeeded, was cancelled or stalled is never retried, whatever follows |
| Retry.LostRescheduleIsFinal | internal/orchestrator/retry.go:135-144 | a retry whose dispatch fails is put back to wait for its next attempt; if that update fails too, the session is never retried again |
| Retry.ChainIsBounded | internal/orchestrator/orchestrator.go:608-629 | a user dispatch leads to at most maxAttempts further registered sessions |
| Retry.AllRetriesCanHappen | internal/orchestrator/orchestrator.go:608-629 | that bound is tight: all maxAttempts retries can happen, even if the reply of each stored schedule is lost |
| Retry.RetriesWait | internal/orchestrator/retry.go:80-95 | every retry that is scheduled waits at least base and at most the maximum |
| Retry.DefaultsAreSound | internal/orchestrator/retry.go:13-20 | the default settings, three attempts from 10 seconds to 5 minutes, meet the conditions of these results |
| Retry.ChainNeverEnds | internal/store/postgres/agent_repo.go:117-137 | with more than 100 attempts, chains of any length are reachable |
| Retry.ChainsBoundedIffCountable | internal/store/postgres/agent_repo.go:117-137 | the bound holds in all runs iff at most 100 attempts are allowed |
| RetrySweep.RetrySession | internal/orchestrator/retry.go:109-159 | claim, dispatch, or put back after the delay of the next attempt; the new session carries the count |
| RetrySweep.RetryReadySessions | internal/orchestrator/retry.go:97-107 | up to 25 sessions are claimed, the longest due first and none left out that was due earlier; rows that are not due are untouched; no retry time is past afterwards if fewer than 25 were, none was skipped and the delays they need are positive |
| RetrySweep.DelaysArePositive | internal/orchestrator/retry.go:80-95 | the scheduler's own delays are positive at every attempt it can come to |
| Adr.NumbersOfPrefix | internal/store/postgres/sqlc/adrs.sql.go:16-23 | what a snapshot numbers is a prefix of what is numbered later |
| Adr.AppendKeepsNumbering | internal/store/postgres/sqlc/adrs.sql.go:16-23 | a row keeps the numbering iff it carries the next number |
| Adr.Repository.WithinTx | internal/store/postgres/tx.go:14-51 | the body's effect is kept iff the commit went through; a failed rollback is reported too |
| Adr.Repository.CreateWithNextSequence | internal/store/postgres/adr_repo.go:97-158 | the caller's record is written iff the row was, and carries the stored number |
| Adr.CommitIsNext | internal/store/postgres/sqlc/adrs.sql.go:16-23 | a commit that passes either guard carries exactly the next number |
| Adr.GapFree | internal/store/postgres/adr_repo.go:124-152 | in every interleaving each project's committed numbers are 1 to n in commit order, and each caller holds the number of its row |
| Adr.RowsGrow | internal/store/postgres/adr_repo.go:124-152 | committed rows stay and new ones come last |
| Adr.OneHolder | internal/store/postgres/adr_repo.go:125 | under the project lock at most one transaction of a project is between lock and end, in every run |
| Adr.ReturnedStays | internal/store/postgres/adr_repo.go:124-157 | once a caller was given a number nothing takes it back |
| Adr.GivingUpLetsTheNextIn | internal/store/postgres/adr_repo.go:124-152 | a transaction that gives up leaves no row, and one that waits for the lock gets it |
| Adr.LockAloneRepeats | internal/store/postgres/adr_repo.go:124-128 | with the lock but neither guard a number is given out twice |
| Adr.NumberedIffGuarded | internal/store/postgres/adr_repo.go:125 | gap-free in all runs iff serializable or unique |
| AdrPages.CursorIsAPosition | internal/store/postgres/sqlc/adrs.sql.go:155-160 | the statement with a cursor asks for exactly the keys beyond the cursor's |
| AdrPages.OrderIsCommitOrder | internal/store/postgres/sqlc/adrs.sql.go:107-110 | the order by sequence is the order of creation |
| AdrPages.PageHoldsNext | internal/store/postgres/adr_repo.go:180-220 | after the first s records a page holds the next ones |
| AdrPages.FullPagePoints | internal/api/v1/adrs.go:109-112 | a full page hands out its last record as the cursor, any other page none |
| AdrPages.WalkDuringCreation | internal/store/postgres/adr_repo.go:180-220 | paging while transactions create records is never refused, ends within one page more than there are records, and yields 1, 2, ..., k without gap or repeat, k at least the count at the start |
| Keyset.Ordered | internal/store/postgres/sqlc/tasks.sql.go:108-115 | each key once, in increasing order |
| Keyset.OrderIsUnique | internal/store/postgres/sqlc/tasks.sql.go:108-115 | there is only one such order |
| Keyset.PageReaches | internal/store/postgres/sqlc/tasks.sql.go:165-177 | a page holds exactly the keys from its start to its last, or to the end |
| Keyset.PageThenRest | internal/store/postgres/sqlc/tasks.sql.go:165-177 | a page and what lies beyond its last key are, in order, everything that was left |
| TaskPages.SelectPage | internal/store/postgres/sqlc/tasks.sql.go:165-177 | taking the least remaining key up to the limit is the page |
| TaskPages.ListTasks | internal/store/postgres/task_repo.go:207-264 | a cursor of another project, status or priority is invalid; otherwise rows of the project with the status and priority asked for, by priority, newest first, then greater id, behind the cursor, and whatever is left out comes later than a full page |
| TaskPages.CursorIsAPosition | internal/store/postgres/sqlc/tasks.sql.go:165-177 | the three-way condition is being beyond the cursor in (priority, created_at descending, id descending) |
| TaskPages.ListServes | internal/store/postgres/task_repo.go:207-264 | an accepted call serves the page that starts where the cursor stands now |
| TaskPages.TimesMet | internal/store/postgres/task_repo.go:207-264 | over tables that change between pages, how often a finished walk meets a row that stays with its key: once, plus cursors that fell back before it, less cursors that leapt over it |
| TaskPages.MetOnceIff | internal/store/postgres/task_repo.go:239-263 | it is met exactly once iff the two balance |
| TaskPages.MetOnce | internal/store/postgres/task_repo.go:207-264 | in particular if cursors keep their places |
| TaskPages.MetWhereServed | internal/store/postgres/task_repo.go:207-264 | whatever a walk returns was of the project, status and priority asked for when its page was served |
| TaskPages.WalkIsTheRest | internal/api/v1/tasks.go:127-137 | over one table a walk ends within one page more than there are rows left and yields exactly those in order |
| TaskPages.CompleteIff | internal/store/postgres/helpers.go:29-38 | the walk is the whole sorted list iff the limit is 1 to 200 or one page holds all |
| TaskPages.OvertakenIsMissed | internal/store/postgres/task_repo.go:239-263 | whenever the cursor row moves behind the only other row, a walk of one row a page misses that other row |
| TaskPages.EditedCursorSkips | internal/store/postgres/task_repo.go:239-263 | a cursor whose priority was edited makes the walk miss an unchanged row |
| Hub.SubscribedIsMatched | internal/api/ws/hub.go:40-53 | subscribing keeps clients and subscriptions matched and adds just that client |
| Hub.UnsubscribedIsMatched | internal/api/ws/hub.go:56-71 | unsubscribing keeps them matched and removes just that client |
| Hub.Hub.Subscribe | internal/api/ws/hub.go:40-53 | the method's map updates come to that |
| Hub.Hub.Unsubscribe | internal/api/ws/hub.go:105-120 | the method's map updates come to that |
| Hub.Hub.FanOut | internal/api/ws/hub.go:73-86 | every client of the topic gets its copy unless its own 64 slots are full, and nobody else is affected |
| Hub.SubscriptionsMatchClients | internal/api/ws/hub.go:40-71 | in every run topics with clients are those with an open subscription, and no two open epochs share a topic |
| Hub.ReceivedOnce | internal/api/ws/hub.go:45-50 | an event goes to every open subscription of its topic, and there is at most one |
| Hub.AtMostOnce | internal/api/ws/hub.go:73-86 | no client gets an event twice, leftover loops of closed epochs included, and one epoch's events come in order |
| Hub.OnlyAFullClientMisses | internal/api/ws/hub.go:122-135 | over any stretch of a run, whoever was in line for an event still is, has got it, or had 64 events waiting at its turn |
| Hub.FanOutReachesAll | internal/api/ws/hub.go:122-135 | a loop that is done with an event has served every client its topic had when it began, but for those full at their turn |
| Hub.ReachesAClient | internal/api/ws/hub.go:73-86 | what is published on a topic reaches any client of it in three steps, unless 64 events are waiting there; nobody else is affected |
| Hub.OnlyClientsOfTheTopic | internal/api/ws/hub.go:73-86 | in every run, a client that got an event was among the clients of the topic when a loop took the event, and the event had been published on that topic |
| Hub.LostIsNeverDelivered | internal/api/ws/hub.go:73-86 | an event that is lost before the loop sees it is never received by anybody |
| Hub.InLineIsClient | internal/api/ws/hub.go:73-86 | in every run, whoever is still to get an event from a loop is a client of its topic at that very time: the lock keeps changes of the map out |
| Hub.ChannelIsBounded | internal/api/ws/board.go:62 | in every run no channel holds more than 64 events, and reading takes one of them |
| Hub.ClientsComeAndGo | internal/api/ws/hub.go:40-71 | whoever is connected can subscribe and unsubscribe while no loop hands out, and only the map changes |
| RateLimit.RetryAfterIsLeast | internal/server/middleware/ratelimit.go:272-287 | Retry-After is the least whole number of seconds, at least one, that reaches a later window |
| RateLimit.RetryAfterIsTheRest | internal/server/middleware/ratelimit.go:272-287 | Retry-After is 60 less the second of the minute |
| RateLimit.Limiter.Evaluate | internal/server/middleware/ratelimit.go:113-137 | decision and remaining count follow from the requests counted before in the same key and minute; with a clock that went back nothing is refused that should pass |
| RateLimit.Limiter.Expire | internal/server/middleware/ratelimit.go:123-126 | dropping counters of past windows, at any time, spoils no later decision |
| RateLimit.ExactlyTheFirst | internal/server/middleware/ratelimit.go:113-137 | of k requests counted in an aligned minute exactly the first min(N, k) are allowed |
| RateLimit.AtMostTwice | internal/server/middleware/ratelimit.go:91-100 | any 60 seconds let at most 2N pass, plus those whose store calls failed |
| RateLimit.LimiterKeepsTheBound | internal/server/middleware/ratelimit.go:87-111 | the limiter's own answers keep to that bound while the clock does not go back |
| RateLimit.TwiceIsReached | internal/server/middleware/ratelimit.go:113-137 | that bound is tight |
| Workspace.TrimsSpaceOnly | internal/domain/project/entity.go:99 | trimming takes all white space off both ends and nothing else |
| Workspace.BlankIsTrimmedAway | internal/store/postgres/helpers.go:47-52 | a text is blank exactly if trimming leaves nothing of it |
| Workspace.SplitJoin | internal/domain/project/entity.go:98-114 | joining components and splitting the string are inverse |
| Workspace.ReduceKeepsDepth | internal/domain/project/entity.go:106 | cleaning keeps the depth, and leaves steps up exactly if some prefix led out |
| Workspace.AcceptedIffItStaysInside | internal/domain/project/entity.go:98-114 | accepted iff relative and never leading out; what is accepted is empty or made of names only |
| Workspace.PlainComesBack | internal/domain/project/entity.go:98-114 | a trimmed path of names comes back unchanged |
| Workspace.IdleMakesNoDifference | internal/domain/project/entity.go:106 | a name and the step up right behind it, a dot, and a doubled slash can be left out anywhere without changing the result |
| Workspace.WorkspacePaths | internal/domain/project/entity.go:58-85 | all of a list or none of it, in order, without empty ones |
| Workspace.WorkspaceIsBelowBase | internal/domain/project/entity.go:87-96 | the base directory's components stay a prefix of the workspace's, and only names follow |

## Left out

- Tenancy: one tenant; the tenant id in every WHERE clause is not modelled.
- Reads and writes below a repository call: status updates read the row and then write it unguarded;
  the model takes the call as atomic, as its contract does.
- The link from a task to its session (`agent_session_id`): it is not persisted by the update
  statement, so nothing is claimed about it.
- HTTP, Slack, Docker, git, SMTP and Redis calls are steps that succeed or fail; logging, spans,
  metrics, audit log, published events and message formatting are not modelled. The same goes for
  unconfigured dependencies (nil orchestrator, router or notifier) and the Slack acknowledgement.
- The Discord and Telegram answer paths, which reset the answer also when the session was unavailable.
- The users list, whose cursor compares the creation time only, and the projects and sessions lists.
- `MarkTimedOutHITLQuestionsBefore` and the messenger-thread update of a question: not used by the
  modelled handlers. Reopening is a statement of `Questions` but an event of no run: the sweep never
  calls it.
- Lease.MutualExclusion: a statement takes effect within the 15 s context of its call; clocks of
  different processes are one clock.
- Postgres.Store.UpdateSessionStatus: start and end times are not stored in the row;
  `Domain.SessionEntity.Transition` is where they are proved.
- TimeoutSweep.Tick: the wall clock stands still during the tick and no call fails for outside
  reasons; with failures only the row-by-row facts of `Lease` and `Timeouts` remain.
- Timeouts.NoEarlyTimeout: one sweeper; several processes sweeping at once are covered by `Lease` only.
- OpenQuestion.OneOpenQuestion: answering and resuming is one step. The delete that cleans up after a
  failed ask, and the withdrawal of questions after a session ended, which the code only tries once,
  succeed in the end; until then the state does not count as between asks and endings.
- SweepBacklog.EndedIffFewBlockers: nothing but ticks happens meanwhile, and no escalated question of a
  session that never ran is ahead and still to time out; `EndedInTime` does without the latter.
- Ownership.OwnedThroughout: tasks are not moved by hand on the board meanwhile.
- Retry.ChainIsBounded: one scheduler. Base delays from 2^53 ns on, where float64 rounds, are computed
  exactly here.
- Adr.GapFree: two serializable transactions that insert into one project without seeing each other
  are never both committed; the database's way of detecting this is not modelled.
- TaskPages.TimesMet: a row that is itself edited, inserted or deleted during the walk is not counted.
- Backends.ConservedIffNeverLate: one shutdown at a time, and calls on the backend only as steps.
- RateLimit.Limiter.Evaluate: with a clock that goes back, and a counter dropped meanwhile, the store
  counts anew; how many requests then pass is not bounded. Key derivation from the request is left out.
- RateLimit.AtMostTwice: bounds the requests that should pass; they are those that do pass only while
  the clock does not go back.
- Hub.AtMostOnce: the write from a client's channel to its socket is a read of the channel here.
- Workspace.AcceptedIffItStaysInside: idempotence is not claimed, and does not hold in general,
  because trimming comes before cleaning. Paths use `/` as the separator.
- The container reconciler, bootstrap, authentication and the front end.
