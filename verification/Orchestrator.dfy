/**
 * The orchestrator: task dispatch as a saga with compensation, and the handlers that end a session.
 * Every repository or backend call can be told to fail, in any combination.
 */
module Orchestrator {
  import opened Domain
  import opened Questions
  import opened Postgres

  type BackendId = Id

  // A running session as the orchestrator tracks it in memory.
  datatype Tracked = Tracked(backend: BackendId, task: TaskId)

  // Where the messenger thread of a session lives.
  datatype ThreadContext = ThreadContext(channel: string, parent: string)

  // Which calls of one dispatch fail. The last two belong to the compensation.
  datatype DispatchFaults = DispatchFaults(
    loadTask: bool, loadProject: bool, createSession: bool, transition: bool, link: bool, volume: bool,
    workspace: bool, branch: bool, backend: bool, run: bool, start: bool,
    failSession: bool, revert: bool)
  {
    predicate Primary() {
      BeforeStart() || start
    }

    predicate BeforeStart() {
      || loadTask || loadProject || createSession || transition || link
      || volume || workspace || branch || backend || run
    }

    // The dispatch gets as far as making a session row.
    predicate Creates() {
      !(loadTask || loadProject || createSession)
    }

    // The session row that a failed dispatch leaves: one that never ran cannot be failed.
    function LeftBehind(): SessionStatus {
      if BeforeStart() then SessionStatus.Pending else if failSession then SessionStatus.Running else Failed
    }
  }

  // Which calls of a handler that ends a session fail.
  datatype EndFaults = EndFaults(load: bool, status: bool, schedule: bool, task: bool, questions: bool)

  const NO_FAULTS := EndFaults(false, false, false, false, false)

  // Which calls of the delivery of an answer fail.
  datatype SendFaults = SendFaults(
    load: bool, cancel: bool, run: bool, prompt: bool, rollback: bool, task: bool, questions: bool)

  datatype SendResult = Delivered | SessionUnavailable | SendFailed

  // What the delivery of an answer makes of a waiting session.
  function StatusAfter(r: SendResult): SessionStatus {
    match r
    case Delivered => SessionStatus.Running
    case SessionUnavailable => SessionStatus.Cancelled
    case SendFailed => WaitingHitl
  }

  /** What a best-effort move of a task amounts to. */
  function Moved(tasks: map<TaskId, TaskStatus>, task: TaskId, next: TaskStatus, fault: bool): map<TaskId, TaskStatus> {
    if !fault && task in tasks && TaskAllowed(tasks[task], next) then tasks[task := next] else tasks
  }

  /** What a best-effort cancellation of a session's questions amounts to. */
  function Cleared(t: Table, session: SessionId, fault: bool): Table {
    if fault then t else Exec(CancelPending(session), t)
  }

  // The task of a stopped session, unless the move failed, is no longer in progress.
  predicate Freed(before: map<TaskId, TaskStatus>, after: map<TaskId, TaskStatus>, task: TaskId) {
    task in before && task in after && before[task] == InProgress ==> after[task] == Backlog
  }

  // A best-effort move to the backlog is all that happened to a task, if anything.
  predicate MovedBackOnly(before: map<TaskId, TaskStatus>, after: map<TaskId, TaskStatus>) {
    && before.Keys == after.Keys
    && forall t :: t in after && after[t] != before[t] ==> after[t] == Backlog
  }

  // The unresolved questions of the sessions in `done` are withdrawn, but for failed calls; no other question changes.
  ghost predicate WithdrawnFor(q0: Table, q: Table, done: set<SessionId>, f: SessionId -> EndFaults) {
    && q.Keys == q0.Keys
    && forall id :: id in q0 ==>
         q[id] == if q0[id].session in done && !f(q0[id].session).questions && Unresolved(q0[id])
                  then q0[id].(status := Withdrawn) else q0[id]
  }

  lemma OneMoreWithdrawn(q0: Table, q: Table, done: set<SessionId>, f: SessionId -> EndFaults, s: SessionId)
    requires WithdrawnFor(q0, q, done, f)
    ensures WithdrawnFor(q0, Cleared(q, s, f(s).questions), done + {s}, f)
  {
  }

  // The tasks of sessions that are done with are free, unless their move failed.
  ghost predicate TasksFreed(done: set<SessionId>, f: SessionId -> EndFaults, r0: map<SessionId, Tracked>,
                             t0: map<TaskId, TaskStatus>, t: map<TaskId, TaskStatus>) {
    && MovedBackOnly(t0, t)
    && forall s :: s in done && s in r0 && !f(s).task ==> Freed(t0, t, r0[s].task)
  }

  lemma OneFreed(done: set<SessionId>, k: SessionId, f: SessionId -> EndFaults, r0: map<SessionId, Tracked>,
                 t0: map<TaskId, TaskStatus>, t: map<TaskId, TaskStatus>)
    requires TasksFreed(done, f, r0, t0, t) && k in r0
    ensures TasksFreed(done + {k}, f, r0, t0, Moved(t, r0[k].task, Backlog, f(k).task))
  {
  }

  // A terminal row stays as it is.
  function Stopped(row: Session, fault: bool): Session {
    if !fault && SessionAllowed(row.status, SessionStatus.Cancelled)
      then row.(status := SessionStatus.Cancelled) else row
  }

  function StoppedIn(sessions: map<SessionId, Session>, session: SessionId): map<SessionId, Session>
    requires session in sessions
  {
    sessions[session := Stopped(sessions[session], false)]
  }

  // The task of a cancelled session; completed and failed ones have let go of theirs.
  function Requeued(tasks: map<TaskId, TaskStatus>, row: Session, fault: bool): map<TaskId, TaskStatus> {
    if row.status in {SessionStatus.Completed, SessionStatus.Failed}
      then tasks else Moved(tasks, row.task, Backlog, fault)
  }

  function Backends(registered: map<SessionId, Tracked>): set<BackendId> {
    set s | s in registered :: registered[s].backend
  }

  lemma BackendsInsert(m: map<SessionId, Tracked>, s: SessionId, t: Tracked)
    requires s !in m
    ensures Backends(m[s := t]) == Backends(m) + {t.backend}
  {
    forall b | b in Backends(m) ensures b in Backends(m[s := t]) {
      var s' :| s' in m && m[s'].backend == b;
      assert m[s := t][s'].backend == b;
    }
    assert m[s := t][s].backend == t.backend;
  }

  lemma BackendsRemove(m: map<SessionId, Tracked>, s: SessionId)
    requires s in m && forall s' :: s' in m && m[s'].backend == m[s].backend ==> s' == s
    ensures Backends(m - {s}) == Backends(m) - {m[s].backend}
  {
    forall b | b in Backends(m) && b != m[s].backend ensures b in Backends(m - {s}) {
      var s' :| s' in m && m[s'].backend == b;
      assert (m - {s})[s'].backend == b;
    }
  }

  class Orchestrator {
    const store: Store
    const maxAttempts: nat
    const retryDelay: nat -> Time

    var registered: map<SessionId, Tracked>
    var threads: map<SessionId, ThreadContext>
    var prompts: seq<(SessionId, string)>  // delivered to a backend, in order
    var created: set<BackendId>            // every backend the registry ever made
    var disposed: set<BackendId>
    var nextSession: SessionId
    var nextBackend: BackendId

    constructor (store: Store, maxAttempts: nat, retryDelay: nat -> Time)
      requires store.sessions == map[]
      ensures Valid() && this.store == store && this.maxAttempts == maxAttempts && this.retryDelay == retryDelay
      ensures registered == map[] && threads == map[] && prompts == []
    {
      this.store, this.maxAttempts, this.retryDelay := store, maxAttempts, retryDelay;
      registered, threads, prompts, created, disposed := map[], map[], [], {}, {};
      nextSession, nextBackend := 0, 0;
    }

    /** Every backend is tracked or disposed of, never both, and no two sessions share one. */
    ghost predicate Conserved()
      reads this
    {
      && Backends(registered) + disposed == created
      && Backends(registered) !! disposed
      && forall s, s' :: s in registered && s' in registered && registered[s].backend == registered[s'].backend ==>
           s == s'
    }

    ghost predicate Valid()
      reads this, store
    {
      && Conserved()
      && (forall b :: b in created ==> b < nextBackend)
      && (forall s :: s in registered ==> s in store.sessions && store.sessions[s].task == registered[s].task)
      && (forall s :: s in threads || s in store.sessions ==> s < nextSession)
    }

    // ---------------------------------------------------------------------------
    // Dispatch
    // ---------------------------------------------------------------------------

    method Cleanup(session: SessionId, task: TaskId, transitioned: bool, f: DispatchFaults)
      modifies this`threads, store`tasks, store`sessions
      ensures threads == old(threads) - {session}
      ensures store.tasks == if transitioned then Moved(old(store.tasks), task, Backlog, f.revert) else old(store.tasks)
      ensures store.sessions ==
              if !f.failSession && session in old(store.sessions)
                && SessionAllowed(old(store.sessions)[session].status, SessionStatus.Failed)
              then old(store.sessions)[session := old(store.sessions)[session].(status := SessionStatus.Failed)]
              else old(store.sessions)
    {
      var _ := store.UpdateSessionStatus(session, SessionStatus.Failed, f.failSession);
      threads := threads - {session};
      if transitioned {
        var _ := store.TransitionTask(task, Backlog, f.revert);
      }
    }

    // Steps 1 to 3: a pending session for a task found in the backlog.
    method CreateSession(task: TaskId, retryCount: nat, f: DispatchFaults) returns (r: Option<SessionId>)
      requires Valid()
      modifies this`nextSession, store`sessions
      ensures Valid() && nextSession >= old(nextSession)
      ensures r.Some? <==>
                && task in store.tasks && store.tasks[task] == Backlog
                && !(f.loadTask || f.loadProject || f.createSession)
      ensures r.Some? ==> r.value == old(nextSession) && nextSession == r.value + 1
      ensures r.Some? ==>
          store.sessions == old(store.sessions)[r.value :=
            Session(task, SessionStatus.Pending, Clamp(retryCount), None)]
      ensures r.None? ==> store.sessions == old(store.sessions)
    {
      if f.loadTask || task !in store.tasks { return None; }
      if store.tasks[task] != Backlog { return None; }
      if f.loadProject { return None; }
      var session := nextSession;
      nextSession := nextSession + 1;
      var result := store.CreateSession(session, Session(task, SessionStatus.Pending, retryCount, None),
        f.createSession);
      r := if result == Ok then Some(session) else None;
    }

    /** Steps 1 to 7: the task is taken and its workspace made ready, or everything is put back. */
    method Prepare(task: TaskId, context: Option<ThreadContext>, retryCount: nat, f: DispatchFaults)
        returns (r: Option<SessionId>)
      requires Valid()
      modifies this`threads, this`nextSession, store`tasks, store`sessions
      ensures Valid() && nextSession >= old(nextSession)
      ensures r.Some? <==>
                && task in old(store.tasks) && old(store.tasks)[task] == Backlog
                && !(f.loadTask || f.loadProject || f.createSession || f.transition || f.link || f.volume
                     || f.workspace || f.branch)
      ensures r.Some? ==> r.value == old(nextSession) && r.value < nextSession
      ensures r.Some? ==> store.tasks == old(store.tasks)[task := InProgress]
      ensures r.Some? ==>
          store.sessions == old(store.sessions)[r.value :=
            Session(task, SessionStatus.Pending, Clamp(retryCount), None)]
      ensures r.Some? ==> threads == if context.Some? then old(threads)[r.value := context.value] else old(threads)
      ensures r.None? ==> threads == old(threads)
      ensures r.None? && !f.revert ==> store.tasks == old(store.tasks)
      ensures r.None? ==>
        store.sessions ==
          if task in old(store.tasks) && old(store.tasks)[task] == Backlog && f.Creates()
          then old(store.sessions)[old(nextSession) :=
                 Session(task, SessionStatus.Pending, Clamp(retryCount), None)]
          else old(store.sessions)
    {
      r := CreateSession(task, retryCount, f);
      if r == None { return; }
      var session := r.value;
      if context.Some? {
        threads := threads[session := context.value];
      }
      var result := store.TransitionTask(task, InProgress, f.transition);
      if result != Ok {
        Cleanup(session, task, false, f);
        return None;
      }
      // From here on a failure also gives the task back.
      if f.link || f.volume || f.workspace || f.branch {
        Cleanup(session, task, true, f);
        return None;
      }
    }

    /** Steps 8 to 13: the backend is made, started and tracked, or disposed of and everything put back. */
    method Launch(session: SessionId, task: TaskId, f: DispatchFaults) returns (ok: bool)
      requires Valid() && session < nextSession
      requires session !in registered && session in store.sessions
      requires store.sessions[session].status == SessionStatus.Pending && store.sessions[session].task == task
      modifies this`registered, this`threads, this`created, this`disposed, this`nextBackend, store`tasks, store`sessions
      ensures Valid()
      ensures ok <==> !f.backend && !f.run && !f.start
      ensures ok ==> store.tasks == old(store.tasks) && threads == old(threads) && disposed == old(disposed)
      ensures ok ==>
          store.sessions == old(store.sessions)[session :=
            old(store.sessions)[session].(status := SessionStatus.Running)]
      ensures ok ==>
          registered == old(registered)[session := Tracked(old(nextBackend), task)] && old(nextBackend) !in old(created)
      ensures !ok ==> registered == old(registered) && created - disposed == old(created) - old(disposed)
      ensures !ok ==>
          threads == old(threads) - {session} && store.tasks == Moved(old(store.tasks), task, Backlog, f.revert)
      ensures !ok ==>
          store.sessions == old(store.sessions)[session :=
            old(store.sessions)[session].(status :=
              if f.backend || f.run then SessionStatus.Pending
              else if f.failSession then SessionStatus.Running else SessionStatus.Failed)]
    {
      if f.backend {
        Cleanup(session, task, true, f);
        return false;
      }
      var backend := nextBackend;
      nextBackend := nextBackend + 1;
      created := created + {backend};
      var result := store.UpdateSessionStatus(session, SessionStatus.Running, f.run);
      if result != Ok || f.start {
        Cleanup(session, task, true, f);
        disposed := disposed + {backend};
        return false;
      }
      BackendsInsert(registered, session, Tracked(backend, task));
      registered := registered[session := Tracked(backend, task)];
      ok := true;
    }

    /** A whole dispatch; `context` registers a messenger thread before the backend starts. */
    method DispatchTask(task: TaskId, context: Option<ThreadContext>, retryCount: nat, f: DispatchFaults)
      returns (r: Option<SessionId>)
      requires Valid()
      modifies this`registered, this`threads, this`created, this`disposed, this`nextSession, this`nextBackend
      modifies store`tasks, store`sessions
      ensures Valid()
      ensures r.Some? <==> task in old(store.tasks) && old(store.tasks)[task] == Backlog && !f.Primary()
      ensures r.Some? ==> r.value !in old(store.sessions) && r.value !in old(registered)
      ensures r.Some? ==> store.tasks == old(store.tasks)[task := InProgress]
      ensures r.Some? ==>
          store.sessions == old(store.sessions)[r.value :=
            Session(task, SessionStatus.Running, Clamp(retryCount), None)]
      ensures r.Some? ==>
          r.value in registered && registered == old(registered)[r.value := Tracked(registered[r.value].backend, task)]
      ensures r.Some? ==> registered[r.value].backend !in old(created) && disposed == old(disposed)
      ensures r.Some? ==> threads == if context.Some? then old(threads)[r.value := context.value] else old(threads)
      ensures r.None? ==> registered == old(registered) && threads == old(threads)
      ensures r.None? ==> created - disposed == old(created) - old(disposed)
      ensures r.None? && !f.revert ==> store.tasks == old(store.tasks)
      ensures r.None? ==>
        store.sessions ==
          if task in old(store.tasks) && old(store.tasks)[task] == Backlog && f.Creates()
          then old(store.sessions)[old(nextSession) := Session(task, f.LeftBehind(), Clamp(retryCount), None)]
          else old(store.sessions)
    {
      r := Prepare(task, context, retryCount, f);
      if r.Some? {
        var launched := Launch(r.value, task, f);
        if !launched {
          r := None;
        }
      }
    }

    // ---------------------------------------------------------------------------
    // The ends of a session
    // ---------------------------------------------------------------------------

    method DisposeSession(session: SessionId)
      requires Valid() && session in registered
      modifies this`registered, this`disposed, this`threads
      ensures Valid()
      ensures registered == old(registered) - {session} && threads == old(threads) - {session}
      ensures disposed == old(disposed) + {old(registered)[session].backend}
    {
      BackendsRemove(registered, session);
      disposed := disposed + {registered[session].backend};
      registered := registered - {session};
      threads := threads - {session};
    }

    // What ends every tracked session: its task moves on, its questions are withdrawn, its backend goes.
    method Close(session: SessionId, next: TaskStatus, f: EndFaults)
      requires Valid() && session in registered
      modifies this`registered, this`disposed, this`threads, store`tasks, store`questions
      ensures Valid()
      ensures registered == old(registered) - {session} && threads == old(threads) - {session}
      ensures disposed == old(disposed) + {old(registered)[session].backend}
      ensures store.tasks == Moved(old(store.tasks), old(registered)[session].task, next, f.task)
      ensures store.questions == Cleared(old(store.questions), session, f.questions)
    {
      var _ := store.TransitionTask(registered[session].task, next, f.task);
      var _ := store.CancelPendingBySession(session, f.questions);
      DisposeSession(session);
    }

    // A session that is not tracked, or not any more.
    method CancelPersisted(session: SessionId, f: EndFaults) returns (r: Result)
      requires Valid() && session !in registered
      modifies this`threads, store`tasks, store`sessions, store`questions
      ensures Valid()
      ensures r == Ok <==> old(Cancellable(session, f))
      ensures r != Ok ==> threads == old(threads)
      ensures r != Ok ==>
          store.tasks == old(store.tasks) && store.sessions == old(store.sessions)
            && store.questions == old(store.questions)
      ensures r == Ok ==> threads == old(threads) - {session}
      ensures r == Ok ==> store.questions == Cleared(old(store.questions), session, f.questions)
      ensures r == Ok ==> store.sessions == StoppedIn(old(store.sessions), session)
      ensures r == Ok ==> store.tasks == Requeued(old(store.tasks), old(store.sessions)[session], f.task)
    {
      if f.load || session !in store.sessions { return NotFound; }
      var row := store.sessions[session];
      if !Terminal(row.status) {
        r := store.UpdateSessionStatus(session, SessionStatus.Cancelled, f.status);
        if r != Ok { return; }
      }
      if row.status != SessionStatus.Completed && row.status != SessionStatus.Failed {
        var _ := store.TransitionTask(row.task, Backlog, f.task);
      }
      var _ := store.CancelPendingBySession(session, f.questions);
      threads := threads - {session};
      r := Ok;
    }

    /** Whether a cancellation goes through: terminal rows are fine once nothing is tracked any more. */
    ghost predicate Cancellable(session: SessionId, f: EndFaults)
      reads this, store
    {
      && session in store.sessions
      && (session !in registered ==> !f.load)
      && ((session !in registered && Terminal(store.sessions[session].status))
          || (SessionAllowed(store.sessions[session].status, SessionStatus.Cancelled) && !f.status))
    }

    method CancelSession(session: SessionId, f: EndFaults) returns (r: Result)
      requires Valid()
      modifies this`registered, this`disposed, this`threads, store`tasks, store`sessions, store`questions
      ensures Valid()
      ensures r == Ok <==> old(Cancellable(session, f))
      ensures r != Ok ==> registered == old(registered) && threads == old(threads) && disposed == old(disposed)
      ensures r != Ok ==>
          store.tasks == old(store.tasks) && store.sessions == old(store.sessions)
            && store.questions == old(store.questions)
      ensures r == Ok ==> registered == old(registered) - {session} && threads == old(threads) - {session}
      ensures r == Ok ==> store.questions == Cleared(old(store.questions), session, f.questions)
      ensures r == Ok ==> store.sessions == StoppedIn(old(store.sessions), session)
      ensures r == Ok ==> store.tasks == Requeued(old(store.tasks), old(store.sessions)[session], f.task)
      // In terms of statuses alone: a session that ran is cancelled and its task requeued, one that was
      // cancelled before has its task requeued again, and one that completed or failed keeps row and task.
      ensures r == Ok ==>
        var was := old(store.sessions)[session].status;
        && was != SessionStatus.Pending
        && (store.sessions[session].status == SessionStatus.Cancelled <==>
              was != SessionStatus.Completed && was != SessionStatus.Failed)
        && (was == SessionStatus.Completed || was == SessionStatus.Failed ==>
              store.tasks == old(store.tasks) && store.sessions == old(store.sessions))
        && (was != SessionStatus.Completed && was != SessionStatus.Failed && !f.task ==>
              var task := old(store.sessions)[session].task;
              task in store.tasks && old(store.tasks)[task] in {InProgress, Review} ==>
                store.tasks == old(store.tasks)[task := Backlog])
      ensures r == Ok && !f.questions ==>
        forall id :: id in store.questions ==>
          store.questions[id] ==
            var q := old(store.questions)[id];
            if q.session == session && (q.status == Open || q.status == Escalated)
            then q.(status := Withdrawn) else q
    {
      if session !in registered {
        r := CancelPersisted(session, f);
        return;
      }
      r := store.UpdateSessionStatus(session, SessionStatus.Cancelled, f.status);
      if r != Ok { return; }
      Close(session, Backlog, f);
    }

    function CompletionStatus(exitCode: int): SessionStatus {
      if exitCode == 0 then SessionStatus.Completed else SessionStatus.Failed
    }

    predicate RetriesLeft(retryCount: nat, exitCode: int) {
      exitCode != 0 && retryCount < maxAttempts
    }

    // The row of a session whose container exited: its final status, and the retry if one is due.
    function ExitedRow(row: Session, exitCode: int, now: Time): Session {
      var ended := row.(status := CompletionStatus(exitCode));
      if RetriesLeft(row.retryCount, exitCode)
      then ended.(retryCount := Clamp(row.retryCount + 1), retryAt := Some(now + retryDelay(row.retryCount + 1)))
      else ended
    }

    method RecordExit(session: SessionId, exitCode: int, now: Time, f: EndFaults) returns (r: Result)
      requires session in store.sessions
      modifies store`sessions
      ensures r == Ok <==>
                && old(store.sessions)[session].status == SessionStatus.Running && !f.status
                && (exitCode != 0 && old(store.sessions)[session].retryCount < maxAttempts ==> !f.schedule)
      ensures r == Ok ==>
          store.sessions == old(store.sessions)[session := ExitedRow(old(store.sessions)[session], exitCode, now)]
      ensures r == Ok ==>
        var was, row := old(store.sessions)[session], store.sessions[session];
        && row.task == was.task
        && row.status == (if exitCode == 0 then SessionStatus.Completed else SessionStatus.Failed)
        && if exitCode != 0 && was.retryCount < maxAttempts
           then
             && row.retryAt == Some(now + retryDelay(was.retryCount + 1))
             && row.retryCount == (if was.retryCount < 100 then was.retryCount + 1 else 100)
           else row.retryAt == was.retryAt && row.retryCount == was.retryCount
      ensures r != Ok ==>
        store.sessions ==
          if old(store.sessions)[session].status == SessionStatus.Running && !f.status
          then old(store.sessions)[session := old(store.sessions)[session].(status := SessionStatus.Failed)]
          else old(store.sessions)
    {
      var row := store.sessions[session];
      r := store.UpdateSessionStatus(session, CompletionStatus(exitCode), f.status);
      if r == Ok && RetriesLeft(row.retryCount, exitCode) {
        r := store.ScheduleRetry(session, row.retryCount + 1, Some(now + retryDelay(row.retryCount + 1)), f.schedule);
      }
    }

    /**
     * A container exited: success moves the task to review, failure back to the backlog, with a retry if
     * any is left.
     */
    method HandleSessionComplete(session: SessionId, exitCode: int, now: Time, f: EndFaults) returns (r: Result)
      requires Valid()
      modifies this`registered, this`disposed, this`threads, store`tasks, store`sessions, store`questions
      ensures Valid()
      ensures r == Ok <==>
                && session in old(registered) && !f.load && !f.status
                && old(store.sessions)[session].status == SessionStatus.Running
                && (exitCode != 0 && old(store.sessions)[session].retryCount < maxAttempts ==> !f.schedule)
      ensures r == Ok ==> registered == old(registered) - {session} && threads == old(threads) - {session}
      ensures r == Ok ==> store.questions == Cleared(old(store.questions), session, f.questions)
      ensures r == Ok ==>
        store.tasks ==
          Moved(old(store.tasks), old(registered)[session].task, if exitCode == 0 then Review else Backlog, f.task)
      ensures r == Ok ==>
          store.sessions == old(store.sessions)[session := ExitedRow(old(store.sessions)[session], exitCode, now)]
      // In terms of the row alone: exit code 0 is success, and failures are retried up to `maxAttempts` times.
      ensures r == Ok ==>
        var was, row := old(store.sessions)[session], store.sessions[session];
        && row.task == was.task
        && row.status == (if exitCode == 0 then SessionStatus.Completed else SessionStatus.Failed)
        && if exitCode != 0 && was.retryCount < maxAttempts
           then
             && row.retryAt == Some(now + retryDelay(was.retryCount + 1))
             && row.retryCount == (if was.retryCount < 100 then was.retryCount + 1 else 100)
           else row.retryAt == was.retryAt && row.retryCount == was.retryCount
      ensures r != Ok ==> registered == old(registered) && threads == old(threads) && disposed == old(disposed)
      ensures r != Ok ==> store.tasks == old(store.tasks) && store.questions == old(store.questions)
      ensures r != Ok ==>
        store.sessions ==
          if session in old(registered) && !f.load && !f.status
            && old(store.sessions)[session].status == SessionStatus.Running
          then old(store.sessions)[session := old(store.sessions)[session].(status := SessionStatus.Failed)]
          else old(store.sessions)
    {
      if session !in registered || f.load { return NotFound; }
      r := RecordExit(session, exitCode, now, f);
      if r == Ok {
        Close(session, if exitCode == 0 then Review else Backlog, f);
      }
    }

    /** A stalled session is given up whatever its row says: a waiting row stays as it is. */
    method HandleStall(session: SessionId, f: EndFaults)
      requires Valid()
      modifies this`registered, this`disposed, this`threads, store`tasks, store`sessions, store`questions
      ensures Valid()
      ensures session !in old(registered) ==>
          registered == old(registered) && disposed == old(disposed) && threads == old(threads)
      ensures session !in old(registered) ==>
                store.tasks == old(store.tasks) && store.sessions == old(store.sessions)
                  && store.questions == old(store.questions)
      ensures session in old(registered) ==>
          registered == old(registered) - {session} && threads == old(threads) - {session}
      ensures session in old(registered) ==>
          store.tasks == Moved(old(store.tasks), old(registered)[session].task, Backlog, f.task)
      ensures session in old(registered) ==> store.questions == Cleared(old(store.questions), session, f.questions)
      ensures session in old(registered) ==>
                store.sessions == if old(store.sessions)[session].status == SessionStatus.Running && !f.status
                then old(store.sessions)[session := old(store.sessions)[session].(status := SessionStatus.Failed)]
                else old(store.sessions)
    {
      if session !in registered { return; }
      var _ := store.UpdateSessionStatus(session, SessionStatus.Failed, f.status);
      Close(session, Backlog, f);
    }

    method ShutdownOne(session: SessionId, tracked: Tracked, f: EndFaults)
      modifies this`disposed, this`threads, store`tasks, store`sessions, store`questions
      ensures disposed == old(disposed) + {tracked.backend} && threads == old(threads) - {session}
      ensures store.tasks == Moved(old(store.tasks), tracked.task, Backlog, f.task)
      ensures store.sessions ==
              if session in old(store.sessions)
                then old(store.sessions)[session := Stopped(old(store.sessions)[session], f.status)]
              else old(store.sessions)
      ensures store.questions == Cleared(old(store.questions), session, f.questions)
    {
      var _ := store.UpdateSessionStatus(session, SessionStatus.Cancelled, f.status);
      var _ := store.TransitionTask(tracked.task, Backlog, f.task);
      var _ := store.CancelPendingBySession(session, f.questions);
      disposed := disposed + {tracked.backend};
      threads := threads - {session};
    }

    // Who has been stopped so far, and what became of their rows.
    ghost predicate StoppedRows(before: map<SessionId, Session>, done: set<SessionId>, f: SessionId -> EndFaults)
      reads store
    {
      && store.sessions.Keys == before.Keys
      && forall s :: s in before ==>
           store.sessions[s] == if s in done then Stopped(before[s], f(s).status) else before[s]
    }

    method StopAll(snapshot: map<SessionId, Tracked>, f: SessionId -> EndFaults)
      modifies this`disposed, this`threads, store`tasks, store`sessions, store`questions
      ensures disposed == old(disposed) + Backends(snapshot)
      ensures threads == old(threads) - snapshot.Keys
      ensures StoppedRows(old(store.sessions), snapshot.Keys, f)
      ensures WithdrawnFor(old(store.questions), store.questions, snapshot.Keys, f)
      ensures TasksFreed(snapshot.Keys, f, snapshot, old(store.tasks), store.tasks)
    {
      var todo := snapshot.Keys;
      while todo != {}
        invariant todo <= snapshot.Keys
        invariant old(disposed) <= disposed <= old(disposed) + Backends(snapshot)
        invariant forall s :: s in snapshot && s !in todo ==> snapshot[s].backend in disposed
        invariant threads == old(threads) - (snapshot.Keys - todo)
        invariant StoppedRows(old(store.sessions), snapshot.Keys - todo, f)
        invariant WithdrawnFor(old(store.questions), store.questions, snapshot.Keys - todo, f)
        invariant TasksFreed(snapshot.Keys - todo, f, snapshot, old(store.tasks), store.tasks)
      {
        var s :| s in todo;
        OneMoreWithdrawn(old(store.questions), store.questions, snapshot.Keys - todo, f, s);
        OneFreed(snapshot.Keys - todo, s, f, snapshot, old(store.tasks), store.tasks);
        assert snapshot.Keys - (todo - {s}) == (snapshot.Keys - todo) + {s};
        ShutdownOne(s, snapshot[s], f(s));
        todo := todo - {s};
      }
    }

    /** Everything tracked is cancelled as well as may be, disposed of and forgotten. */
    method Shutdown(f: SessionId -> EndFaults)
      requires Valid()
      modifies this`registered, this`disposed, this`threads, store`tasks, store`sessions, store`questions
      ensures Valid() && registered == map[] && disposed == created
      ensures threads == old(threads) - old(registered).Keys
      ensures StoppedRows(old(store.sessions), old(registered).Keys, f)
      ensures WithdrawnFor(old(store.questions), store.questions, old(registered).Keys, f)
      ensures TasksFreed(old(registered).Keys, f, old(registered), old(store.tasks), store.tasks)
    {
      StopAll(registered, f);
      registered := map[];
    }

    /** Delivers an answer to a waiting session; a session nobody tracks any more is cancelled instead. */
    method SendHITLAnswer(session: SessionId, answer: string, f: SendFaults) returns (r: SendResult)
      requires Valid()
      modifies this`threads, this`prompts, store`tasks, store`sessions, store`questions
      ensures Valid()
      ensures store.sessions.Keys == old(store.sessions).Keys
      ensures forall s :: s in store.sessions && s != session ==> store.sessions[s] == old(store.sessions)[s]
      ensures session in store.sessions && old(store.sessions)[session].status == WaitingHitl ==>
                (r == SendFailed ==> !f.rollback) ==>
                store.sessions[session] == old(store.sessions)[session].(status := StatusAfter(r))
      ensures r == SendFailed && !f.prompt ==> store.sessions == old(store.sessions)
      ensures session in store.sessions
                && !SessionAllowed(old(store.sessions)[session].status, SessionStatus.Running) ==>
                  store.sessions == old(store.sessions)
      ensures r == Delivered ==> session in registered && prompts == old(prompts) + [(session, answer)]
      ensures r != Delivered ==> prompts == old(prompts)
      ensures r == Delivered <==>
                && session in registered && SessionAllowed(old(store.sessions)[session].status, SessionStatus.Running)
                     && !f.run && !f.prompt
      ensures r == SessionUnavailable <==>
                && session !in registered && session in old(store.sessions) && !f.load
                && (old(store.sessions)[session].status == WaitingHitl ==> !f.cancel)
      ensures r == SessionUnavailable && old(store.sessions)[session].status == WaitingHitl ==>
                && store.tasks == Moved(old(store.tasks), old(store.sessions)[session].task, Backlog, f.task)
                && store.questions == Cleared(old(store.questions), session, f.questions)
                && threads == old(threads) - {session}
      ensures !(r == SessionUnavailable && old(store.sessions)[session].status == WaitingHitl) ==>
                store.tasks == old(store.tasks) && store.questions == old(store.questions) && threads == old(threads)
    {
      if session !in registered {
        if f.load || session !in store.sessions { return SendFailed; }
        var row := store.sessions[session];
        if row.status == WaitingHitl {
          var cancelled := store.UpdateSessionStatus(session, SessionStatus.Cancelled, f.cancel);
          if cancelled != Ok { return SendFailed; }
          var _ := store.TransitionTask(row.task, Backlog, f.task);
          var _ := store.CancelPendingBySession(session, f.questions);
          threads := threads - {session};
        }
        return SessionUnavailable;
      }
      var resumed := store.UpdateSessionStatus(session, SessionStatus.Running, f.run);
      if resumed != Ok { return SendFailed; }
      if f.prompt {
        var _ := store.UpdateSessionStatus(session, WaitingHitl, f.rollback);
        return SendFailed;
      }
      prompts := prompts + [(session, answer)];
      r := Delivered;
    }
  }
}
