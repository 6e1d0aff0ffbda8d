/**
 * Who owns a task: any number of dispatches, cancellations, completions and stalls interleaved
 * repository call by repository call.
 */
module Ownership {
  import opened Domain
  import Runs

  // A dispatch, named by the session id it chose.
  datatype Dispatch =
    | Loaded     // found the task in the backlog
    | Ready      // its session row exists
    | Owning     // moved the task to in_progress
    | Launched   // its session row is running
    | Reverting  // failed later on, about to give the task back
    | Losing     // could not take the task, cleaning up its own session only

  // A cancellation, completion or stall of a tracked session, past its lookup.
  datatype Handler =
    | LookedUp(session: SessionId, to: SessionStatus, stall: bool)
    | GoesOn(session: SessionId, to: SessionStatus, stall: bool)  // it ended the row, or is a stall and does not mind
    | LetGo(session: SessionId, stall: bool)                      // it has moved the task, or tried to

  type HandlerId = Id

  datatype State = State(
    tasks: map<TaskId, TaskStatus>,
    rows: map<SessionId, SessionStatus>,
    taskOf: map<SessionId, TaskId>,
    dispatches: map<SessionId, Dispatch>,
    tracked: set<SessionId>,
    handlers: map<HandlerId, Handler>)

  const START := State(map[], map[], map[], map[], {}, map[])

  // A call that fails may or may not have taken effect.
  datatype Reply = Success | Failure | LostReply

  datatype DispatchCall =
    | CreateRow(ok: bool)
    | Take(reply: Reply)
    | Launch
    | Break(rowFails: bool)  // any later failure, a Launch whose reply was lost included
    | Revert(effect: bool)
    | GiveUp
    | Register

  datatype HandlerCall =
    | EndRow(reply: Reply)
    | Abandon                // the retry could not be scheduled
    | MoveTask(effect: bool)
    | Dispose

  datatype Event =
    | NewTask(task: TaskId)
    | Begin(d: SessionId, task: TaskId)
    | Lookup(h: HandlerId, session: SessionId, to: SessionStatus, stall: bool)
    | Flip(session: SessionId)  // running <-> waiting_hitl
    | CancelUntracked(session: SessionId)
    | ByDispatch(d: SessionId, dcall: DispatchCall)
    | ByHandler(h: HandlerId, hcall: HandlerCall)

  function TaskOf(s: State, session: SessionId): TaskId {
    if session in s.taskOf then s.taskOf[session] else 0
  }

  predicate RowAllows(s: State, session: SessionId, to: SessionStatus) {
    session in s.rows && SessionAllowed(s.rows[session], to)
  }

  predicate RowIs(s: State, session: SessionId, status: SessionStatus) {
    session in s.rows && s.rows[session] == status
  }

  predicate CanMove(s: State, task: TaskId, to: TaskStatus) {
    task in s.tasks && TaskAllowed(s.tasks[task], to)
  }

  function Moved(s: State, task: TaskId, to: TaskStatus, effect: bool): map<TaskId, TaskStatus> {
    if effect && CanMove(s, task, to) then s.tasks[task := to] else s.tasks
  }

  function RowFailed(s: State, session: SessionId, effect: bool): map<SessionId, SessionStatus> {
    if effect && RowAllows(s, session, Failed) then s.rows[session := Failed] else s.rows
  }

  function TaskAfter(to: SessionStatus): TaskStatus {
    if to == Completed then Review else Backlog
  }

  predicate Attends(s: State, h: HandlerId, session: SessionId) {
    h in s.handlers && s.handlers[h].session == session
  }

  function StepDispatch(s: State, d: SessionId, call: DispatchCall): Option<State>
    requires d in s.dispatches
  {
    match (call, s.dispatches[d])
    case (CreateRow(ok), Loaded) =>
      if !ok then Some(s.(dispatches := s.dispatches - {d}))
      else if d in s.rows then None
      else Some(s.(rows := s.rows[d := Pending], dispatches := s.dispatches[d := Ready]))
    case (Take(reply), Ready) =>
      if reply == Failure then Some(s.(dispatches := s.dispatches[d := Losing]))
      else if !CanMove(s, TaskOf(s, d), InProgress) then None
      else Some(s.(tasks := s.tasks[TaskOf(s, d) := InProgress],
                   dispatches := s.dispatches[d := if reply == Success then Owning else Losing]))
    case (Launch, Owning) =>
      if RowAllows(s, d, Running)
        then Some(s.(rows := s.rows[d := Running], dispatches := s.dispatches[d := Launched])) else None
    case (Break(rowFails), Owning) =>
      Some(s.(rows := RowFailed(s, d, rowFails), dispatches := s.dispatches[d := Reverting]))
    case (Break(rowFails), Launched) =>
      Some(s.(rows := RowFailed(s, d, rowFails), dispatches := s.dispatches[d := Reverting]))
    case (Revert(effect), Reverting) =>
      Some(s.(tasks := Moved(s, TaskOf(s, d), Backlog, effect), dispatches := s.dispatches - {d}))
    case (GiveUp, Losing) => Some(s.(dispatches := s.dispatches - {d}))
    case (Register, Launched) => Some(s.(tracked := s.tracked + {d}, dispatches := s.dispatches - {d}))
    case _ => None
  }

  function StepHandler(s: State, h: HandlerId, call: HandlerCall): Option<State>
    requires h in s.handlers
  {
    match (call, s.handlers[h])
    case (EndRow(reply), LookedUp(session, _, true)) =>
      Some(s.(rows := RowFailed(s, session, reply != Failure),
        handlers := s.handlers[h := GoesOn(session, Failed, true)]))
    case (EndRow(reply), LookedUp(session, to, false)) =>
      if reply == Failure then Some(s.(handlers := s.handlers - {h}))
      else if !RowAllows(s, session, to) then None
      else if reply == Success
        then Some(s.(rows := s.rows[session := to], handlers := s.handlers[h := GoesOn(session, to, false)]))
      else Some(s.(rows := s.rows[session := to], handlers := s.handlers - {h}))
    case (Abandon, GoesOn(_, _, false)) => Some(s.(handlers := s.handlers - {h}))
    case (MoveTask(effect), GoesOn(session, to, stall)) =>
      Some(s.(tasks := Moved(s, TaskOf(s, session), TaskAfter(to), effect),
        handlers := s.handlers[h := LetGo(session, stall)]))
    case (Dispose, LetGo(session, _)) => Some(s.(tracked := s.tracked - {session}, handlers := s.handlers - {h}))
    case _ => None
  }

  function StepArrival(s: State, e: Event): Option<State> {
    match e
    case NewTask(task) => if task in s.tasks then None else Some(s.(tasks := s.tasks[task := Backlog]))
    case Begin(d, task) =>
      if d !in s.taskOf && task in s.tasks && s.tasks[task] == Backlog
      then Some(s.(taskOf := s.taskOf[d := task], dispatches := s.dispatches[d := Loaded])) else None
    case Lookup(h, session, to, stall) =>
      if h !in s.handlers && session in s.tracked && Terminal(to) && (stall ==> to == Failed)
      then Some(s.(handlers := s.handlers[h := LookedUp(session, to, stall)])) else None
    case Flip(session) =>
      if RowAllows(s, session, WaitingHitl) then Some(s.(rows := s.rows[session := WaitingHitl]))
      else if RowIs(s, session, WaitingHitl) then Some(s.(rows := s.rows[session := Running]))
      else None
    case CancelUntracked(session) =>
      if session !in s.tracked && (RowAllows(s, session, Cancelled) || RowIs(s, session, Cancelled))
      then Some(s.(rows := s.rows[session := Cancelled], tasks := Moved(s, TaskOf(s, session), Backlog, true)))
      else None
    case _ => None
  }

  function Step(s: State, e: Event): Option<State> {
    match e
    case ByDispatch(d, call) => if d in s.dispatches then StepDispatch(s, d, call) else None
    case ByHandler(h, call) => if h in s.handlers then StepHandler(s, h, call) else None
    case _ => StepArrival(s, e)
  }

  // A rule of the road: which events may happen when.
  type Guard = (State, Event) -> bool

  // Endings of sessions are all that the rule holds back: who looks a session up, who goes on, who cancels.
  ghost predicate OnEndings(guard: Guard) {
    forall s: State, e: Event ::
      !(e.Lookup? || e.CancelUntracked? || (e.ByHandler? && e.hcall.EndRow?)) ==> guard(s, e)
  }

  ghost predicate Behaviour(guard: Guard, ss: seq<State>) {
    Runs.Behaviour(START, Runs.Under(Step, guard), ss)
  }

  ghost predicate Reachable(guard: Guard, s: State) {
    Runs.Reachable(START, Runs.Under(Step, guard), s)
  }

  // ---------------------------------------------------------------------------
  // Owners
  // ---------------------------------------------------------------------------

  // Handler h is past the point where it gives up the task.
  predicate Releases(s: State, h: HandlerId, session: SessionId) {
    Attends(s, h, session) && s.handlers[h].LetGo?
  }

  ghost predicate Released(s: State, session: SessionId) {
    exists h :: Releases(s, h, session)
  }

  predicate Dispatching(s: State, session: SessionId) {
    session in s.dispatches && s.dispatches[session] in {Owning, Launched, Reverting}
  }

  /** A session owns its task from its dispatch's successful take until a handler moves the task on. */
  ghost predicate Owns(s: State, session: SessionId) {
    Dispatching(s, session) || (session in s.tracked && !Released(s, session))
  }

  ghost predicate OwnsTask(s: State, owner: SessionId, task: TaskId) {
    Owns(s, owner) && TaskOf(s, owner) == task
  }

  predicate GoneOn(s: State, h: HandlerId, session: SessionId) {
    Attends(s, h, session) && !s.handlers[h].LookedUp?
  }

  // Whether the event makes handler h go on.
  predicate MakesGoOn(s: State, e: Event, h: HandlerId) {
    && e.ByHandler? && e.h == h && h in s.handlers && s.handlers[h].LookedUp? && e.hcall.EndRow?
    && (s.handlers[h].stall || e.hcall.reply == Success)
  }

  /**
   * A handler goes on although another handler of its session has, or has already disposed of the
   * session; or an untracked session is cancelled whose task somebody owns.
   */
  ghost predicate Clash(s: State, e: Event) {
    match e
    case ByHandler(h, _) =>
      MakesGoOn(s, e, h) &&
      var session := s.handlers[h].session;
      session !in s.tracked || exists k :: k != h && GoneOn(s, k, session)
    case CancelUntracked(session) => exists owner :: OwnsTask(s, owner, TaskOf(s, session))
    case _ => false
  }

  // ---------------------------------------------------------------------------
  // Invariants
  // ---------------------------------------------------------------------------

  predicate SessionOk(s: State, session: SessionId) {
    && (session in s.dispatches || session in s.tracked || session in s.rows ==>
         session in s.taskOf && s.taskOf[session] in s.tasks)
    && !(session in s.dispatches && session in s.tracked)
    && (session in s.dispatches && s.dispatches[session] == Loaded ==> session !in s.rows)
  }

  // A handler's session is past its dispatch.
  predicate HandlerKnown(s: State, h: HandlerId) {
    h in s.handlers ==>
      var session := s.handlers[h].session;
      session in s.taskOf && s.taskOf[session] in s.tasks && session !in s.dispatches
  }

  // What every step keeps.
  ghost predicate Base(s: State) {
    && (forall session {:trigger SessionOk(s, session)} :: SessionOk(s, session))
    && (forall h {:trigger HandlerKnown(s, h)} :: HandlerKnown(s, h))
  }

  predicate HandlerOk(s: State, h: HandlerId) {
    h in s.handlers && !s.handlers[h].LookedUp? ==> s.handlers[h].session in s.tracked
  }

  // Of two handlers of one session, one at most has gone on.
  predicate PairOk(s: State, h: HandlerId, k: HandlerId) {
    h in s.handlers && k in s.handlers && h != k && s.handlers[h].session == s.handlers[k].session ==>
      s.handlers[h].LookedUp? || s.handlers[k].LookedUp?
  }

  ghost predicate OwnerOk(s: State, session: SessionId) {
    Owns(s, session) ==> TaskOf(s, session) in s.tasks && s.tasks[TaskOf(s, session)] == InProgress
  }

  ghost predicate OneOwner(s: State, a: SessionId, b: SessionId) {
    Owns(s, a) && Owns(s, b) && TaskOf(s, a) == TaskOf(s, b) ==> a == b
  }

  ghost predicate Inv(s: State) {
    && Base(s)
    && (forall h {:trigger HandlerOk(s, h)} :: HandlerOk(s, h))
    && (forall h, k {:trigger PairOk(s, h, k)} :: PairOk(s, h, k))
    && (forall session {:trigger OwnerOk(s, session)} :: OwnerOk(s, session))
    && (forall a, b {:trigger OneOwner(s, a, b)} :: OneOwner(s, a, b))
  }

  lemma DispatchKeepsSession(s: State, d: SessionId, call: DispatchCall, s': State, x: SessionId)
    requires d in s.dispatches && StepDispatch(s, d, call) == Some(s') && SessionOk(s, x) && SessionOk(s, d)
    ensures SessionOk(s', x)
  {
  }

  lemma HandlerKeepsSession(s: State, h: HandlerId, call: HandlerCall, s': State, x: SessionId)
    requires h in s.handlers && StepHandler(s, h, call) == Some(s') && SessionOk(s, x)
    ensures SessionOk(s', x)
  {
  }

  lemma ArrivalKeepsSession(s: State, e: Event, s': State, x: SessionId)
    requires StepArrival(s, e) == Some(s') && SessionOk(s, x)
    ensures SessionOk(s', x)
  {
  }

  lemma HandlerKeepsKnown(s: State, c: HandlerId, call: HandlerCall, s': State, h: HandlerId)
    requires c in s.handlers && StepHandler(s, c, call) == Some(s') && HandlerKnown(s, h) && HandlerKnown(s, c)
    ensures HandlerKnown(s', h)
  {
  }

  lemma StepKeepsKnown(s: State, e: Event, s': State, h: HandlerId)
    requires Step(s, e) == Some(s') && HandlerKnown(s, h)
    requires e.ByHandler? ==> HandlerKnown(s, e.h)
    requires e.Lookup? ==> SessionOk(s, e.session)
    ensures HandlerKnown(s', h)
  {
    if e.ByHandler? {
      HandlerKeepsKnown(s, e.h, e.hcall, s', h);
    }
  }

  lemma StepKeepsBase(s: State, e: Event, s': State)
    requires Base(s) && Step(s, e) == Some(s')
    ensures Base(s')
  {
    forall x ensures SessionOk(s', x) {
      assert SessionOk(s, x);
      match e {
        case ByDispatch(d, call) => assert SessionOk(s, d); DispatchKeepsSession(s, d, call, s', x);
        case ByHandler(h, call) => HandlerKeepsSession(s, h, call, s', x);
        case _ => ArrivalKeepsSession(s, e, s', x);
      }
    }
    forall h ensures HandlerKnown(s', h) {
      assert HandlerKnown(s, h) && (e.ByHandler? ==> HandlerKnown(s, e.h)) && (e.Lookup? ==> SessionOk(s, e.session));
      StepKeepsKnown(s, e, s', h);
    }
  }

  lemma HandlerKeepsHandler(s: State, c: HandlerId, call: HandlerCall, s': State, h: HandlerId)
    requires c in s.handlers && StepHandler(s, c, call) == Some(s') && HandlerOk(s, h) && PairOk(s, h, c)
    requires MakesGoOn(s, ByHandler(c, call), c) ==> s.handlers[c].session in s.tracked
    ensures HandlerOk(s', h)
  {
  }

  lemma StepKeepsHandler(s: State, e: Event, s': State, h: HandlerId)
    requires Step(s, e) == Some(s') && !Clash(s, e) && HandlerOk(s, h)
    requires e.ByHandler? ==> PairOk(s, h, e.h)
    ensures HandlerOk(s', h)
  {
    match e
    case ByHandler(c, call) => HandlerKeepsHandler(s, c, call, s', h);
    case _ =>
  }

  lemma HandlerKeepsPair(s: State, c: HandlerId, call: HandlerCall, s': State, h: HandlerId, k: HandlerId)
    requires c in s.handlers && StepHandler(s, c, call) == Some(s') && PairOk(s, h, k) && h != k
    requires c == h && MakesGoOn(s, ByHandler(c, call), c) ==> !GoneOn(s, k, s.handlers[c].session)
    requires c == k && MakesGoOn(s, ByHandler(c, call), c) ==> !GoneOn(s, h, s.handlers[c].session)
    ensures PairOk(s', h, k)
  {
  }

  lemma StepKeepsPair(s: State, e: Event, s': State, h: HandlerId, k: HandlerId)
    requires Step(s, e) == Some(s') && !Clash(s, e) && PairOk(s, h, k)
    ensures PairOk(s', h, k)
  {
    match e
    case ByHandler(c, call) => if h != k { HandlerKeepsPair(s, c, call, s', h, k); }
    case _ =>
  }

  /** The session on whose behalf an event tries to move a task out of in_progress. */
  function Mover(s: State, e: Event): Option<SessionId> {
    match e
    case ByDispatch(d, Revert(_)) => Some(d)
    case ByHandler(h, MoveTask(_)) => if h in s.handlers then Some(s.handlers[h].session) else None
    case CancelUntracked(session) => Some(session)
    case _ => None
  }

  lemma HandlerKeepsRelease(s: State, c: HandlerId, call: HandlerCall, s': State, h: HandlerId, x: SessionId)
    requires c in s.handlers && StepHandler(s, c, call) == Some(s') && Releases(s, h, x)
    ensures Releases(s', h, x) || x !in s'.tracked
  {
  }

  lemma ReleaseLasts(s: State, e: Event, s': State, h: HandlerId, x: SessionId)
    requires Step(s, e) == Some(s') && Releases(s, h, x)
    ensures Releases(s', h, x) || x !in s'.tracked
  {
    match e
    case ByHandler(c, call) => HandlerKeepsRelease(s, c, call, s', h, x);
    case _ =>
  }

  // A session comes to dispatch, or to be tracked, only through its own dispatch.
  lemma DispatchArrives(s: State, d: SessionId, call: DispatchCall, s': State, x: SessionId)
    requires d in s.dispatches && StepDispatch(s, d, call) == Some(s')
    requires !Dispatching(s, x) && (Dispatching(s', x) || (x in s'.tracked && x !in s.tracked))
    ensures d == x && call == Take(Success) && TaskOf(s', x) == TaskOf(s, x)
    ensures CanMove(s, TaskOf(s, x), InProgress) && s'.tasks == s.tasks[TaskOf(s, x) := InProgress]
  {
  }

  lemma Arrives(s: State, e: Event, s': State, x: SessionId)
    requires Step(s, e) == Some(s') && !Dispatching(s, x)
        && (Dispatching(s', x) || (x in s'.tracked && x !in s.tracked))
    ensures e == ByDispatch(x, Take(Success)) && TaskOf(s', x) == TaskOf(s, x)
    ensures CanMove(s, TaskOf(s, x), InProgress) && s'.tasks == s.tasks[TaskOf(s, x) := InProgress]
  {
    match e
    case ByDispatch(d, call) => DispatchArrives(s, d, call, s', x);
    case _ =>
  }

  // A session comes to own its task only through its own dispatch's take.
  lemma BecomesOwner(s: State, e: Event, s': State, x: SessionId)
    requires Step(s, e) == Some(s') && Owns(s', x) && !Owns(s, x)
    ensures e == ByDispatch(x, Take(Success)) && TaskOf(s', x) == TaskOf(s, x)
    ensures CanMove(s, TaskOf(s, x), InProgress) && s'.tasks == s.tasks[TaskOf(s, x) := InProgress]
  {
    if Dispatching(s', x) || x !in s.tracked {
      Arrives(s, e, s', x);
    } else {
      var h :| Releases(s, h, x);
      ReleaseLasts(s, e, s', h, x);
    }
  }

  // A handler that is about to move a task acts for its owner.
  lemma GoesOnForOwner(s: State, h: HandlerId)
    requires h in s.handlers && s.handlers[h].GoesOn? && HandlerOk(s, h)
    requires forall k {:trigger PairOk(s, h, k)} :: PairOk(s, h, k)
    ensures Owns(s, s.handlers[h].session)
  {
    forall k ensures !Releases(s, k, s.handlers[h].session) {
      assert PairOk(s, h, k);
    }
  }

  // Whoever moves a task owns it before, and does not afterwards; a cancellation finds a task nobody owns.
  lemma MoverLetsGo(s: State, e: Event, s': State, x: SessionId)
    requires Inv(s) && Step(s, e) == Some(s') && !Clash(s, e) && Mover(s, e) == Some(x)
    ensures e.CancelUntracked? ==> forall owner :: !OwnsTask(s, owner, TaskOf(s, x))
    ensures !e.CancelUntracked? ==> Owns(s, x) && !Owns(s', x)
  {
    match e
    case ByHandler(h, _) =>
      assert HandlerOk(s, h) && HandlerKnown(s, h);
      GoesOnForOwner(s, h);
      assert Releases(s', h, x);
    case ByDispatch(d, _) => assert SessionOk(s, d);
    case _ =>
  }

  // A task leaves in_progress only by the hand of a session of that task.
  lemma TaskLeaves(s: State, e: Event, s': State, t: TaskId)
    requires Step(s, e) == Some(s') && t in s.tasks && s.tasks[t] == InProgress
    ensures t in s'.tasks
    ensures s'.tasks[t] != InProgress ==> Mover(s, e).Some? && TaskOf(s, Mover(s, e).value) == t
  {
  }

  lemma StepKeepsTask(s: State, e: Event, s': State, x: SessionId)
    requires Step(s, e) == Some(s') && SessionOk(s, x) && Owns(s, x)
    ensures TaskOf(s', x) == TaskOf(s, x)
  {
  }

  // An owner was one before, or has just taken a task that was not in progress.
  lemma OwnedBefore(s: State, e: Event, s': State, x: SessionId)
    requires Inv(s) && Step(s, e) == Some(s') && Owns(s', x)
    ensures TaskOf(s', x) == TaskOf(s, x)
    ensures Owns(s, x) || (e == ByDispatch(x, Take(Success)) && CanMove(s, TaskOf(s, x), InProgress))
  {
    assert SessionOk(s, x);
    if Owns(s, x) {
      StepKeepsTask(s, e, s', x);
    } else {
      BecomesOwner(s, e, s', x);
    }
  }

  lemma StepKeepsOwner(s: State, e: Event, s': State, x: SessionId)
    requires Inv(s) && Step(s, e) == Some(s') && !Clash(s, e)
    ensures OwnerOk(s', x)
  {
    if Owns(s', x) {
      assert OwnerOk(s, x) && SessionOk(s, x);
      if !Owns(s, x) {
        BecomesOwner(s, e, s', x);
      } else {
        StepKeepsTask(s, e, s', x);
        TaskLeaves(s, e, s', TaskOf(s, x));
        if Mover(s, e).Some? {
          var m := Mover(s, e).value;
          MoverLetsGo(s, e, s', m);
          assert OneOwner(s, x, m) && (OwnsTask(s, x, TaskOf(s, m)) <==> TaskOf(s, x) == TaskOf(s, m));
        }
      }
    }
  }

  lemma StepKeepsOneOwner(s: State, e: Event, s': State, a: SessionId, b: SessionId)
    requires Inv(s) && Step(s, e) == Some(s')
    ensures OneOwner(s', a, b)
  {
    assert OneOwner(s, a, b) && OwnerOk(s, a) && OwnerOk(s, b);
    if Owns(s', a) && Owns(s', b) {
      OwnedBefore(s, e, s', a);
      OwnedBefore(s, e, s', b);
    }
  }

  lemma StepKeepsInv(s: State, e: Event, s': State)
    requires Inv(s) && Step(s, e) == Some(s') && !Clash(s, e)
    ensures Inv(s')
  {
    StepKeepsBase(s, e, s');
    forall x ensures OwnerOk(s', x) {
      StepKeepsOwner(s, e, s', x);
    }
    forall h ensures HandlerOk(s', h) {
      assert HandlerOk(s, h) && (e.ByHandler? ==> PairOk(s, h, e.h));
      StepKeepsHandler(s, e, s', h);
    }
    forall h, k ensures PairOk(s', h, k) {
      assert PairOk(s, h, k);
      StepKeepsPair(s, e, s', h, k);
    }
    forall a, b ensures OneOwner(s', a, b) {
      StepKeepsOneOwner(s, e, s', a, b);
    }
  }

  // No run under the rule clashes.
  ghost predicate NeverClashes(guard: Guard) {
    forall s: State, e: Event :: Reachable(guard, s) && guard(s, e) && Step(s, e).Some? ==> !Clash(s, e)
  }

  lemma {:induction false} BaseHolds(guard: Guard, ss: seq<State>, i: nat)
    requires Behaviour(guard, ss) && i < |ss|
    ensures Base(ss[i])
  {
    if i > 0 {
      BaseHolds(guard, ss, i - 1);
      var e := Runs.EventAt(START, Runs.Under(Step, guard), ss, i);
      StepKeepsBase(ss[i - 1], e, ss[i]);
    }
  }

  lemma {:induction false} InvHolds(guard: Guard, ss: seq<State>, i: nat)
    requires Behaviour(guard, ss) && i < |ss| && NeverClashes(guard)
    ensures Inv(ss[i])
  {
    if i > 0 {
      InvHolds(guard, ss, i - 1);
      var e := Runs.EventAt(START, Runs.Under(Step, guard), ss, i);
      Runs.PassedIsReachable(START, Runs.Under(Step, guard), ss, i - 1);
      StepKeepsInv(ss[i - 1], e, ss[i]);
    }
  }

  // ---------------------------------------------------------------------------
  // Results
  // ---------------------------------------------------------------------------

  /** Every owned task is in progress, and has one owner. */
  ghost predicate Owned(s: State) {
    && (forall session :: Owns(s, session) ==>
         TaskOf(s, session) in s.tasks && s.tasks[TaskOf(s, session)] == InProgress)
    && (forall a, b :: Owns(s, a) && Owns(s, b) && TaskOf(s, a) == TaskOf(s, b) ==> a == b)
  }

  /** Besides, handlers that are about to move a task act for its owner. */
  ghost predicate Kept(s: State) {
    && Owned(s)
    && forall h :: h in s.handlers && s.handlers[h].GoesOn? ==> Owns(s, s.handlers[h].session)
  }

  ghost predicate AlwaysKept(guard: Guard) {
    forall s {:trigger Reachable(guard, s)} :: Reachable(guard, s) ==> Kept(s)
  }

  /** Without a clash, every owned task is in progress and has one owner, who alone is acted for, after every run. */
  lemma OwnedThroughout(guard: Guard, ss: seq<State>, i: nat)
    requires Behaviour(guard, ss) && i < |ss| && NeverClashes(guard)
    ensures Kept(ss[i])
  {
    InvHolds(guard, ss, i);
    var s := ss[i];
    forall a, b | Owns(s, a) && Owns(s, b) && TaskOf(s, a) == TaskOf(s, b) ensures a == b {
      assert OneOwner(s, a, b);
    }
    forall a | Owns(s, a) ensures TaskOf(s, a) in s.tasks && s.tasks[TaskOf(s, a)] == InProgress {
      assert OwnerOk(s, a);
    }
    forall h | h in s.handlers && s.handlers[h].GoesOn? ensures Owns(s, s.handlers[h].session) {
      assert HandlerOk(s, h);
      GoesOnForOwner(s, h);
    }
  }

  /** While a session owns a task no other session moves it: a losing dispatch's cleanup, above all, never does. */
  lemma OnlyTheOwnerMovesItsTask(guard: Guard, ss: seq<State>, i: nat, e: Event, owner: SessionId)
    requires Behaviour(guard, ss) && i + 1 < |ss| && NeverClashes(guard)
    requires guard(ss[i], e) && Step(ss[i], e) == Some(ss[i + 1]) && Owns(ss[i], owner)
    ensures TaskOf(ss[i], owner) in ss[i].tasks && TaskOf(ss[i], owner) in ss[i + 1].tasks
    ensures ss[i + 1].tasks[TaskOf(ss[i], owner)] != ss[i].tasks[TaskOf(ss[i], owner)] ==>
        Mover(ss[i], e) == Some(owner)
    ensures Mover(ss[i], e) == Some(owner) ==> !Owns(ss[i + 1], owner)
  {
    InvHolds(guard, ss, i);
    Runs.PassedIsReachable(START, Runs.Under(Step, guard), ss, i);
    var s := ss[i];
    assert OwnerOk(s, owner);
    TaskLeaves(s, e, ss[i + 1], TaskOf(s, owner));
    if Mover(s, e).Some? {
      var m := Mover(s, e).value;
      MoverLetsGo(s, e, ss[i + 1], m);
      assert OneOwner(s, owner, m) && (OwnsTask(s, owner, TaskOf(s, m)) <==> TaskOf(s, owner) == TaskOf(s, m));
    }
  }

  lemma Extend(guard: Guard, s: State, e: Event, s': State)
    requires Reachable(guard, s) && guard(s, e) && Step(s, e).Some? && Step(s, e).value == s'
    ensures Reachable(guard, s')
  {
    Runs.Extend(START, Runs.Under(Step, guard), s, e, s');
  }

  // A second handler that goes on acts for a session that does not own its task, once the first has moved it.
  lemma GoingOnBreaks(guard: Guard, s: State, h: HandlerId, e: Event, s': State)
    requires OnEndings(guard) && Reachable(guard, s) && Base(s) && guard(s, e) && Step(s, e) == Some(s')
    requires MakesGoOn(s, e, h) && Clash(s, e)
    ensures !AlwaysKept(guard)
  {
    var session := s.handlers[h].session;
    Extend(guard, s, e, s');
    assert HandlerKnown(s, h) && s'.handlers[h].GoesOn? && s'.handlers[h].session == session;
    if k :| k != h && GoneOn(s, k, session) {
      if s.handlers[k].LetGo? {
        assert Releases(s', k, session) && !Kept(s');
      } else {
        var move := ByHandler(k, MoveTask(true));
        var s2 := Step(s', move).value;
        Extend(guard, s', move, s2);
        assert Releases(s2, k, session) && s2.handlers[h].GoesOn? && !Kept(s2);
      }
    } else {
      assert !Kept(s');
    }
  }

  lemma CancellingBreaks(guard: Guard, s: State, session: SessionId, s': State)
    requires Reachable(guard, s) && guard(s, CancelUntracked(session)) && Step(s, CancelUntracked(session)) == Some(s')
    requires Clash(s, CancelUntracked(session))
    ensures !AlwaysKept(guard)
  {
    var owner :| OwnsTask(s, owner, TaskOf(s, session));
    Extend(guard, s, CancelUntracked(session), s');
    assert forall h :: Releases(s', h, owner) <==> Releases(s, h, owner);
    assert Kept(s) ==> Owns(s', owner) && !Kept(s');
  }

  /**
   * The exact rule: whatever condition is put on the ends of sessions, every run under it keeps owners
   * and their tasks together if and only if no run under it clashes.
   */
  lemma KeptIffNeverClashes(guard: Guard)
    requires OnEndings(guard)
    ensures AlwaysKept(guard) <==> NeverClashes(guard)
  {
    if NeverClashes(guard) {
      forall s | Reachable(guard, s) ensures Kept(s) {
        var ss :| Runs.Ends(START, Runs.Under(Step, guard), ss, s);
        OwnedThroughout(guard, ss, |ss| - 1);
      }
    } else {
      var s: State, e: Event :| Reachable(guard, s) && guard(s, e) && Step(s, e).Some? && Clash(s, e);
      var ss :| Runs.Ends(START, Runs.Under(Step, guard), ss, s);
      BaseHolds(guard, ss, |ss| - 1);
      match e {
        case ByHandler(h, _) => GoingOnBreaks(guard, s, h, e, Step(s, e).value);
        case CancelUntracked(session) => CancellingBreaks(guard, s, session, Step(s, e).value);
        case _ => assert false;
      }
    }
  }

  // ---------------------------------------------------------------------------
  // A rule that works
  // ---------------------------------------------------------------------------

  // The row would have ended once handler h's update is through, if it goes through.
  predicate EndsRow(s: State, session: SessionId, reply: Reply) {
    RowEnded(s, session) || (reply != Failure && RowAllows(s, session, Failed))
  }

  predicate RowEnded(s: State, session: SessionId) {
    session in s.rows && Terminal(s.rows[session])
  }

  /**
   * A stall goes on only if its session is still tracked and nobody else has gone on, and either it is
   * alone or the row has ended; nobody looks a session up beside a stall that left the row alive; and
   * only tracked sessions are cancelled. Completions and cancellations need no rule: the row decides.
   */
  ghost predicate Calm(s: State, e: Event) {
    match e
    case Lookup(_, session, _, _) => RowEnded(s, session) || !exists k :: GoneOn(s, k, session) && s.handlers[k].stall
    case ByHandler(h, EndRow(reply)) =>
      h in s.handlers && s.handlers[h].LookedUp? && s.handlers[h].stall ==>
        var session := s.handlers[h].session;
        && session in s.tracked && !(exists k :: GoneOn(s, k, session))
        && (EndsRow(s, session, reply) || !exists k :: k != h && Attends(s, k, session))
    case CancelUntracked(_) => false
    case _ => true
  }

  ghost const CALM: Guard := (s: State, e: Event) => Calm(s, e)

  predicate CalmHandler(s: State, h: HandlerId) {
    h in s.handlers ==>
      var session := s.handlers[h].session;
      if s.handlers[h].LookedUp? then Terminal(s.handlers[h].to) && (session in s.tracked || RowEnded(s, session))
      else s.handlers[h].stall || RowEnded(s, session)
  }

  predicate CalmPair(s: State, h: HandlerId, k: HandlerId) {
    h in s.handlers && s.handlers[h].LookedUp? && GoneOn(s, k, s.handlers[h].session) ==>
      RowEnded(s, s.handlers[h].session)
  }

  ghost predicate CalmInv(s: State) {
    && (forall session {:trigger SessionOk(s, session)} :: SessionOk(s, session))
    && (forall h {:trigger CalmHandler(s, h)} :: CalmHandler(s, h))
    && (forall h, k {:trigger CalmPair(s, h, k)} :: CalmPair(s, h, k))
  }

  lemma CalmDoesNotClash(s: State, e: Event)
    requires CalmInv(s) && Calm(s, e) && Step(s, e).Some?
    ensures !Clash(s, e)
  {
    if e.ByHandler? && e.h in s.handlers {
      assert CalmHandler(s, e.h);
      forall k | k != e.h && GoneOn(s, k, s.handlers[e.h].session) ensures !MakesGoOn(s, e, e.h) {
        assert CalmPair(s, e.h, k);
      }
    }
  }

  // Rows that have ended stay so.
  lemma RowStaysEnded(s: State, e: Event, s': State, session: SessionId)
    requires Step(s, e) == Some(s') && RowEnded(s, session) && SessionOk(s, session)
    requires e.ByDispatch? ==> SessionOk(s, e.d)
    requires !e.CancelUntracked?
    ensures RowEnded(s', session)
  {
  }

  lemma StepKeepsCalmHandler(s: State, e: Event, s': State, h: HandlerId)
    requires CalmInv(s) && Calm(s, e) && Step(s, e) == Some(s')
    ensures CalmHandler(s', h)
  {
    if h in s.handlers {
      assert CalmHandler(s, h) && SessionOk(s, s.handlers[h].session) && (e.ByDispatch? ==> SessionOk(s, e.d));
      if RowEnded(s, s.handlers[h].session) {
        RowStaysEnded(s, e, s', s.handlers[h].session);
      }
      if e.ByHandler? {
        assert CalmPair(s, h, e.h);
      }
    }
  }

  // The row has ended, or will have, when a handler goes on beside one that has looked the session up.
  lemma HandlerKeepsCalmPair(s: State, c: HandlerId, call: HandlerCall, s': State, h: HandlerId, k: HandlerId)
    requires c in s.handlers && StepHandler(s, c, call) == Some(s') && CalmPair(s, h, k) && CalmHandler(s, c)
    requires Calm(s, ByHandler(c, call))
    requires h in s'.handlers && s'.handlers[h].LookedUp? && GoneOn(s', k, s'.handlers[h].session)
    requires !RowEnded(s, s'.handlers[h].session)
    ensures RowEnded(s', s'.handlers[h].session)
  {
    assert Attends(s, h, s'.handlers[h].session) && h != k;
  }

  lemma StepKeepsCalmPair(s: State, e: Event, s': State, h: HandlerId, k: HandlerId)
    requires CalmInv(s) && Calm(s, e) && Step(s, e) == Some(s')
    ensures CalmPair(s', h, k)
  {
    if h in s'.handlers && s'.handlers[h].LookedUp? && GoneOn(s', k, s'.handlers[h].session) {
      var session := s'.handlers[h].session;
      assert SessionOk(s, session) && (e.ByDispatch? ==> SessionOk(s, e.d));
      assert CalmPair(s, h, k) && CalmHandler(s, k);
      if RowEnded(s, session) {
        RowStaysEnded(s, e, s', session);
      } else if e.ByHandler? {
        assert CalmHandler(s, e.h);
        HandlerKeepsCalmPair(s, e.h, e.hcall, s', h, k);
      } else {
        assert GoneOn(s, k, session);
      }
    }
  }

  lemma {:induction false} CalmHolds(ss: seq<State>, i: nat)
    requires Behaviour(CALM, ss) && i < |ss|
    ensures CalmInv(ss[i])
  {
    if i > 0 {
      CalmHolds(ss, i - 1);
      BaseHolds(CALM, ss, i);
      var e := Runs.EventAt(START, Runs.Under(Step, CALM), ss, i);
      forall h ensures CalmHandler(ss[i], h) {
        StepKeepsCalmHandler(ss[i - 1], e, ss[i], h);
      }
      forall h, k ensures CalmPair(ss[i], h, k) {
        StepKeepsCalmPair(ss[i - 1], e, ss[i], h, k);
      }
    }
  }

  /** That rule is enough. */
  lemma CalmKeepsOwners()
    ensures NeverClashes(CALM) && AlwaysKept(CALM)
  {
    forall s: State, e: Event | Reachable(CALM, s) && CALM(s, e) && Step(s, e).Some? ensures !Clash(s, e) {
      var ss :| Runs.Ends(START, Runs.Under(Step, CALM), ss, s);
      CalmHolds(ss, |ss| - 1);
      CalmDoesNotClash(s, e);
    }
    KeptIffNeverClashes(CALM);
  }

  // ---------------------------------------------------------------------------
  // What happens without a rule
  // ---------------------------------------------------------------------------

  ghost const ANYTHING: Guard := (s: State, e: Event) => true

  // Some dispatch can always take a task from the backlog.
  lemma NextTakes(s: State, task: TaskId) returns (d: SessionId, s': State)
    requires Reachable(ANYTHING, s) && Base(s) && task in s.tasks && s.tasks[task] == Backlog
    ensures Reachable(ANYTHING, s') && d in s'.dispatches && s'.dispatches[d] == Owning && TaskOf(s', d) == task
    ensures d !in s.taskOf && s'.taskOf == s.taskOf[d := task]
    ensures s'.handlers == s.handlers && s'.tasks == s.tasks[task := InProgress]
  {
    d := Runs.FreshId(s.taskOf.Keys);
    assert SessionOk(s, d);
    var s1 := s.(taskOf := s.taskOf[d := task], dispatches := s.dispatches[d := Loaded]);
    var s2 := s1.(rows := s1.rows[d := SessionStatus.Pending], dispatches := s1.dispatches[d := Ready]);
    s' := s2.(tasks := s2.tasks[task := InProgress], dispatches := s2.dispatches[d := Owning]);
    Extend(ANYTHING, s, Begin(d, task), s1);
    Extend(ANYTHING, s1, ByDispatch(d, CreateRow(true)), s2);
    Extend(ANYTHING, s2, ByDispatch(d, Take(Success)), s');
  }

  // One handler gives the task back, the next dispatch takes it, and the other handler moves it away.
  lemma TwoThatGoOn(s: State, h: HandlerId, k: HandlerId) returns (lost: State)
    requires Reachable(ANYTHING, s) && Base(s) && h in s.handlers && k in s.handlers && h != k
    requires s.handlers[h].GoesOn? && s.handlers[k].GoesOn? && s.handlers[h].session == s.handlers[k].session
    requires s.handlers[h].to != Completed
    requires var task := TaskOf(s, s.handlers[h].session); task in s.tasks && s.tasks[task] == InProgress
    ensures Reachable(ANYTHING, lost) && !Owned(lost)
  {
    var session := s.handlers[h].session;
    var task := TaskOf(s, session);
    assert HandlerKnown(s, h);
    var back := s.(tasks := s.tasks[task := Backlog], handlers := s.handlers[h := LetGo(session, s.handlers[h].stall)]);
    Extend(ANYTHING, s, ByHandler(h, MoveTask(true)), back);
    StepKeepsBase(s, ByHandler(h, MoveTask(true)), back);
    var d, taken := NextTakes(back, task);
    lost := Step(taken, ByHandler(k, MoveTask(true))).value;
    Extend(ANYTHING, taken, ByHandler(k, MoveTask(true)), lost);
    assert Owns(lost, d);
  }

  // Session 1 of task 0, alone.
  function One(task: TaskStatus, row: SessionStatus, dispatches: map<SessionId, Dispatch>, tracked: set<SessionId>,
               handlers: map<HandlerId, Handler>): State {
    State(map[0 := task], map[1 := row], map[1 := 0], dispatches, tracked, handlers)
  }

  lemma BeginOne()
    ensures Reachable(ANYTHING,
      START.(tasks := map[0 := Backlog], taskOf := map[1 := 0], dispatches := map[1 := Loaded]))
  {
    var s := START.(tasks := map[0 := Backlog]);
    Runs.StartIsReachable(START, Runs.Under(Step, ANYTHING));
    Extend(ANYTHING, START, NewTask(0), s);
    Extend(ANYTHING, s, Begin(1, 0), s.(taskOf := map[1 := 0], dispatches := map[1 := Loaded]));
  }

  lemma LaunchOne()
    ensures Reachable(ANYTHING, One(InProgress, Running, map[1 := Launched], {}, map[]))
  {
    BeginOne();
    var s1 := START.(tasks := map[0 := Backlog], taskOf := map[1 := 0], dispatches := map[1 := Loaded]);
    var s2 := One(Backlog, SessionStatus.Pending, map[1 := Ready], {}, map[]);
    var s3 := One(InProgress, SessionStatus.Pending, map[1 := Owning], {}, map[]);
    Extend(ANYTHING, s1, ByDispatch(1, CreateRow(true)), s2);
    Extend(ANYTHING, s2, ByDispatch(1, Take(Success)), s3);
    Extend(ANYTHING, s3, ByDispatch(1, Launch), One(InProgress, Running, map[1 := Launched], {}, map[]));
  }

  /** A stall of session 1 goes on beside a completion that has ended the row: some task is lost to its owner. */
  lemma StallBreaksOwnership() returns (lost: State)
    ensures Reachable(ANYTHING, lost) && !Owned(lost)
  {
    LaunchOne();
    var s0 := One(InProgress, Running, map[1 := Launched], {}, map[]);
    var s1 := One(InProgress, Running, map[], {1}, map[]);
    var s2 := One(InProgress, Running, map[], {1}, map[7 := LookedUp(1, Failed, false)]);
    var s3 := One(InProgress, Failed, map[], {1}, map[7 := GoesOn(1, Failed, false)]);
    var s4 := s3.(handlers := map[7 := GoesOn(1, Failed, false), 8 := LookedUp(1, Failed, true)]);
    var s5 := s3.(handlers := map[7 := GoesOn(1, Failed, false), 8 := GoesOn(1, Failed, true)]);
    Extend(ANYTHING, s0, ByDispatch(1, Register), s1);
    Extend(ANYTHING, s1, Lookup(7, 1, Failed, false), s2);
    Extend(ANYTHING, s2, ByHandler(7, EndRow(Success)), s3);
    Extend(ANYTHING, s3, Lookup(8, 1, Failed, true), s4);
    Extend(ANYTHING, s4, ByHandler(8, EndRow(Failure)), s5);
    lost := TwoThatGoOn(s5, 8, 7);
  }

  /** Cancelling a session that is still being dispatched gives its task away under it. */
  lemma CancelBreaksOwnership() returns (lost: State)
    ensures Reachable(ANYTHING, lost) && !Owned(lost)
  {
    LaunchOne();
    lost := One(Backlog, Cancelled, map[1 := Launched], {}, map[]);
    Extend(ANYTHING, One(InProgress, Running, map[1 := Launched], {}, map[]), CancelUntracked(1), lost);
    assert Owns(lost, 1);
  }

  // The task is where it was, or one move of its table further; a new one is in the backlog.
  predicate TaskMoves(s: State, s': State, task: TaskId) {
    if task in s.tasks
    then task in s'.tasks && (s'.tasks[task] == s.tasks[task] || TaskAllowed(s.tasks[task], s'.tasks[task]))
    else task in s'.tasks ==> s'.tasks[task] == Backlog
  }

  predicate RowMoves(s: State, s': State, k: SessionId) {
    if k in s.rows
    then k in s'.rows && (s'.rows[k] == s.rows[k] || SessionAllowed(s.rows[k], s'.rows[k]))
    else k in s'.rows ==> s'.rows[k] == Pending
  }

  lemma DispatchMoves(s: State, d: SessionId, call: DispatchCall, s': State, task: TaskId, k: SessionId)
    requires d in s.dispatches && StepDispatch(s, d, call) == Some(s')
    ensures TaskMoves(s, s', task) && RowMoves(s, s', k)
  {
  }

  lemma HandlerMoves(s: State, h: HandlerId, call: HandlerCall, s': State, task: TaskId, k: SessionId)
    requires h in s.handlers && StepHandler(s, h, call) == Some(s')
    ensures TaskMoves(s, s', task) && RowMoves(s, s', k)
  {
  }

  /** Whoever moves a task or a session, in whatever order, moves it along its table. */
  lemma MovesFollowTheTables(s: State, e: Event, s': State, task: TaskId, k: SessionId)
    requires Step(s, e) == Some(s')
    ensures TaskMoves(s, s', task) && RowMoves(s, s', k)
    ensures e.Begin? ==> e.task in s.tasks && s.tasks[e.task] == Backlog
  {
    match e
    case ByDispatch(d, call) => DispatchMoves(s, d, call, s', task, k);
    case ByHandler(h, call) => HandlerMoves(s, h, call, s', task, k);
    case _ =>
  }

  // ---------------------------------------------------------------------------
  // Undisturbed
  // ---------------------------------------------------------------------------

  lemma TakesItsTask(s: State, d: SessionId, task: TaskId) returns (begun: State, created: State, taken: State)
    requires d !in s.taskOf && d !in s.rows && task in s.tasks && s.tasks[task] == Backlog
    ensures Step(s, Begin(d, task)) == Some(begun) && Step(begun, ByDispatch(d, CreateRow(true))) == Some(created)
    ensures Step(created, ByDispatch(d, Take(Success))) == Some(taken)
    ensures taken == s.(tasks := s.tasks[task := InProgress], rows := s.rows[d := Pending],
                        taskOf := s.taskOf[d := task], dispatches := s.dispatches[d := Owning])
  {
    begun := Step(s, Begin(d, task)).value;
    created := Step(begun, ByDispatch(d, CreateRow(true))).value;
    taken := Step(created, ByDispatch(d, Take(Success))).value;
  }

  /** A dispatch that nothing disturbs ends with its session running, tracked, and owner of the task. */
  lemma DispatchTakesItsTask(s: State, d: SessionId, task: TaskId)
      returns (begun: State, created: State, taken: State, launched: State, done: State)
    requires d !in s.taskOf && d !in s.rows && task in s.tasks && s.tasks[task] == Backlog
    ensures Step(s, Begin(d, task)) == Some(begun) && Step(begun, ByDispatch(d, CreateRow(true))) == Some(created)
    ensures Step(created, ByDispatch(d, Take(Success))) == Some(taken)
    ensures Step(taken, ByDispatch(d, Launch)) == Some(launched)
    ensures Step(launched, ByDispatch(d, Register)) == Some(done)
    ensures done.tasks == s.tasks[task := InProgress] && done.rows == s.rows[d := Running]
    ensures done.tracked == s.tracked + {d} && done.dispatches == s.dispatches - {d} && done.handlers == s.handlers
  {
    begun, created, taken := TakesItsTask(s, d, task);
    launched := Step(taken, ByDispatch(d, Launch)).value;
    done := Step(launched, ByDispatch(d, Register)).value;
  }

  /** One that fails after it took the task gives it back, and leaves its row failed if it ran and could be updated. */
  lemma BrokenDispatchGivesBack(s: State, d: SessionId, rowFails: bool) returns (broken: State, done: State)
    requires d in s.dispatches && s.dispatches[d] in {Owning, Launched} && d in s.rows
    requires TaskOf(s, d) in s.tasks && s.tasks[TaskOf(s, d)] == InProgress
    ensures Step(s, ByDispatch(d, Break(rowFails))) == Some(broken)
    ensures Step(broken, ByDispatch(d, Revert(true))) == Some(done)
    ensures done.tasks == s.tasks[TaskOf(s, d) := Backlog]
    ensures done.rows == if rowFails && s.rows[d] == Running then s.rows[d := Failed] else s.rows
    ensures done.dispatches == s.dispatches - {d} && done.tracked == s.tracked && done.handlers == s.handlers
  {
    broken := Step(s, ByDispatch(d, Break(rowFails))).value;
    done := Step(broken, ByDispatch(d, Revert(true))).value;
  }

  lemma EndsItsRow(s: State, h: HandlerId, session: SessionId, to: SessionStatus, stall: bool)
      returns (found: State, ended: State)
    requires h !in s.handlers && session in s.tracked && RowIs(s, session, Running)
    requires to in {Completed, Failed, Cancelled} && (stall ==> to == Failed)
    ensures Step(s, Lookup(h, session, to, stall)) == Some(found)
    ensures Step(found, ByHandler(h, EndRow(Success))) == Some(ended)
    ensures ended == s.(rows := s.rows[session := to], handlers := s.handlers[h := GoesOn(session, to, stall)])
  {
    found := Step(s, Lookup(h, session, to, stall)).value;
    ended := Step(found, ByHandler(h, EndRow(Success))).value;
  }

  /**
   * An ending that nothing disturbs: the row ends as asked, the task goes to review if the session completed
   * and back to the backlog otherwise, and the session is no longer tracked.
   */
  lemma EndingMovesTheTask(s: State, h: HandlerId, session: SessionId, to: SessionStatus, stall: bool)
      returns (found: State, ended: State, moved: State, done: State)
    requires h !in s.handlers && session in s.tracked && RowIs(s, session, Running)
    requires to in {Completed, Failed, Cancelled} && (stall ==> to == Failed)
    requires TaskOf(s, session) in s.tasks && s.tasks[TaskOf(s, session)] == InProgress
    ensures Step(s, Lookup(h, session, to, stall)) == Some(found)
    ensures Step(found, ByHandler(h, EndRow(Success))) == Some(ended)
    ensures Step(ended, ByHandler(h, MoveTask(true))) == Some(moved)
    ensures Step(moved, ByHandler(h, Dispose)) == Some(done)
    ensures done.rows == s.rows[session := to]
    ensures done.tasks == s.tasks[TaskOf(s, session) := if to == Completed then Review else Backlog]
    ensures done.tracked == s.tracked - {session} && done.handlers == s.handlers && done.dispatches == s.dispatches
  {
    found, ended := EndsItsRow(s, h, session, to, stall);
    moved := Step(ended, ByHandler(h, MoveTask(true))).value;
    done := Step(moved, ByHandler(h, Dispose)).value;
  }
}
