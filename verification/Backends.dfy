/**
 * What becomes of agent backends when dispatches, the handlers that end a session and a shutdown
 * interleave: each touches the map of tracked sessions and disposes of backends in separate steps.
 */
module Backends {
  import opened Domain
  import Runs

  type HandlerId = Id

  // A cancellation, completion or stall that has looked its session up.
  datatype Handler = Handler(session: SessionId, disposed: bool)

  // A shutdown works on a copy of the map and clears the map in the end.
  datatype Shutdown = Idle | Stopping(snapshot: set<SessionId>, left: set<SessionId>)

  // A backend goes by the session it was created for.
  datatype State = State(
    created: set<SessionId>,
    launching: set<SessionId>,
    tracked: set<SessionId>,
    disposed: set<SessionId>,
    handlers: map<HandlerId, Handler>,
    shutdown: Shutdown)

  const START := State({}, {}, {}, {}, map[], Idle)

  datatype Event =
    | Create(session: SessionId)
    | Fail(session: SessionId)      // the dispatch disposes of its backend
    | Register(session: SessionId)
    | Lookup(h: HandlerId, session: SessionId)
    | Abandon(h: HandlerId)         // its status update failed
    | Dispose(h: HandlerId)
    | Remove(h: HandlerId)
    | Snapshot
    | StopOne(session: SessionId)
    | Clear

  function Step(s: State, e: Event): Option<State> {
    match e
    case Create(k) =>
      if k in s.created then None else Some(s.(created := s.created + {k}, launching := s.launching + {k}))
    case Fail(k) =>
      if k in s.launching then Some(s.(launching := s.launching - {k}, disposed := s.disposed + {k})) else None
    case Register(k) =>
      if k in s.launching
      then Some(s.(launching := s.launching - {k}, tracked := s.tracked + {k})) else None
    case Lookup(h, k) =>
      if h !in s.handlers && k in s.tracked then Some(s.(handlers := s.handlers[h := Handler(k, false)])) else None
    case Abandon(h) =>
      if h in s.handlers && !s.handlers[h].disposed then Some(s.(handlers := s.handlers - {h})) else None
    case Dispose(h) =>
      if h in s.handlers && !s.handlers[h].disposed
      then Some(s.(disposed := s.disposed + {s.handlers[h].session},
        handlers := s.handlers[h := Handler(s.handlers[h].session, true)]))
      else None
    case Remove(h) =>
      if h in s.handlers && s.handlers[h].disposed
      then Some(s.(tracked := s.tracked - {s.handlers[h].session}, handlers := s.handlers - {h})) else None
    case Snapshot =>
      if s.shutdown.Idle? && s.tracked != {} then Some(s.(shutdown := Stopping(s.tracked, s.tracked))) else None
    case StopOne(k) =>
      if s.shutdown.Stopping? && k in s.shutdown.left
      then Some(s.(disposed := s.disposed + {k}, shutdown := Stopping(s.shutdown.snapshot, s.shutdown.left - {k})))
        else None
    case Clear =>
      if s.shutdown.Stopping? && s.shutdown.left == {} then Some(s.(tracked := {}, shutdown := Idle)) else None
  }

  // A rule of the road: which events may happen when.
  type Guard = (State, Event) -> bool

  // Registrations are all that the rule holds back.
  ghost predicate OnRegistrations(guard: Guard) {
    forall s: State, e: Event :: !e.Register? ==> guard(s, e)
  }

  ghost predicate Behaviour(guard: Guard, ss: seq<State>) {
    Runs.Behaviour(START, Runs.Under(Step, guard), ss)
  }

  ghost predicate Reachable(guard: Guard, s: State) {
    Runs.Reachable(START, Runs.Under(Step, guard), s)
  }

  // A dispatch registers its session while a shutdown is under way.
  predicate Late(s: State, e: Event) {
    e.Register? && s.shutdown.Stopping?
  }

  // No run under the rule registers a session late.
  ghost predicate NeverLate(guard: Guard) {
    forall s: State, e: Event :: Reachable(guard, s) && guard(s, e) && Step(s, e).Some? ==> !Late(s, e)
  }

  // ---------------------------------------------------------------------------
  // Invariant
  // ---------------------------------------------------------------------------

  // The session's handler or the shutdown has disposed of its backend and is about to take it off the map.
  predicate Leaving(s: State, k: SessionId) {
    || (exists h :: h in s.handlers && s.handlers[h] == Handler(k, true))
    || (s.shutdown.Stopping? && k in s.shutdown.snapshot - s.shutdown.left)
  }

  // What every step keeps.
  predicate Base(s: State) {
    && s.launching + s.tracked + s.disposed <= s.created && s.launching !! s.tracked && s.launching !! s.disposed
    && (s.shutdown.Stopping? ==>
         && s.shutdown.left <= s.shutdown.snapshot
         && s.shutdown.snapshot - s.shutdown.left <= s.disposed
         && s.shutdown.snapshot <= s.created - s.launching)
  }

  ghost predicate HandlersOk(s: State) {
    forall h {:trigger HandlerOk(s, h)} :: HandlerOk(s, h)
  }

  predicate HandlerOk(s: State, h: HandlerId) {
    h in s.handlers ==>
      s.handlers[h].session in s.created - s.launching
        && (s.handlers[h].disposed ==> s.handlers[h].session in s.disposed)
  }

  predicate TrackedOk(s: State, k: SessionId) {
    k in s.tracked && k in s.disposed ==> Leaving(s, k)
  }

  ghost predicate Inv(s: State) {
    && Base(s) && HandlersOk(s)
    && s.created == s.launching + s.tracked + s.disposed
    && (s.shutdown.Stopping? ==> s.tracked <= s.shutdown.snapshot)
    && (forall k {:trigger TrackedOk(s, k)} :: TrackedOk(s, k))
  }

  lemma StepKeepsTracked(s: State, e: Event, s': State, k: SessionId)
    requires Inv(s) && Step(s, e) == Some(s') && !Late(s, e) && TrackedOk(s, k)
    ensures TrackedOk(s', k)
  {
    if k in s'.tracked && k in s'.disposed {
      if k in s.tracked && k in s.disposed {
        if h :| h in s.handlers && s.handlers[h] == Handler(k, true) {
          assert h in s'.handlers && s'.handlers[h] == Handler(k, true);
        }
      } else if e.Dispose? {
        assert s'.handlers[e.h] == Handler(k, true);
      }
    }
  }

  lemma StepKeepsBase(s: State, e: Event, s': State)
    requires Base(s) && HandlersOk(s) && Step(s, e) == Some(s')
    ensures Base(s') && HandlersOk(s')
  {
    assert (e.Abandon? || e.Dispose? || e.Remove?) ==> HandlerOk(s, e.h);
    forall h ensures HandlerOk(s', h) {
      assert HandlerOk(s, h);
    }
  }

  lemma StepKeepsInv(s: State, e: Event, s': State)
    requires Inv(s) && Step(s, e) == Some(s') && !Late(s, e)
    ensures Inv(s')
  {
    StepKeepsBase(s, e, s');
    forall k ensures TrackedOk(s', k) {
      assert TrackedOk(s, k);
      StepKeepsTracked(s, e, s', k);
    }
    if e.Remove? || e.Dispose? {
      assert HandlerOk(s, e.h);
    }
  }

  lemma {:induction false} BaseHolds(guard: Guard, ss: seq<State>, i: nat)
    requires Behaviour(guard, ss) && i < |ss|
    ensures Base(ss[i]) && HandlersOk(ss[i])
  {
    if i > 0 {
      BaseHolds(guard, ss, i - 1);
      var e := Runs.EventAt(START, Runs.Under(Step, guard), ss, i);
      StepKeepsBase(ss[i - 1], e, ss[i]);
    }
  }

  lemma {:induction false} InvHolds(guard: Guard, ss: seq<State>, i: nat)
    requires Behaviour(guard, ss) && i < |ss| && NeverLate(guard)
    ensures Inv(ss[i])
  {
    if i > 0 {
      InvHolds(guard, ss, i - 1);
      var e := Runs.EventAt(START, Runs.Under(Step, guard), ss, i);
      Runs.PassedIsReachable(START, Runs.Under(Step, guard), ss, i - 1);
      StepKeepsInv(ss[i - 1], e, ss[i]);
    }
  }

  // ---------------------------------------------------------------------------
  // Results
  // ---------------------------------------------------------------------------

  // Nothing is under way.
  predicate Resting(s: State) {
    s.launching == {} && s.handlers == map[] && s.shutdown.Idle?
  }

  /** Every backend ever created is tracked or disposed of, and never both. */
  predicate Conserved(s: State) {
    s.created == s.tracked + s.disposed && s.tracked !! s.disposed
  }

  ghost predicate AlwaysConserved(guard: Guard) {
    forall s {:trigger Reachable(guard, s)} :: Reachable(guard, s) && Resting(s) ==> Conserved(s)
  }

  /** No backend is ever lost, not even while calls are under way. */
  lemma NoneLost(guard: Guard, ss: seq<State>, i: nat)
    requires Behaviour(guard, ss) && i < |ss| && NeverLate(guard)
    ensures ss[i].created == ss[i].launching + ss[i].tracked + ss[i].disposed
    ensures Resting(ss[i]) ==> Conserved(ss[i])
  {
    InvHolds(guard, ss, i);
    forall k | k in ss[i].tracked && k in ss[i].disposed ensures !Resting(ss[i]) {
      assert TrackedOk(ss[i], k);
    }
  }

  // Nobody knows the session's backend any more.
  predicate Lost(s: State, k: SessionId) {
    k in s.created && k !in s.launching && k !in s.tracked && k !in s.disposed
  }

  lemma Extend(guard: Guard, s: State, e: Event, s': State)
    requires Reachable(guard, s) && guard(s, e) && Step(s, e).Some? && Step(s, e).value == s'
    ensures Reachable(guard, s')
  {
    Runs.Extend(START, Runs.Under(Step, guard), s, e, s');
  }

  // The shutdown goes through without the late session, and forgets it.
  lemma {:induction false} ShutdownForgets(guard: Guard, s: State, k: SessionId) returns (idle: State)
    requires OnRegistrations(guard) && Reachable(guard, s) && Base(s)
    requires s.shutdown.Stopping? && k !in s.shutdown.snapshot
    requires k in s.created && k !in s.launching && k !in s.disposed
    ensures Reachable(guard, idle) && idle.shutdown.Idle? && Lost(idle, k)
    decreases s.shutdown.left
  {
    if x :| x in s.shutdown.left {
      var s' := s.(disposed := s.disposed + {x}, shutdown := Stopping(s.shutdown.snapshot, s.shutdown.left - {x}));
      Extend(guard, s, StopOne(x), s');
      idle := ShutdownForgets(guard, s', k);
    } else {
      idle := s.(tracked := {}, shutdown := Idle);
      Extend(guard, s, Clear, idle);
    }
  }

  // What else is under way can come to rest, and the session stays lost.
  lemma {:induction false} ComesToRest(guard: Guard, s: State, k: SessionId) returns (rest: State)
    requires OnRegistrations(guard) && Reachable(guard, s) && s.shutdown.Idle? && Lost(s, k)
    ensures Reachable(guard, rest) && Resting(rest) && Lost(rest, k)
    decreases s.launching, s.handlers.Keys
  {
    if x :| x in s.launching {
      var s' := s.(launching := s.launching - {x}, disposed := s.disposed + {x});
      Extend(guard, s, Fail(x), s');
      rest := ComesToRest(guard, s', k);
    } else if h :| h in s.handlers {
      var e := if s.handlers[h].disposed then Remove(h) else Abandon(h);
      var s' := Step(s, e).value;
      Extend(guard, s, e, s');
      assert s'.handlers.Keys == s.handlers.Keys - {h};
      rest := ComesToRest(guard, s', k);
    } else {
      rest := s;
    }
  }

  /** A session registered late can be forgotten with its backend running. */
  lemma LateSessionIsLost(guard: Guard, s: State, k: SessionId) returns (rest: State)
    requires OnRegistrations(guard) && Reachable(guard, s) && Base(s)
    requires guard(s, Register(k)) && Step(s, Register(k)).Some? && Late(s, Register(k))
    ensures Reachable(guard, rest) && Resting(rest) && Lost(rest, k)
  {
    var s' := Step(s, Register(k)).value;
    Extend(guard, s, Register(k), s');
    var idle := ShutdownForgets(guard, s', k);
    rest := ComesToRest(guard, idle, k);
  }

  /**
   * The exact rule: whatever condition is put on registrations, every run under it conserves backends
   * if and only if no run under it registers a session during a shutdown.
   */
  lemma ConservedIffNeverLate(guard: Guard)
    requires OnRegistrations(guard)
    ensures AlwaysConserved(guard) <==> NeverLate(guard)
  {
    if NeverLate(guard) {
      forall s | Reachable(guard, s) && Resting(s) ensures Conserved(s) {
        var ss :| Runs.Ends(START, Runs.Under(Step, guard), ss, s);
        NoneLost(guard, ss, |ss| - 1);
      }
    } else {
      var s: State, e: Event :| Reachable(guard, s) && guard(s, e) && Step(s, e).Some? && Late(s, e);
      var ss :| Runs.Ends(START, Runs.Under(Step, guard), ss, s);
      BaseHolds(guard, ss, |ss| - 1);
      var rest := LateSessionIsLost(guard, s, e.session);
    }
  }

  const ANYTHING: Guard := (s: State, e: Event) => true

  /** The code, which has no such rule, gets there: a shutdown is under way when session 2 is registered. */
  lemma CodeLosesBackends()
    ensures !AlwaysConserved(ANYTHING)
  {
    var s1 := State({1}, {1}, {}, {}, map[], Idle);
    var s2 := State({1}, {}, {1}, {}, map[], Idle);
    var s3 := State({1, 2}, {2}, {1}, {}, map[], Idle);
    var s4 := State({1, 2}, {2}, {1}, {}, map[], Stopping({1}, {1}));
    Runs.StartIsReachable(START, Runs.Under(Step, ANYTHING));
    Extend(ANYTHING, START, Create(1), s1);
    Extend(ANYTHING, s1, Register(1), s2);
    Extend(ANYTHING, s2, Create(2), s3);
    Extend(ANYTHING, s3, Snapshot, s4);
    ConservedIffNeverLate(ANYTHING);
    assert Late(s4, Register(2)) && ANYTHING(s4, Register(2)) && Step(s4, Register(2)).Some?;
  }
}
