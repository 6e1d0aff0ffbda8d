/**
 * How many questions a session can have open: ask_human calls, answers, sweeps and the handlers that
 * end a session, interleaved repository call by repository call.
 */
module OpenQuestion {
  import opened Domain
  import opened Questions
  import opened Postgres
  import Runs

  // ---------------------------------------------------------------------------
  // ask_human, start to end
  // ---------------------------------------------------------------------------

  datatype AskFaults = AskFaults(create: bool, status: bool, delete: bool)

  /** Either the question is open and its session waits, or, cleanup permitting, nothing happened. */
  method HandleAskHuman(store: Store, session: SessionId, id: QuestionId, text: string, now: Time, f: AskFaults)
      returns (ok: bool)
    requires id !in store.questions
    modifies store`questions, store`sessions
    ensures ok <==>
      && text != "" && !f.create && !f.status
      && session in old(store.sessions) && SessionAllowed(old(store.sessions)[session].status, WaitingHitl)
    ensures ok ==> store.questions == old(store.questions)[id := Fresh(session, now + ASK_TIMEOUT)]
    ensures ok ==>
        store.sessions == old(store.sessions)[session := old(store.sessions)[session].(status := WaitingHitl)]
    ensures !ok ==> store.sessions == old(store.sessions)
    ensures !ok && !f.delete ==> store.questions == old(store.questions)
  {
    if text == "" { return false; }
    var created := store.CreateQuestion(id, session, now + ASK_TIMEOUT, f.create);
    if created != Ok { return false; }
    var updated := store.UpdateSessionStatus(session, WaitingHitl, f.status);
    if updated != Ok {
      var _ := store.DeleteQuestion(id, f.delete);
      assert f.delete || store.questions == old(store.questions);
      return false;
    }
    ok := true;
  }

  // ---------------------------------------------------------------------------
  // ask_human and everything else, call by call
  // ---------------------------------------------------------------------------

  // An ask between its two calls, or about to delete the question it could not use.
  datatype Ask = Created(session: SessionId) | Deleting(session: SessionId)

  // `ending` are the sessions made terminal whose questions are still to be withdrawn.
  datatype State = State(
    sessions: map<SessionId, SessionStatus>,
    table: Table,
    used: set<QuestionId>,
    asks: map<QuestionId, Ask>,
    ending: set<SessionId>)

  datatype AnswerEnd = Resumed | Unavailable | Restored

  datatype Event =
    | Dispatch(session: SessionId)
    | Start(session: SessionId)
    | AskCreates(id: QuestionId, session: SessionId, now: Time)
    | AskUpdates(id: QuestionId, fault: bool)
    | AskDeletes(id: QuestionId)
    | AnswerGiven(id: QuestionId, answer: string, user: UserId, now: Time, end: AnswerEnd)
    | End(session: SessionId, status: SessionStatus)  // cancelled, completed or failed
    | Withdraw(session: SessionId)                    // the second call of an ending, or a stall
    | Sweep(stmt: Statement)

  predicate IsSweep(stmt: Statement) {
    stmt.Escalate? || stmt.MarkTimedOutEscalated? || stmt.Claim? || stmt.ClearClaim? || stmt.MarkSent?
  }

  function StatusOf(s: State, session: SessionId): Option<SessionStatus> {
    if session in s.sessions then Some(s.sessions[session]) else None
  }

  predicate Allows(s: State, session: SessionId, to: SessionStatus) {
    session in s.sessions && SessionAllowed(s.sessions[session], to)
  }

  // Answering and resuming as one step; a delivery that fails leaves everything as it was.
  function StepAnswer(s: State, id: QuestionId, stmt: Statement, end: AnswerEnd): Option<State> {
    if !(id in s.table && s.table[id].status == Open) then None
    else
      var session := s.table[id].session;
      match end
      case Restored => Some(s)
      case Resumed =>
        if !Allows(s, session, Running) then None
        else Some(s.(table := Exec(stmt, s.table), sessions := s.sessions[session := Running]))
      case Unavailable =>
        if StatusOf(s, session) == Some(WaitingHitl)
        then Some(s.(table := Exec(CancelPending(session), Exec(stmt, s.table)),
          sessions := s.sessions[session := Cancelled]))
        else Some(s.(table := Exec(stmt, s.table)))
  }

  function Step(s: State, e: Event): Option<State> {
    match e
    case Dispatch(session) =>
      if session in s.sessions then None else Some(s.(sessions := s.sessions[session := Pending]))
    case Start(session) =>
      if StatusOf(s, session) == Some(Pending) then Some(s.(sessions := s.sessions[session := Running])) else None
    case AskCreates(id, session, now) =>
      if id in s.used then None
      else Some(s.(table := Exec(Create(id, session, now + ASK_TIMEOUT), s.table), used := s.used + {id},
        asks := s.asks[id := Created(session)]))
    case AskUpdates(id, fault) =>
      if !(id in s.asks && s.asks[id].Created?) then None
      else if !fault && Allows(s, s.asks[id].session, WaitingHitl)
      then Some(s.(sessions := s.sessions[s.asks[id].session := WaitingHitl], asks := s.asks - {id}))
      else Some(s.(asks := s.asks[id := Deleting(s.asks[id].session)]))
    case AskDeletes(id) =>
      if id in s.asks && s.asks[id].Deleting?
        then Some(s.(table := Exec(Delete(id), s.table), asks := s.asks - {id})) else None
    case AnswerGiven(id, answer, user, now, end) =>
      StepAnswer(s, id, Answer(id, answer, user, now), end)
    case End(session, status) =>
      if Terminal(status) && Allows(s, session, status)
      then Some(s.(sessions := s.sessions[session := status], ending := s.ending + {session})) else None
    case Withdraw(session) => Some(s.(table := Exec(CancelPending(session), s.table), ending := s.ending - {session}))
    case Sweep(stmt) => if IsSweep(stmt) then Some(s.(table := Exec(stmt, s.table))) else None
  }

  const START := State(map[], map[], {}, map[], {})

  // A rule of the road: which events may happen when.
  type Guard = (State, Event) -> bool

  // Answers are all that the rule holds back.
  ghost predicate OnAnswers(guard: Guard) {
    forall s: State, e: Event :: !e.AnswerGiven? ==> guard(s, e)
  }

  ghost predicate Behaviour(guard: Guard, ss: seq<State>) {
    Runs.Behaviour(START, Runs.Under(Step, guard), ss)
  }

  ghost predicate Reachable(guard: Guard, s: State) {
    Runs.Reachable(START, Runs.Under(Step, guard), s)
  }

  // ---------------------------------------------------------------------------
  // Invariants
  // ---------------------------------------------------------------------------

  predicate Known(s: State, id: QuestionId) {
    && (id in s.table || id in s.asks ==> id in s.used)
    && (id in s.table && id in s.asks ==> s.table[id].session == s.asks[id].session)
  }

  // What every step keeps.
  ghost predicate Base(s: State) {
    && (forall id {:trigger Known(s, id)} :: Known(s, id))
    && (forall k :: k in s.ending ==> k in s.sessions && Terminal(s.sessions[k]))
  }

  // An unresolved question whose ask has returned.
  predicate Posed(s: State, id: QuestionId) {
    id in s.table && Unresolved(s.table[id]) && id !in s.asks
  }

  predicate Waits(s: State, session: SessionId) {
    StatusOf(s, session) == Some(WaitingHitl)
  }

  // Somebody waits for a posed question, until its session is being ended.
  predicate Awaited(s: State, id: QuestionId) {
    Posed(s, id) ==> Waits(s, s.table[id].session) || s.table[id].session in s.ending
  }

  // Two posed questions of one session are one, until the session is being ended.
  predicate Unique(s: State, id: QuestionId, id': QuestionId) {
    Posed(s, id) && Posed(s, id') && s.table[id].session == s.table[id'].session ==>
      id == id' || s.table[id].session in s.ending
  }

  ghost predicate Inv(s: State) {
    && Base(s)
    && (forall id {:trigger Awaited(s, id)} :: Awaited(s, id))
    && (forall id, id' {:trigger Unique(s, id, id')} :: Unique(s, id, id'))
  }

  /**
   * An answer resumes a session before the ask of the answered question has returned, while the session
   * has another question posed.
   */
  predicate Crossing(s: State, e: Event) {
    && e.AnswerGiven? && e.end == Resumed && e.id in s.asks && e.id in s.table
    && exists x :: x in s.table && Posed(s, x) && s.table[x].session == s.table[e.id].session
  }

  lemma StepKeepsBase(s: State, e: Event, s': State)
    requires Base(s) && Step(s, e) == Some(s')
    ensures Base(s')
  {
    forall id ensures Known(s', id) {
      assert Known(s, id);
    }
  }

  lemma StepKeepsAwaited(s: State, e: Event, s': State, id: QuestionId)
    requires Step(s, e) == Some(s') && !Crossing(s, e) && Known(s, id) && Awaited(s, id)
    requires e.AnswerGiven? ==> Unique(s, id, e.id)
    requires forall k :: k in s.ending ==> k in s.sessions && Terminal(s.sessions[k])
    ensures Awaited(s', id)
  {
  }

  /** A question becomes posed only when its own ask finds the session running. */
  lemma PosedBefore(s: State, e: Event, s': State, id: QuestionId)
    requires Step(s, e) == Some(s') && Known(s, id) && Posed(s', id)
    ensures id in s.table && s'.table[id].session == s.table[id].session
    ensures Posed(s, id) || (e == AskUpdates(id, false) && StatusOf(s, s.table[id].session) == Some(Running))
    ensures e.Withdraw? ==> e.session != s'.table[id].session
  {
  }

  lemma StepKeepsUnique(s: State, e: Event, s': State, id: QuestionId, id': QuestionId)
    requires Step(s, e) == Some(s') && Known(s, id) && Known(s, id')
    requires Awaited(s, id) && Awaited(s, id') && Unique(s, id, id')
    requires forall k :: k in s.ending ==> k in s.sessions && Terminal(s.sessions[k])
    ensures Unique(s', id, id')
  {
    if Posed(s', id) && Posed(s', id') {
      PosedBefore(s, e, s', id);
      PosedBefore(s, e, s', id');
    }
  }

  lemma StepKeepsInv(s: State, e: Event, s': State)
    requires Inv(s) && Step(s, e) == Some(s') && !Crossing(s, e)
    ensures Inv(s')
  {
    StepKeepsBase(s, e, s');
    forall id ensures Awaited(s', id) {
      assert Known(s, id) && Awaited(s, id) && (e.AnswerGiven? ==> Unique(s, id, e.id));
      StepKeepsAwaited(s, e, s', id);
    }
    forall id, id' ensures Unique(s', id, id') {
      assert Known(s, id) && Known(s, id') && Awaited(s, id) && Awaited(s, id') && Unique(s, id, id');
      StepKeepsUnique(s, e, s', id, id');
    }
  }

  // A crossing leaves a session running that has a question posed.
  lemma CrossingLeaves(s: State, e: Event, s': State) returns (x: QuestionId)
    requires Base(s) && Step(s, e) == Some(s') && Crossing(s, e)
    ensures Posed(s', x) && StatusOf(s', s'.table[x].session) == Some(Running) && s'.table[x].session !in s'.ending
  {
    x :| x in s.table && Posed(s, x) && s.table[x].session == s.table[e.id].session;
  }

  /** Of all steps the code can make, exactly the crossings break the invariant. */
  lemma InvKeptIff(s: State, e: Event, s': State)
    requires Inv(s) && Step(s, e) == Some(s')
    ensures Inv(s') <==> !Crossing(s, e)
  {
    if Crossing(s, e) {
      var x := CrossingLeaves(s, e, s');
      assert !Awaited(s', x);
    } else {
      StepKeepsInv(s, e, s');
    }
  }

  // No run under the rule takes a crossing.
  ghost predicate NeverCrosses(guard: Guard) {
    forall s: State, e: Event :: Reachable(guard, s) && guard(s, e) && Step(s, e).Some? ==> !Crossing(s, e)
  }

  lemma {:induction false} BaseHolds(guard: Guard, ss: seq<State>, i: nat)
    requires Behaviour(guard, ss) && i < |ss|
    ensures Base(ss[i])
  {
    if i > 0 {
      BaseHolds(guard, ss, i - 1);
      var e := Runs.EventAt(START, Runs.Under(Step, guard), ss, i);
      StepKeepsBase(ss[i - 1], e, ss[i]);
    }
  }

  lemma {:induction false} InvHolds(guard: Guard, ss: seq<State>, i: nat)
    requires Behaviour(guard, ss) && i < |ss| && NeverCrosses(guard)
    ensures Inv(ss[i])
  {
    if i > 0 {
      InvHolds(guard, ss, i - 1);
      var e := Runs.EventAt(START, Runs.Under(Step, guard), ss, i);
      Runs.PassedIsReachable(START, Runs.Under(Step, guard), ss, i - 1);
      StepKeepsInv(ss[i - 1], e, ss[i]);
    }
  }

  // ---------------------------------------------------------------------------
  // Results
  // ---------------------------------------------------------------------------

  predicate Quiet(s: State) {
    s.asks == map[] && s.ending == {}
  }

  predicate OpenFor(s: State, session: SessionId, id: QuestionId) {
    id in s.table && Unresolved(s.table[id]) && s.table[id].session == session
  }

  ghost predicate OneOpen(s: State) {
    && (forall k, id, id' :: OpenFor(s, k, id) && OpenFor(s, k, id') ==> id == id')
    && (forall k, id :: OpenFor(s, k, id) ==> Waits(s, k))
  }

  ghost predicate AlwaysOneOpen(guard: Guard) {
    forall s {:trigger Reachable(guard, s)} :: Reachable(guard, s) && Quiet(s) ==> OneOpen(s)
  }

  /** Whenever no ask and no ending is under way, a session has at most one open question, and waits for it. */
  lemma OneOpenQuestion(guard: Guard, ss: seq<State>, i: nat)
    requires Behaviour(guard, ss) && i < |ss| && NeverCrosses(guard) && Quiet(ss[i])
    ensures OneOpen(ss[i])
  {
    InvHolds(guard, ss, i);
    var s := ss[i];
    forall k, id, id' | OpenFor(s, k, id) && OpenFor(s, k, id') ensures id == id' && Waits(s, k) {
      assert Awaited(s, id) && Unique(s, id, id');
    }
  }

  // A session that is not being ended has two questions posed.
  predicate TwoPosed(s: State, session: SessionId, x: QuestionId, y: QuestionId) {
    && x != y && OpenFor(s, session, x) && OpenFor(s, session, y) && x !in s.asks && y !in s.asks
    && session !in s.ending
  }

  lemma Extend(guard: Guard, s: State, e: Event, s': State)
    requires Reachable(guard, s) && guard(s, e) && Step(s, e).Some? && Step(s, e).value == s'
    ensures Reachable(guard, s')
  {
    Runs.Extend(START, Runs.Under(Step, guard), s, e, s');
  }

  // Any ask under way can fail and be cleaned up.
  lemma AskFails(guard: Guard, s: State, id: QuestionId, s': State)
    requires OnAnswers(guard) && Reachable(guard, s) && id in s.asks
    requires s' == s.(table := Exec(Delete(id), s.table), asks := s.asks - {id})
    ensures Reachable(guard, s')
  {
    var s1 := if s.asks[id].Created? then s.(asks := s.asks[id := Deleting(s.asks[id].session)]) else s;
    if s.asks[id].Created? {
      Extend(guard, s, AskUpdates(id, true), s1);
    }
    assert s1.asks - {id} == s.asks - {id};
    Extend(guard, s1, AskDeletes(id), s');
  }

  // Whatever else is under way can come to rest and leave the two questions open.
  lemma {:induction false} Settle(guard: Guard, s: State, session: SessionId, x: QuestionId, y: QuestionId)
      returns (rest: State)
    requires OnAnswers(guard) && Reachable(guard, s) && TwoPosed(s, session, x, y)
    ensures Reachable(guard, rest) && Quiet(rest) && TwoPosed(rest, session, x, y)
    decreases |s.asks|, |s.ending|
  {
    if id :| id in s.asks {
      var s' := s.(table := Exec(Delete(id), s.table), asks := s.asks - {id});
      AskFails(guard, s, id, s');
      assert s.asks.Keys == s'.asks.Keys + {id};
      rest := Settle(guard, s', session, x, y);
    } else if k :| k in s.ending {
      var s' := s.(table := Exec(CancelPending(k), s.table), ending := s.ending - {k});
      Extend(guard, s, Withdraw(k), s');
      rest := Settle(guard, s', session, x, y);
    } else {
      rest := s;
    }
  }

  // After a crossing the session can ask again.
  lemma CrossingLeadsToTwo(guard: Guard, s: State, e: Event, s': State)
    requires OnAnswers(guard) && Reachable(guard, s) && guard(s, e) && Step(s, e) == Some(s') && Crossing(s, e)
    requires Base(s)
    ensures !AlwaysOneOpen(guard)
  {
    var x := CrossingLeaves(s, e, s');
    StepKeepsBase(s, e, s');
    Extend(guard, s, e, s');
    var session := s'.table[x].session;
    var y := Runs.FreshId(s'.used);
    assert Known(s', x) && Known(s', y);
    var s1 := s'.(table := s'.table[y := Fresh(session, ASK_TIMEOUT)], used := s'.used + {y},
      asks := s'.asks[y := Created(session)]);
    Extend(guard, s', AskCreates(y, session, 0), s1);
    var s2 := s1.(sessions := s1.sessions[session := WaitingHitl], asks := s1.asks - {y});
    Extend(guard, s1, AskUpdates(y, false), s2);
    var rest := Settle(guard, s2, session, x, y);
    assert !OneOpen(rest);
  }

  /**
   * The exact rule: whatever condition is put on answers, every run under it keeps one open question
   * per session if and only if no run under it takes a crossing.
   */
  lemma OneOpenIffNeverCrosses(guard: Guard)
    requires OnAnswers(guard)
    ensures AlwaysOneOpen(guard) <==> NeverCrosses(guard)
  {
    if NeverCrosses(guard) {
      forall s | Reachable(guard, s) && Quiet(s) ensures OneOpen(s) {
        var ss :| Runs.Ends(START, Runs.Under(Step, guard), ss, s);
        OneOpenQuestion(guard, ss, |ss| - 1);
      }
    } else {
      var s, e :| Reachable(guard, s) && guard(s, e) && Step(s, e).Some? && Crossing(s, e);
      var ss :| Runs.Ends(START, Runs.Under(Step, guard), ss, s);
      BaseHolds(guard, ss, |ss| - 1);
      CrossingLeadsToTwo(guard, s, e, Step(s, e).value);
    }
  }

  /**
   * What an answer can lead to while the session waits: the session runs on; or it is cancelled with whatever
   * else it has open withdrawn; or nothing has happened. A question that is not open takes no answer.
   */
  lemma WaysOfAnAnswer(s: State, id: QuestionId, answer: string, user: UserId, now: Time, end: AnswerEnd)
    requires id in s.table && Waits(s, s.table[id].session)
    ensures var k, s' := s.table[id].session, Step(s, AnswerGiven(id, answer, user, now, end));
      && (s'.Some? <==> s.table[id].status == Open)
      && (s'.Some? && end != Restored ==>
           && id in s'.value.table && s'.value.table[id].status == Answered
           && s'.value.table[id].answer == Some(answer) && s'.value.table[id].answeredBy == Some(user)
           && s'.value.sessions == s.sessions[k := if end == Resumed then Running else SessionStatus.Cancelled]
           && forall x :: x in s.table && x != id ==>
                x in s'.value.table
                && s'.value.table[x] ==
                     if end == Unavailable && s.table[x].session == k
                        && (s.table[x].status == Open || s.table[x].status == Escalated)
                     then s.table[x].(status := Withdrawn) else s.table[x])
      && (s'.Some? && end == Restored ==> s'.value == s)
  {
  }

  /** Whoever moves a session moves it along its table, and sessions start out pending. */
  lemma SessionsMoveByTheTable(s: State, e: Event, s': State, k: SessionId)
    requires Step(s, e) == Some(s')
    ensures k in s.sessions ==>
              k in s'.sessions && (s'.sessions[k] == s.sessions[k] || SessionAllowed(s.sessions[k], s'.sessions[k]))
    ensures k !in s.sessions && k in s'.sessions ==> s'.sessions[k] == Pending
  {
  }

  /** An ask that works leaves its session waiting; one whose update fails leaves nothing behind. */
  lemma WaysOfAnAsk(s: State, id: QuestionId, k: SessionId, now: Time, fault: bool)
      returns (created: State, updated: State, settled: State)
    requires StatusOf(s, k) == Some(Running) && id !in s.used && id !in s.table && id !in s.asks
    ensures Step(s, AskCreates(id, k, now)) == Some(created) && OpenFor(created, k, id)
    ensures created.table[id].timeoutAt == Some(now + 30 * 60) && Step(created, AskDeletes(id)) == None
    ensures Step(created, AskUpdates(id, fault)) == Some(updated)
    ensures !fault ==> updated == created.(sessions := s.sessions[k := WaitingHitl], asks := s.asks)
    ensures fault ==> Step(updated, AskDeletes(id)) == Some(settled) && settled == s.(used := s.used + {id})
  {
    created := Step(s, AskCreates(id, k, now)).value;
    updated := Step(created, AskUpdates(id, fault)).value;
    if fault {
      settled := Step(updated, AskDeletes(id)).value;
    } else {
      settled := updated;
    }
  }

  /** A session that runs or waits can be ended, and what it has open is then withdrawn. */
  lemma WaysOfAnEnding(s: State, k: SessionId, status: SessionStatus) returns (ended: State, settled: State)
    requires StatusOf(s, k) == Some(Running) && status in {Completed, Failed, SessionStatus.Cancelled}
    ensures Step(s, End(k, status)) == Some(ended) && Step(ended, Withdraw(k)) == Some(settled)
    ensures StatusOf(settled, k) == Some(status) && k !in settled.ending
    ensures forall id :: !OpenFor(settled, k, id)
    ensures forall id :: id in s.table && s.table[id].session != k ==>
              id in settled.table && settled.table[id] == s.table[id]
  {
    ended := Step(s, End(k, status)).value;
    settled := Step(ended, Withdraw(k)).value;
  }

  /** The sweep can close a question for good while other asks are under way. */
  lemma SweepCloses(s: State, k: SessionId, id: QuestionId, deadline: Time) returns (later: State, closed: State)
    requires OpenFor(s, k, id) && s.table[id].status == Open
    ensures Step(s, Sweep(Escalate(id, deadline))) == Some(later) && OpenFor(later, k, id)
    ensures Step(later, Sweep(MarkTimedOutEscalated(id))) == Some(closed) && !OpenFor(closed, k, id)
    ensures forall x :: x != id ==> (OpenFor(closed, k, x) <==> OpenFor(s, k, x))
  {
    later := Step(s, Sweep(Escalate(id, deadline))).value;
    closed := Step(later, Sweep(MarkTimedOutEscalated(id))).value;
  }

  // Three rules: the weakest that works, that no question is answered before its ask has returned, and
  // none at all, as in the code.
  const UNCROSSED: Guard := (s: State, e: Event) => !Crossing(s, e)
  const PATIENT: Guard := (s: State, e: Event) => e.AnswerGiven? ==> e.id !in s.asks
  const ANYTHING: Guard := (s: State, e: Event) => true

  // Session 0 waits for question 1 while the ask of question 2 is between its two calls.
  lemma SecondAskUnderWay()
    ensures Reachable(ANYTHING, State(map[0 := WaitingHitl],
      map[1 := Fresh(0, ASK_TIMEOUT), 2 := Fresh(0, ASK_TIMEOUT)], {1, 2}, map[2 := Created(0)], {}))
  {
    var one, two := map[1 := Fresh(0, ASK_TIMEOUT)], map[1 := Fresh(0, ASK_TIMEOUT), 2 := Fresh(0, ASK_TIMEOUT)];
    var s1 := State(map[0 := SessionStatus.Pending], map[], {}, map[], {});
    var s2 := State(map[0 := Running], map[], {}, map[], {});
    var s3 := State(map[0 := Running], one, {1}, map[1 := Created(0)], {});
    var s4 := State(map[0 := WaitingHitl], one, {1}, map[], {});
    Runs.StartIsReachable(START, Runs.Under(Step, ANYTHING));
    Extend(ANYTHING, START, Dispatch(0), s1);
    Extend(ANYTHING, s1, Start(0), s2);
    Extend(ANYTHING, s2, AskCreates(1, 0, 0), s3);
    Extend(ANYTHING, s3, AskUpdates(1, false), s4);
    Extend(ANYTHING, s4, AskCreates(2, 0, 0), State(map[0 := WaitingHitl], two, {1, 2}, map[2 := Created(0)], {}));
  }

  /** A crossing is within reach of the code, so its runs do not all keep one open question; those without do. */
  lemma ImpatientAnswer()
    ensures !AlwaysOneOpen(ANYTHING) && AlwaysOneOpen(UNCROSSED) && AlwaysOneOpen(PATIENT)
  {
    SecondAskUnderWay();
    var s := State(map[0 := WaitingHitl], map[1 := Fresh(0, ASK_TIMEOUT), 2 := Fresh(0, ASK_TIMEOUT)], {1, 2},
      map[2 := Created(0)], {});
    var e := AnswerGiven(2, "yes", 0, 0, Resumed);
    assert Posed(s, 1) && s.table[1].session == s.table[2].session;
    assert Crossing(s, e) && Step(s, e).Some? && ANYTHING(s, e);
    OneOpenIffNeverCrosses(ANYTHING);
    OneOpenIffNeverCrosses(UNCROSSED);
    OneOpenIffNeverCrosses(PATIENT);
  }
}
