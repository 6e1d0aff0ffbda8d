/**
 * The two-tier timeout of a question, raced by everything else: one sweeper lists and updates rows
 * one call at a time while questions are asked, answered, reset, cancelled and deleted around it.
 */
module Timeouts {
  import opened Domain
  import opened Questions

  const DEFAULT_EXTENSION: Time := 60 * 60

  // A configured extension of zero or less is replaced by one hour.
  function Extension(configured: Time): (ext: Time)
    ensures ext > 0
  {
    if configured <= 0 then DEFAULT_EXTENSION else configured
  }

  // `now` is the time the ticker delivered; `escalated` the questions this tick has escalated so far.
  datatype Sweeper =
    | Asleep
    | TierOne(now: Time, todo: set<QuestionId>, escalated: set<QuestionId>)
    | TierTwo(now: Time, todo: set<QuestionId>, escalated: set<QuestionId>)

  // `asked` remembers when each question was put: the clock reading its first timeout is computed from.
  datatype State = State(clock: Time, table: Table, asked: map<QuestionId, Time>, sweeper: Sweeper)

  datatype Event =
    | Pass(clock: Time)
    | Ask(id: QuestionId, session: SessionId, at: Time)
    | Elsewhere(stmt: Statement)
    | Wake(now: Time, listed: set<QuestionId>)
    | EscalateReturns(id: QuestionId, effect: bool)
    | ListEscalated(listed: set<QuestionId>)
    | MarkReturns(id: QuestionId, effect: bool)
    | Sleep

  predicate Expired(t: Table, id: QuestionId, status: Status, now: Time) {
    id in t && t[id].status == status && t[id].timeoutAt.Some? && t[id].timeoutAt.value <= now
  }

  // Only the sweeper escalates and times out; reopening is never called.
  predicate AllowedElsewhere(stmt: Statement) {
    || stmt.Answer? || stmt.ResetAnswer? || stmt.CancelPending? || stmt.Delete?
    || stmt.Claim? || stmt.ClearClaim? || stmt.MarkSent?
  }

  function ExecIf(yes: bool, stmt: Statement, t: Table): Table {
    if yes then Exec(stmt, t) else t
  }

  // A listing is any part of the matching rows: the join and LIMIT 50 may leave some out.
  function Step(ext: Time, s: State, e: Event): Option<State> {
    match (e, s.sweeper)
    case (Pass(clock), _) =>
      if s.clock <= clock then Some(s.(clock := clock)) else None
    case (Ask(id, session, at), _) =>
      if id !in s.asked && at <= s.clock
      then Some(s.(table := Exec(Create(id, session, at + ASK_TIMEOUT), s.table), asked := s.asked[id := at]))
      else None
    case (Elsewhere(stmt), _) =>
      if AllowedElsewhere(stmt) then Some(s.(table := Exec(stmt, s.table))) else None
    case (Wake(now, listed), Asleep) =>
      if now <= s.clock && forall id :: id in listed ==> Expired(s.table, id, Open, now)
      then Some(s.(sweeper := TierOne(now, listed, {}))) else None
    case (EscalateReturns(id, effect), TierOne(now, todo, escalated)) =>
      var stmt := Escalate(id, now + ext);
      if id in todo && (effect ==> Hits(stmt, s.table))
      then Some(s.(table := ExecIf(effect, stmt, s.table),
                   sweeper := TierOne(now, todo - {id}, if effect then escalated + {id} else escalated)))
      else None
    case (ListEscalated(listed), TierOne(now, todo, escalated)) =>
      if todo == {} && forall id :: id in listed ==> Expired(s.table, id, Escalated, now)
      then Some(s.(sweeper := TierTwo(now, listed, escalated))) else None
    case (MarkReturns(id, effect), TierTwo(now, todo, escalated)) =>
      var stmt := MarkTimedOutEscalated(id);
      if id in todo && (effect ==> Hits(stmt, s.table))
      then Some(s.(table := ExecIf(effect, stmt, s.table), sweeper := TierTwo(now, todo - {id}, escalated)))
      else None
    case (Sleep, _) => Some(s.(sweeper := Asleep))  // the tick is over, or the process was restarted
    case _ => None
  }

  ghost predicate Next(ext: Time, s: State, s': State) {
    exists e :: Step(ext, s, e) == Some(s')
  }

  ghost predicate Behaviour(ext: Time, ss: seq<State>) {
    && ss != [] && ss[0].table == map[] && ss[0].asked == map[] && ss[0].sweeper == Asleep
    && forall i :: 0 < i < |ss| ==> Next(ext, ss[i - 1], ss[i])
  }

  // ---------------------------------------------------------------------------
  // Invariant
  // ---------------------------------------------------------------------------

  // How far the lifecycle has got, against the clock.
  predicate RowTimed(ext: Time, r: Question, asked: Time, clock: Time) {
    && r.timeoutAt.Some?
    && r.timeoutAt.value >= asked + ASK_TIMEOUT
    && (r.status == Escalated ==> r.timeoutAt.value >= asked + ASK_TIMEOUT + ext)
    && (r.status == TimedOut ==> asked + ASK_TIMEOUT + ext <= r.timeoutAt.value <= clock)
  }

  // What the sweeper still intends to do is to rows that ran out by the time of its tick.
  predicate Due(s: State, id: QuestionId) {
    match s.sweeper
    case Asleep => true
    case TierOne(now, todo, escalated) =>
      && (id in todo ==>
           id in s.asked && id !in escalated
             && (id in s.table ==> s.table[id].timeoutAt.Some? && s.table[id].timeoutAt.value <= now))
      && (id in escalated ==>
           id in s.asked && (id in s.table ==> s.table[id].timeoutAt.Some? && s.table[id].timeoutAt.value > now))
    case TierTwo(now, todo, escalated) =>
      && (id in todo ==>
           id in s.asked && id !in escalated
             && (id in s.table ==> s.table[id].timeoutAt.Some? && s.table[id].timeoutAt.value <= now))
      && (id in escalated ==>
           id in s.asked && (id in s.table ==> s.table[id].timeoutAt.Some? && s.table[id].timeoutAt.value > now))
  }

  predicate RowOk(ext: Time, s: State, id: QuestionId) {
    && (id in s.table ==> id in s.asked && RowTimed(ext, s.table[id], s.asked[id], s.clock))
    && Due(s, id)
  }

  ghost predicate Inv(ext: Time, s: State) {
    && (s.sweeper.Asleep? || s.sweeper.now <= s.clock)
    && forall id {:trigger RowOk(ext, s, id)} :: RowOk(ext, s, id)
  }

  lemma StepKeepsRow(ext: Time, s: State, e: Event, s': State, id: QuestionId)
    requires ext > 0 && Step(ext, s, e) == Some(s')
    requires RowOk(ext, s, id) && (s.sweeper.Asleep? || s.sweeper.now <= s.clock)
    ensures RowOk(ext, s', id)
  {
  }

  lemma {:induction false} InvHolds(ext: Time, ss: seq<State>, i: nat)
    requires ext > 0 && Behaviour(ext, ss) && i < |ss|
    ensures Inv(ext, ss[i])
  {
    if i > 0 {
      InvHolds(ext, ss, i - 1);
      assert Next(ext, ss[i - 1], ss[i]);
      var e :| Step(ext, ss[i - 1], e) == Some(ss[i]);
      forall id ensures RowOk(ext, ss[i], id) {
        assert RowOk(ext, ss[i - 1], id);
        StepKeepsRow(ext, ss[i - 1], e, ss[i], id);
      }
    }
  }

  // ---------------------------------------------------------------------------
  // Results
  // ---------------------------------------------------------------------------

  /** However the sweep is raced, nothing times out before its question had both timeouts in full. */
  lemma NoEarlyTimeout(configured: Time, ss: seq<State>, i: nat, id: QuestionId)
    requires Behaviour(Extension(configured), ss) && i < |ss|
    requires id in ss[i].table && ss[i].table[id].status == TimedOut
    ensures id in ss[i].asked
    ensures ss[i].clock >= ss[i].asked[id] + 30 * 60 + (if configured <= 0 then 60 * 60 else configured)
  {
    InvHolds(Extension(configured), ss, i);
    assert RowOk(Extension(configured), ss[i], id);
  }

  /** No event moves a deadline back. */
  lemma TimeoutNeverDecreases(ext: Time, ss: seq<State>, i: nat, id: QuestionId)
    requires ext > 0 && Behaviour(ext, ss) && i + 1 < |ss|
    requires id in ss[i].table && id in ss[i + 1].table
    ensures ss[i].table[id].timeoutAt.Some? && ss[i + 1].table[id].timeoutAt.Some?
    ensures ss[i].table[id].timeoutAt.value <= ss[i + 1].table[id].timeoutAt.value
  {
    InvHolds(ext, ss, i);
    InvHolds(ext, ss, i + 1);
    assert RowOk(ext, ss[i], id) && RowOk(ext, ss[i + 1], id);
    assert Next(ext, ss[i], ss[i + 1]);
    var e :| Step(ext, ss[i], e) == Some(ss[i + 1]);
  }

  /** What a tick escalates it does not time out. */
  lemma EscalatedSurvivesItsTick(ext: Time, ss: seq<State>, i: nat, id: QuestionId)
    requires ext > 0 && Behaviour(ext, ss) && i < |ss|
    requires !ss[i].sweeper.Asleep? && id in ss[i].sweeper.escalated
    ensures Step(ext, ss[i], MarkReturns(id, true)) == None
    ensures id !in ss[i].sweeper.todo
  {
    InvHolds(ext, ss, i);
    assert RowOk(ext, ss[i], id);
  }

  lemma Extend(ext: Time, ss: seq<State>, e: Event) returns (more: seq<State>)
    requires Behaviour(ext, ss) && Step(ext, ss[|ss| - 1], e).Some?
    ensures Behaviour(ext, more) && Step(ext, ss[|ss| - 1], e) == Some(more[|more| - 1])
  {
    more := ss + [Step(ext, ss[|ss| - 1], e).value];
    assert Next(ext, ss[|ss| - 1], more[|ss|]);
  }

  // Question 0 of session 0, asked at time 0.
  function Asked(clock: Time, status: Status, deadline: Time, sweeper: Sweeper): State {
    State(clock, map[0 := Fresh(0, deadline).(status := status)], map[0 := 0], sweeper)
  }

  lemma EscalatedInTime(ext: Time) returns (ss: seq<State>)
    requires ext > 0
    ensures Behaviour(ext, ss) && ss[|ss| - 1] == Asked(30 * 60, Escalated, 30 * 60 + ext, Asleep)
  {
    ss := [State(0, map[], map[], Asleep)];
    ss := Extend(ext, ss, Ask(0, 0, 0));
    assert ss[|ss| - 1] == Asked(0, Open, 30 * 60, Asleep);
    ss := Extend(ext, ss, Pass(30 * 60));
    assert ss[|ss| - 1] == Asked(30 * 60, Open, 30 * 60, Asleep);
    ss := Extend(ext, ss, Wake(30 * 60, {0}));
    assert ss[|ss| - 1] == Asked(30 * 60, Open, 30 * 60, TierOne(30 * 60, {0}, {}));
    ss := Extend(ext, ss, EscalateReturns(0, true));
    assert ss[|ss| - 1].table == Asked(30 * 60, Escalated, 30 * 60 + ext, Asleep).table;
    ss := Extend(ext, ss, Sleep);
  }

  /** The bound is tight: a question nobody answers can time out at that very moment. */
  lemma TimesOutInTime(configured: Time) returns (ss: seq<State>)
    ensures Behaviour(Extension(configured), ss)
    ensures var s := ss[|ss| - 1];
      && s.asked == map[0 := 0] && 0 in s.table && s.table[0].status == TimedOut
      && s.clock == 30 * 60 + (if configured <= 0 then 60 * 60 else configured)
  {
    var ext := Extension(configured);
    var end := 30 * 60 + ext;
    ss := EscalatedInTime(ext);
    ss := Extend(ext, ss, Pass(end));
    assert ss[|ss| - 1] == Asked(end, Escalated, end, Asleep);
    ss := Extend(ext, ss, Wake(end, {}));
    assert ss[|ss| - 1] == Asked(end, Escalated, end, TierOne(end, {}, {}));
    ss := Extend(ext, ss, ListEscalated({0}));
    assert ss[|ss| - 1] == Asked(end, Escalated, end, TierTwo(end, {0}, {}));
    ss := Extend(ext, ss, MarkReturns(0, true));
  }

  /** And an answer that comes in time is in time: between the two tiers it ends the question. */
  lemma AnsweredInTime(ext: Time) returns (ss: seq<State>)
    requires ext > 0
    ensures Behaviour(ext, ss) && 0 in ss[|ss| - 1].table && ss[|ss| - 1].table[0].status == Answered
  {
    ss := EscalatedInTime(ext);
    ss := Extend(ext, ss, Elsewhere(Answer(0, "yes", 0, 30 * 60)));
  }
}
