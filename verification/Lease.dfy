/**
 * The timeout-notification lease: any number of notifiers, in any number of processes, run
 * claim / notify / mark-or-clear over one questions table, call by call, while every other
 * statement on the table goes on beside them.
 */
module Lease {
  import opened Domain
  import opened Questions
  import Postgres

  // `call` is the timeout of one call's context; `ttl` the age at which a claim counts as stale.
  datatype Config = Config(call: Time, ttl: Time)

  // 15-second contexts and a 5-minute claim.
  const DEPLOYED := Config(15, Postgres.CLAIM_TTL)

  type NotifierId = Id

  /**
   * Where a notifier is. `since` is the claimed_at its claim wrote, `deadline` the end of the
   * context of the call it is in; by then the call has returned, one way or another.
   */
  datatype Phase =
    | Idle
    | Claiming(q: QuestionId, asked: Time, deadline: Time)  // clock read for stale_before at `asked`
    | Claimed(q: QuestionId, since: Time, deadline: Time)
    | Notifying(q: QuestionId, since: Time, deadline: Time)
    | Marking(q: QuestionId, since: Time, deadline: Time)
    | Clearing(q: QuestionId, since: Time, deadline: Time)
  {
    // Between a successful claim and the end of the work it was made for.
    predicate Holding() {
      Claimed? || Notifying? || Marking? || Clearing?
    }

    predicate Holds(id: QuestionId) {
      Holding() && q == id
    }
  }

  // A call that fails may or may not have taken effect.
  datatype Reply = Success | Failure | LostReply

  datatype Event =
    | Tick(now: Time)
    | Begin(p: NotifierId, q: QuestionId)
    | ClaimReturns(p: NotifierId, reply: Reply)
    | StartNotify(p: NotifierId)
    | NotifyReturns(p: NotifierId, sent: bool)
    | MarkReturns(p: NotifierId, reply: Reply)
    | ClearReturns(p: NotifierId, reply: Reply)
    | Crash(p: NotifierId)
    | Elsewhere(stmt: Statement)  // any other part of the system

  // What one event of a notifier comes to: a statement on the table, a next phase, something to count.
  datatype Move = Move(stmt: Option<Statement>, next: Phase, tally: Tally)
  datatype Tally = Nothing | Delivered | Unmarked | Marked

  /** tryNotifyTimedOutQuestion, call by call. None: the event cannot happen in this phase. */
  function NotifierMove(c: Config, clock: Time, ph: Phase, e: Event): Option<Move> {
    match (e, ph)
    case (Begin(_, q), Idle) => Some(Move(None, Claiming(q, clock, clock + c.call), Nothing))
    case (ClaimReturns(_, reply), Claiming(q, asked, deadline)) =>
      var claim := if reply == Failure then None else Some(Claim(q, clock, asked - c.ttl));
      Some(Move(claim, if reply == Success then Claimed(q, clock, deadline) else Idle, Nothing))
    case (StartNotify(_), Claimed(q, since, _)) =>
      Some(Move(None, Notifying(q, since, clock + c.call), Nothing))
    case (NotifyReturns(_, sent), Notifying(q, since, _)) =>
      Some(if sent then Move(None, Marking(q, since, clock + c.call), Delivered)
           else Move(None, Clearing(q, since, clock + c.call), Nothing))
    case (MarkReturns(_, reply), Marking(q, _, _)) =>
      var mark := if reply == Failure then None else Some(MarkSent(q, clock));
      Some(Move(mark, Idle, if reply == Success then Marked else Unmarked))
    case (ClearReturns(_, reply), Clearing(q, _, _)) =>
      Some(Move(if reply == Failure then None else Some(ClearClaim(q)), Idle, Nothing))
    case (Crash(_), Marking(_, _, _)) => Some(Move(None, Idle, Unmarked))
    case (Crash(_), _) => Some(Move(None, Idle, Nothing))
    case _ => None
  }

  // The last three fields count, per question, what happened so far.
  datatype State = State(
    clock: Time,
    table: Table,
    used: set<QuestionId>,
    notifiers: map<NotifierId, Phase>,
    delivered: map<QuestionId, nat>,  // notifications that returned nil
    unmarked: map<QuestionId, nat>,   // of those, the ones whose mark failed or never came
    marked: map<QuestionId, nat>)     // and the ones whose mark reported success

  function At(m: map<QuestionId, nat>, q: QuestionId): nat {
    if q in m then m[q] else 0
  }

  function Bump(m: map<QuestionId, nat>, q: QuestionId, yes: bool): map<QuestionId, nat> {
    if yes then m[q := At(m, q) + 1] else m
  }

  function PhaseOf(s: State, p: NotifierId): Phase {
    if p in s.notifiers then s.notifiers[p] else Idle
  }

  function Make(s: State, p: NotifierId, m: Move): State {
    var q := if PhaseOf(s, p).Idle? then 0 else PhaseOf(s, p).q;
    s.(table := if m.stmt.Some? then Exec(m.stmt.value, s.table) else s.table,
       notifiers := s.notifiers[p := m.next],
       delivered := Bump(s.delivered, q, m.tally == Delivered),
       unmarked := Bump(s.unmarked, q, m.tally == Unmarked),
       marked := Bump(s.marked, q, m.tally == Marked))
  }

  // Reopening is never called by the sweep, and only notifiers touch the claim.
  predicate AllowedElsewhere(stmt: Statement, used: set<QuestionId>) {
    && !stmt.Claim? && !stmt.ClearClaim? && !stmt.MarkSent? && !stmt.ReopenTimedOut?
    && (stmt.Create? ==> stmt.id !in used)
  }

  // Time passes, but not beyond the deadline of a call somebody is still in.
  predicate MayTick(s: State, now: Time) {
    && s.clock <= now
    && forall p :: p in s.notifiers && !s.notifiers[p].Idle? ==> now <= s.notifiers[p].deadline
  }

  function Step(c: Config, s: State, e: Event): Option<State> {
    match e
    case Tick(now) => if MayTick(s, now) then Some(s.(clock := now)) else None
    case Elsewhere(stmt) =>
      if AllowedElsewhere(stmt, s.used)
      then Some(s.(table := Exec(stmt, s.table), used := s.used + (if stmt.Create? then {stmt.id} else {})))
      else None
    case _ =>
      match NotifierMove(c, s.clock, PhaseOf(s, e.p), e)
      case None => None
      case Some(m) => if m.stmt.Some? && !Hits(m.stmt.value, s.table) then None else Some(Make(s, e.p, m))
  }

  predicate Init(s: State) {
    && TableInvariant(s.table)
    && s.table.Keys <= s.used
    && s.notifiers == map[] && s.delivered == map[] && s.unmarked == map[] && s.marked == map[]
  }

  ghost predicate Next(c: Config, s: State, s': State) {
    exists e :: Step(c, s, e) == Some(s')
  }

  /** A behaviour: the states of one run, each reached from the one before by one event. */
  ghost predicate Behaviour(c: Config, ss: seq<State>) {
    && ss != [] && Init(ss[0])
    && forall i :: 0 < i < |ss| ==> Next(c, ss[i - 1], ss[i])
  }

  // ---------------------------------------------------------------------------
  // Invariant
  // ---------------------------------------------------------------------------

  predicate Timely(c: Config, clock: Time, ph: Phase) {
    match ph
    case Idle => true
    case Claiming(_, asked, deadline) => asked <= clock <= deadline <= asked + c.call
    case Claimed(_, since, deadline) => since <= clock <= deadline <= since + c.call
    case Notifying(_, since, deadline) => since <= clock <= deadline <= since + 2 * c.call
    case Marking(_, since, deadline) => since <= clock <= deadline <= since + 3 * c.call
    case Clearing(_, since, deadline) => since <= clock <= deadline <= since + 3 * c.call
  }

  predicate ClaimedRow(r: Question, since: Time) {
    r.status == TimedOut && r.notifiedAt == None && r.claimedAt == Some(since)
  }

  // The row a holder works on is its own: still unsent, and claimed at the very time it claimed.
  predicate Backed(s: State, ph: Phase) {
    ph.Holding() ==>
      ph.q in s.used && At(s.marked, ph.q) == 0 && (ph.q in s.table ==> ClaimedRow(s.table[ph.q], ph.since))
  }

  ghost predicate Notifiers(c: Config, s: State) {
    forall p :: p in s.notifiers ==> Timely(c, s.clock, s.notifiers[p]) && Backed(s, s.notifiers[p])
  }

  ghost predicate Exclusive(s: State) {
    forall p, p', q :: p in s.notifiers && p' in s.notifiers && s.notifiers[p].Holds(q) && s.notifiers[p'].Holds(q) ==>
      p == p'
  }

  function Markers(s: State, q: QuestionId): set<NotifierId> {
    set p | p in s.notifiers && s.notifiers[p].Marking? && s.notifiers[p].q == q
  }

  predicate Counted(s: State, q: QuestionId) {
    && At(s.marked, q) <= 1
    && (At(s.marked, q) == 1 ==>
         q in s.used && (q in s.table ==> s.table[q].status == TimedOut && s.table[q].notifiedAt.Some?))
    && At(s.delivered, q) == At(s.unmarked, q) + At(s.marked, q) + |Markers(s, q)|
  }

  ghost predicate Inv(c: Config, s: State) {
    && s.table.Keys <= s.used
    && Notifiers(c, s) && Exclusive(s)
    && forall q {:trigger Counted(s, q)} :: Counted(s, q)
  }

  /** Statements of the rest of the system never change a timed-out row, except by deleting it. */
  lemma ElsewhereSparesTimedOut(t: Table, stmt: Statement, used: set<QuestionId>, id: QuestionId)
    requires AllowedElsewhere(stmt, used) && id in used
    ensures id in Exec(stmt, t) ==> id in t
    ensures id in Exec(stmt, t) && t[id].status == TimedOut ==> Exec(stmt, t)[id] == t[id]
  {
  }

  // The events of a notifier at work on q.
  predicate WorksOn(s: State, e: Event, q: QuestionId) {
    !e.Tick? && !e.Elsewhere? && !PhaseOf(s, e.p).Idle? && PhaseOf(s, e.p).q == q
  }

  /** A notifier's event leaves every question alone but the one it is working on. */
  lemma OwnQuestionOnly(c: Config, s: State, e: Event, s': State, id: QuestionId)
    requires Step(c, s, e) == Some(s') && !e.Tick? && !e.Elsewhere? && !WorksOn(s, e, id)
    ensures id in s'.table <==> id in s.table
    ensures id in s.table ==> s'.table[id] == s.table[id]
    ensures At(s'.marked, id) == At(s.marked, id)
    ensures At(s'.unmarked, id) == At(s.unmarked, id)
    ensures At(s'.delivered, id) == At(s.delivered, id)
  {
  }

  /** The heart of the lease: a claim cannot succeed while anybody still holds the question. */
  lemma NoClaimWhileHeld(c: Config, s: State, ph: Phase, ph': Phase)
    requires 3 * c.call <= c.ttl
    requires Timely(c, s.clock, ph) && Timely(c, s.clock, ph') && Backed(s, ph')
    requires ph.Claiming? && ph'.Holds(ph.q)
    ensures !Hits(Claim(ph.q, s.clock, ph.asked - c.ttl), s.table)
  {
  }

  /** The local program of one notifier. */
  lemma MoveFacts(c: Config, clock: Time, ph: Phase, e: Event, m: Move)
    requires c.call >= 0 && Timely(c, clock, ph) && NotifierMove(c, clock, ph, e) == Some(m)
    ensures Timely(c, clock, m.next)
    ensures m.next.Holding() && ph.Holding() ==> m.next.q == ph.q && m.next.since == ph.since && m.stmt == None
    ensures m.next.Holding() && !ph.Holding() ==>
              ph.Claiming? && m.next == Claimed(ph.q, clock, ph.deadline)
                && m.stmt == Some(Claim(ph.q, clock, ph.asked - c.ttl))
    ensures m.stmt.Some? && m.stmt.value.Claim? ==> ph.Claiming? && m.stmt.value == Claim(ph.q, clock, ph.asked - c.ttl)
    ensures m.stmt.Some? && m.stmt.value.MarkSent? ==> ph.Marking? && m.stmt.value == MarkSent(ph.q, clock)
    ensures m.stmt.Some? ==>
        m.stmt.value.Claim? || m.stmt.value.MarkSent?
          || (m.stmt.value.ClearClaim? && ph.Clearing? && m.stmt.value.id == ph.q)
    ensures m.tally == Delivered <==> m.next.Marking?
    ensures m.tally in {Unmarked, Marked} <==> ph.Marking?
    ensures m.tally == Marked ==> m.stmt == Some(MarkSent(ph.q, clock))
    ensures m.next.Marking? ==> ph.Notifying? && m.next.q == ph.q
  {
  }

  lemma OwnStepKeepsNotifier(c: Config, s: State, e: Event, s': State, m: Move)
    requires c.call >= 0 && s.table.Keys <= s.used
    requires !e.Tick? && !e.Elsewhere? && NotifierMove(c, s.clock, PhaseOf(s, e.p), e) == Some(m)
    requires (m.stmt.Some? ==> Hits(m.stmt.value, s.table)) && s' == Make(s, e.p, m)
    requires Timely(c, s.clock, PhaseOf(s, e.p)) && Backed(s, PhaseOf(s, e.p))
    requires !PhaseOf(s, e.p).Idle? ==> Counted(s, PhaseOf(s, e.p).q)
    ensures Timely(c, s'.clock, m.next) && Backed(s', m.next)
  {
    MoveFacts(c, s.clock, PhaseOf(s, e.p), e, m);
  }

  lemma OtherStepKeepsNotifier(c: Config, s: State, e: Event, s': State, p: NotifierId)
    requires c.call >= 0 && 3 * c.call <= c.ttl
    requires Notifiers(c, s) && Exclusive(s) && Step(c, s, e) == Some(s')
    requires p in s.notifiers && (e.Tick? || e.Elsewhere? || e.p != p)
    ensures p in s'.notifiers && s'.notifiers[p] == s.notifiers[p]
    ensures Timely(c, s'.clock, s.notifiers[p]) && Backed(s', s.notifiers[p])
  {
    var ph := s.notifiers[p];
    assert Timely(c, s.clock, ph) && Backed(s, ph);
    if ph.Holding() {
      if e.Elsewhere? {
        ElsewhereSparesTimedOut(s.table, e.stmt, s.used, ph.q);
      } else if !e.Tick? {
        if !WorksOn(s, e, ph.q) {
          OwnQuestionOnly(c, s, e, s', ph.q);
        } else {
          // Only a claimer can be at work on a question that p holds, and its claim fails.
          var ph' := s.notifiers[e.p];
          assert ph.Holds(ph.q) && !ph'.Holds(ph.q);
          NoClaimWhileHeld(c, s, ph', ph);
        }
      }
    }
  }

  lemma NobodyHolds(c: Config, s: State, ph: Phase)
    requires 3 * c.call <= c.ttl
    requires Notifiers(c, s) && Timely(c, s.clock, ph) && ph.Claiming?
    requires Hits(Claim(ph.q, s.clock, ph.asked - c.ttl), s.table)
    ensures forall p :: p in s.notifiers ==> !s.notifiers[p].Holds(ph.q)
  {
    forall p | p in s.notifiers ensures !s.notifiers[p].Holds(ph.q) {
      if s.notifiers[p].Holds(ph.q) { NoClaimWhileHeld(c, s, ph, s.notifiers[p]); }
    }
  }

  lemma MoveKeepsExclusive(s: State, p: NotifierId, m: Move)
    requires Exclusive(s)
    requires m.next.Holding() ==>
               || PhaseOf(s, p).Holds(m.next.q)
               || forall p' :: p' in s.notifiers ==> !s.notifiers[p'].Holds(m.next.q)
    ensures Exclusive(Make(s, p, m))
  {
  }

  lemma StepKeepsExclusive(c: Config, s: State, e: Event, s': State)
    requires c.call >= 0 && 3 * c.call <= c.ttl
    requires Notifiers(c, s) && Exclusive(s) && Step(c, s, e) == Some(s')
    ensures Exclusive(s')
  {
    if !e.Tick? && !e.Elsewhere? {
      var ph := PhaseOf(s, e.p);
      assert Timely(c, s.clock, ph);
      var m := NotifierMove(c, s.clock, ph, e).value;
      MoveFacts(c, s.clock, ph, e, m);
      if ph.Claiming? && m.next.Holding() {
        NobodyHolds(c, s, ph);
      }
      MoveKeepsExclusive(s, e.p, m);
    }
  }

  lemma OtherStepKeepsCounts(c: Config, s: State, e: Event, s': State, q: QuestionId)
    requires Step(c, s, e) == Some(s') && Counted(s, q) && !WorksOn(s, e, q)
    ensures Counted(s', q)
  {
    if e.Elsewhere? {
      if q in s.used { ElsewhereSparesTimedOut(s.table, e.stmt, s.used, q); }
    } else if !e.Tick? {
      OwnQuestionOnly(c, s, e, s', q);
    }
    assert Markers(s', q) == Markers(s, q);
  }

  lemma MarkersMove(s: State, p: NotifierId, m: Move, q: QuestionId)
    requires !PhaseOf(s, p).Idle? && PhaseOf(s, p).q == q && (m.next.Marking? ==> m.next.q == q)
    ensures |Markers(Make(s, p, m), q)| ==
        |Markers(s, q)| - (if PhaseOf(s, p).Marking? then 1 else 0) + (if m.next.Marking? then 1 else 0)
  {
    assert Markers(Make(s, p, m), q) == Markers(s, q) - {p} + (if m.next.Marking? then {p} else {});
    assert p in Markers(s, q) <==> PhaseOf(s, p).Marking?;
  }

  lemma OwnStepKeepsCounts(c: Config, s: State, e: Event, s': State, m: Move)
    requires c.call >= 0 && s.table.Keys <= s.used
    requires !e.Tick? && !e.Elsewhere? && NotifierMove(c, s.clock, PhaseOf(s, e.p), e) == Some(m)
    requires (m.stmt.Some? ==> Hits(m.stmt.value, s.table)) && s' == Make(s, e.p, m)
    requires var ph := PhaseOf(s, e.p); !ph.Idle? && Counted(s, ph.q) && Backed(s, ph) && Timely(c, s.clock, ph)
    ensures Counted(s', PhaseOf(s, e.p).q)
  {
    var ph := PhaseOf(s, e.p);
    MoveFacts(c, s.clock, ph, e, m);
    MarkersMove(s, e.p, m, ph.q);
  }

  lemma StepKeepsInv(c: Config, s: State, e: Event, s': State)
    requires c.call >= 0 && 3 * c.call <= c.ttl
    requires Inv(c, s) && Step(c, s, e) == Some(s')
    ensures Inv(c, s')
  {
    StepKeepsExclusive(c, s, e, s');
    if !e.Tick? && !e.Elsewhere? {
      var ph := PhaseOf(s, e.p);
      assert Timely(c, s.clock, ph) && Backed(s, ph);
      var m := NotifierMove(c, s.clock, ph, e).value;
      if !ph.Idle? {
        assert Counted(s, ph.q);
        OwnStepKeepsCounts(c, s, e, s', m);
      }
      OwnStepKeepsNotifier(c, s, e, s', m);
    }
    forall p | p in s'.notifiers
      ensures Timely(c, s'.clock, s'.notifiers[p]) && Backed(s', s'.notifiers[p])
    {
      if e.Tick? || e.Elsewhere? || e.p != p { OtherStepKeepsNotifier(c, s, e, s', p); }
    }
    forall q ensures Counted(s', q) {
      assert Counted(s, q);
      if !WorksOn(s, e, q) { OtherStepKeepsCounts(c, s, e, s', q); }
    }
  }

  lemma {:induction false} InvHolds(c: Config, ss: seq<State>, i: nat)
    requires c.call >= 0 && 3 * c.call <= c.ttl
    requires Behaviour(c, ss) && i < |ss|
    ensures Inv(c, ss[i])
  {
    if i > 0 {
      InvHolds(c, ss, i - 1);
      assert Next(c, ss[i - 1], ss[i]);
      var e :| Step(c, ss[i - 1], e) == Some(ss[i]);
      StepKeepsInv(c, ss[i - 1], e, ss[i]);
    }
  }

  // ---------------------------------------------------------------------------
  // Results
  // ---------------------------------------------------------------------------

  /** In every state of every run at most one notifier is between a successful claim and the end of its work. */
  lemma MutualExclusion(c: Config, ss: seq<State>, i: nat, p: NotifierId, p': NotifierId, q: QuestionId)
    requires c.call >= 0 && 3 * c.call <= c.ttl
    requires Behaviour(c, ss) && i < |ss|
    requires p in ss[i].notifiers && p' in ss[i].notifiers
    requires ss[i].notifiers[p].Holds(q) && ss[i].notifiers[p'].Holds(q)
    ensures p == p'
  {
    InvHolds(c, ss, i);
  }

  /** A question's notice goes out at most once more often than its mark fails. */
  lemma AtMostOnceUpToLostMarks(c: Config, ss: seq<State>, i: nat, q: QuestionId)
    requires c.call >= 0 && 3 * c.call <= c.ttl
    requires Behaviour(c, ss) && i < |ss|
    ensures At(ss[i].delivered, q) <= 1 + At(ss[i].unmarked, q)
  {
    InvHolds(c, ss, i);
    var s := ss[i];
    assert Counted(s, q);
    if Markers(s, q) != {} {
      var p :| p in Markers(s, q);
      assert s.notifiers[p].Holds(q) && Backed(s, s.notifiers[p]);
      forall p' | p' in Markers(s, q) ensures p' == p {
        assert s.notifiers[p'].Holds(q);
      }
      assert Markers(s, q) == {p};
    }
  }

  ghost predicate Sent(s: State, q: QuestionId) {
    q in s.table && s.table[q].status == TimedOut && s.table[q].notifiedAt.Some?
  }

  lemma StepKeepsSent(c: Config, s: State, e: Event, s': State, q: QuestionId)
    requires Step(c, s, e) == Some(s') && q in s.used && (q in s.table ==> Sent(s, q))
    ensures q in s'.used && (q in s'.table ==> Sent(s', q))
  {
    if e.Elsewhere? {
      ElsewhereSparesTimedOut(s.table, e.stmt, s.used, q);
    } else if !e.Tick? && !WorksOn(s, e, q) {
      OwnQuestionOnly(c, s, e, s', q);
    }
  }

  lemma {:induction false} SentStays(c: Config, ss: seq<State>, i: nat, j: nat, q: QuestionId)
    requires c.call >= 0 && 3 * c.call <= c.ttl
    requires Behaviour(c, ss) && i <= j < |ss| && Sent(ss[i], q)
    ensures q in ss[j].used && (q in ss[j].table ==> Sent(ss[j], q))
  {
    if i == j {
      InvHolds(c, ss, i);
    } else {
      SentStays(c, ss, i, j - 1, q);
      assert Next(c, ss[j - 1], ss[j]);
      var e :| Step(c, ss[j - 1], e) == Some(ss[j]);
      StepKeepsSent(c, ss[j - 1], e, ss[j], q);
    }
  }

  /** Once notified_at is set no claim on the question ever succeeds again, by anybody. */
  lemma NoClaimAfterSent(c: Config, ss: seq<State>, i: nat, j: nat, p: NotifierId, reply: Reply)
    requires c.call >= 0 && 3 * c.call <= c.ttl
    requires Behaviour(c, ss) && i <= j < |ss|
    requires PhaseOf(ss[j], p).Claiming? && Sent(ss[i], PhaseOf(ss[j], p).q) && reply != Failure
    ensures Step(c, ss[j], ClaimReturns(p, reply)) == None
  {
    SentStays(c, ss, i, j, PhaseOf(ss[j], p).q);
  }

  ghost predicate AlwaysExclusive(c: Config) {
    forall ss: seq<State> {:trigger Behaviour(c, ss)} :: Behaviour(c, ss) ==> Exclusive(ss[|ss| - 1])
  }

  lemma Extend(c: Config, ss: seq<State>, e: Event) returns (more: seq<State>)
    requires Behaviour(c, ss) && Step(c, ss[|ss| - 1], e).Some?
    ensures Behaviour(c, more) && more != [] && Step(c, ss[|ss| - 1], e) == Some(more[|more| - 1])
  {
    more := ss + [Step(c, ss[|ss| - 1], e).value];
    assert Next(c, ss[|ss| - 1], more[|ss|]);
  }

  // One question, timed out; claimed at time 0 by notifier 1, which is now at `ph`.
  function Scene(clock: Time, ph: Phase, delivered: map<QuestionId, nat>): State {
    var row := Question(0, TimedOut, None, None, None, None, if ph.Idle? || ph.Claiming? then None else Some(0), None);
    State(clock, map[0 := row], {0}, if ph.Idle? then map[] else map[1 := ph], delivered, map[], map[])
  }

  lemma SlowNotifierStarts(c: Config) returns (ss: seq<State>)
    requires 0 < c.call
    ensures Behaviour(c, ss) && ss[|ss| - 1] == Scene(c.call, Claimed(0, 0, c.call), map[])
  {
    ss := [Scene(0, Idle, map[])];
    ss := Extend(c, ss, Begin(1, 0));
    assert ss[|ss| - 1] == Scene(0, Claiming(0, 0, c.call), map[]);
    ss := Extend(c, ss, ClaimReturns(1, Success));
    assert ss[|ss| - 1] == Scene(0, Claimed(0, 0, c.call), map[]);
    ss := Extend(c, ss, Tick(c.call));
  }

  lemma SlowNotifierMarks(c: Config) returns (ss: seq<State>)
    requires 0 < c.call
    ensures Behaviour(c, ss) && ss[|ss| - 1] == Scene(3 * c.call, Marking(0, 0, 3 * c.call), map[0 := 1])
  {
    ss := SlowNotifierStarts(c);
    ss := Extend(c, ss, StartNotify(1));
    assert ss[|ss| - 1] == Scene(c.call, Notifying(0, 0, 2 * c.call), map[]);
    ss := Extend(c, ss, Tick(2 * c.call));
    assert ss[|ss| - 1] == Scene(2 * c.call, Notifying(0, 0, 2 * c.call), map[]);
    ss := Extend(c, ss, NotifyReturns(1, true));
    assert ss[|ss| - 1] == Scene(2 * c.call, Marking(0, 0, 3 * c.call), map[0 := 1]);
    ss := Extend(c, ss, Tick(3 * c.call));
  }

  /** A notifier that uses up its three contexts is overtaken by a second one if the claim lives shorter. */
  lemma SlowNotifierIsOvertaken(c: Config) returns (ss: seq<State>)
    requires 0 <= c.ttl < 3 * c.call
    ensures Behaviour(c, ss) && !Exclusive(ss[|ss| - 1])
  {
    ss := SlowNotifierMarks(c);
    ss := Extend(c, ss, Begin(2, 0));
    ss := Extend(c, ss, ClaimReturns(2, Success));
    var s := ss[|ss| - 1];
    assert s.notifiers[1].Holds(0) && s.notifiers[2].Holds(0);
  }

  // ----- what a notice takes -----

  // Question 0 was delivered and not marked n times, and nobody is at it.
  predicate AtRest(s: State, n: nat) {
    && 0 in s.table && 0 in s.used && s.table[0].status == TimedOut && s.table[0].notifiedAt == None
    && (s.table[0].claimedAt.Some? ==> s.table[0].claimedAt.value <= s.clock)
    && (forall p :: p in s.notifiers ==> s.notifiers[p].Idle?)
    && At(s.delivered, 0) == n && At(s.unmarked, 0) == n && At(s.marked, 0) == 0
  }

  // Notifier 1 has just been told that the notice is out.
  predicate ToBeMarked(s: State, n: nat, deadline: Time) {
    && 0 in s.table && 0 in s.used && PhaseOf(s, 1) == Marking(0, s.clock, deadline)
    && ClaimedRow(s.table[0], s.clock) && (forall p :: p in s.notifiers && p != 1 ==> s.notifiers[p].Idle?)
    && At(s.delivered, 0) == n + 1 && At(s.unmarked, 0) == n && At(s.marked, 0) == 0
  }

  // Notifier 1 is the only one at work, and a claim of question 0 would succeed.
  predicate IsClaiming(c: Config, s: State, n: nat) {
    && 0 in s.table && 0 in s.used && s.table[0].status == TimedOut && s.table[0].notifiedAt == None
    && (s.table[0].claimedAt.Some? ==> s.table[0].claimedAt.value < s.clock - c.ttl)
    && PhaseOf(s, 1) == Claiming(0, s.clock, s.clock + c.call)
    && (forall p :: p in s.notifiers && p != 1 ==> s.notifiers[p].Idle?)
    && At(s.delivered, 0) == n && At(s.unmarked, 0) == n && At(s.marked, 0) == 0
  }

  lemma Waits(c: Config, ss: seq<State>, n: nat) returns (more: seq<State>)
    requires 0 <= c.call && 0 <= c.ttl && Behaviour(c, ss) && AtRest(ss[|ss| - 1], n)
    ensures Behaviour(c, more) && IsClaiming(c, more[|more| - 1], n)
  {
    more := Extend(c, ss, Tick(ss[|ss| - 1].clock + c.ttl + 1));
    more := Extend(c, more, Begin(1, 0));
  }

  // Once the claim is stale, somebody claims again.
  lemma ClaimsAgain(c: Config, ss: seq<State>, n: nat) returns (more: seq<State>)
    requires 0 <= c.call && 0 <= c.ttl && Behaviour(c, ss) && AtRest(ss[|ss| - 1], n)
    ensures Behaviour(c, more)
    ensures var s := more[|more| - 1];
      && PhaseOf(s, 1) == Claimed(0, s.clock, s.clock + c.call) && 0 in s.table && 0 in s.used
      && ClaimedRow(s.table[0], s.clock) && (forall p :: p in s.notifiers && p != 1 ==> s.notifiers[p].Idle?)
      && At(s.delivered, 0) == n && At(s.unmarked, 0) == n && At(s.marked, 0) == 0
  {
    more := Waits(c, ss, n);
    more := Extend(c, more, ClaimReturns(1, Success));
  }

  lemma DeliversAgain(c: Config, ss: seq<State>, n: nat) returns (more: seq<State>)
    requires 0 <= c.call && 0 <= c.ttl && Behaviour(c, ss) && AtRest(ss[|ss| - 1], n)
    ensures Behaviour(c, more) && ToBeMarked(more[|more| - 1], n, more[|more| - 1].clock + c.call)
  {
    more := ClaimsAgain(c, ss, n);
    more := Extend(c, more, StartNotify(1));
    more := Extend(c, more, NotifyReturns(1, true));
  }

  /**
   * The bound on deliveries is tight: n marks that fail can lead to n deliveries more, each after the claim has
   * become stale; the first mark that succeeds ends it.
   */
  lemma LostMarksRepeat(c: Config, n: nat) returns (ss: seq<State>)
    requires 0 <= c.call && 0 <= c.ttl
    ensures Behaviour(c, ss) && Sent(ss[|ss| - 1], 0)
    ensures var s := ss[|ss| - 1];
            At(s.delivered, 0) == n + 1 && At(s.unmarked, 0) == n && At(s.marked, 0) == 1
  {
    ss := MarksFail(c, n);
    ss := DeliversAgain(c, ss, n);
    ss := Extend(c, ss, MarkReturns(1, Success));
  }

  lemma {:induction false} MarksFail(c: Config, n: nat) returns (ss: seq<State>)
    requires 0 <= c.call && 0 <= c.ttl
    ensures Behaviour(c, ss) && AtRest(ss[|ss| - 1], n)
  {
    if n == 0 {
      ss := [Scene(0, Idle, map[])];
    } else {
      ss := MarksFail(c, n - 1);
      ss := DeliversAgain(c, ss, n - 1);
      ss := Extend(c, ss, MarkReturns(1, Failure));
    }
  }

  // A notifier dies and leaves the row as it was.
  lemma Dies(c: Config, s: State, p: NotifierId) returns (dead: State)
    requires PhaseOf(s, p).Holding()
    ensures Step(c, s, Crash(p)) == Some(dead) && dead.table == s.table && dead.clock == s.clock
    ensures dead.notifiers == s.notifiers[p := Idle]
    ensures At(dead.unmarked, PhaseOf(s, p).q) ==
              At(s.unmarked, PhaseOf(s, p).q) + if PhaseOf(s, p).Marking? then 1 else 0
  {
    dead := Step(c, s, Crash(p)).value;
  }

  /** A notifier that dies with a claim is succeeded by the next one, once the claim is stale. */
  lemma DeadHolderIsSucceeded(c: Config, s: State, p: NotifierId, other: NotifierId)
      returns (dead: State, later: State, begun: State, claimed: State)
    requires PhaseOf(s, p).Holding() && Backed(s, PhaseOf(s, p)) && PhaseOf(s, p).q in s.table && p != other
    requires forall x :: x in s.notifiers && x != p ==> s.notifiers[x].Idle?
    ensures Step(c, s, Crash(p)) == Some(dead)
    ensures At(dead.unmarked, PhaseOf(s, p).q) ==
              At(s.unmarked, PhaseOf(s, p).q) + if PhaseOf(s, p).Marking? then 1 else 0
    ensures later.clock > PhaseOf(s, p).since + c.ttl && Step(c, dead, Tick(later.clock)) == Some(later)
    ensures Step(c, later, Begin(other, PhaseOf(s, p).q)) == Some(begun)
    ensures Step(c, begun, ClaimReturns(other, Success)) == Some(claimed)
    ensures PhaseOf(claimed, other).Holds(PhaseOf(s, p).q) && PhaseOf(claimed, p).Idle?
  {
    dead := Dies(c, s, p);
    var stale := PhaseOf(s, p).since + c.ttl + 1;
    later, begun, claimed := ClaimsStale(c, dead, other, PhaseOf(s, p).q, if s.clock < stale then stale else s.clock);
    assert PhaseOf(claimed, p).Idle?;
  }

  lemma ClaimsStale(c: Config, s: State, p: NotifierId, q: QuestionId, now: Time)
      returns (later: State, begun: State, claimed: State)
    requires q in s.table && s.table[q].status == TimedOut && s.table[q].notifiedAt == None
    requires s.table[q].claimedAt.Some? && s.table[q].claimedAt.value + c.ttl < now && s.clock <= now
    requires forall x :: x in s.notifiers ==> s.notifiers[x].Idle?
    ensures Step(c, s, Tick(now)) == Some(later) && later.clock == now
    ensures Step(c, later, Begin(p, q)) == Some(begun) && Step(c, begun, ClaimReturns(p, Success)) == Some(claimed)
    ensures claimed.notifiers == s.notifiers[p := Claimed(q, now, now + c.call)]
  {
    later := Step(c, s, Tick(now)).value;
    begun := Step(c, later, Begin(p, q)).value;
    claimed := Step(c, begun, ClaimReturns(p, Success)).value;
  }

  /** A notice that could not be sent gives its claim back, so that the next notifier need not wait. */
  lemma FailedNoticeIsFree(c: Config, s: State, p: NotifierId, other: NotifierId)
      returns (failed: State, cleared: State, begun: State, claimed: State)
    requires PhaseOf(s, p).Notifying? && Backed(s, PhaseOf(s, p)) && PhaseOf(s, p).q in s.table
    requires p != other && PhaseOf(s, other).Idle?
    ensures Step(c, s, NotifyReturns(p, false)) == Some(failed)
    ensures Step(c, failed, ClearReturns(p, Success)) == Some(cleared)
    ensures Step(c, cleared, Begin(other, PhaseOf(s, p).q)) == Some(begun)
    ensures Step(c, begun, ClaimReturns(other, Success)) == Some(claimed)
    ensures claimed.clock == s.clock && PhaseOf(claimed, other).Claimed? && claimed.delivered == s.delivered
  {
    failed := Step(c, s, NotifyReturns(p, false)).value;
    cleared := Step(c, failed, ClearReturns(p, Success)).value;
    begun := Step(c, cleared, Begin(other, PhaseOf(s, p).q)).value;
    claimed := Step(c, begun, ClaimReturns(other, Success)).value;
  }

  /** The claim's lifetime is long enough exactly when it covers the three calls made under it. */
  lemma ExclusiveIffTtlCoversCalls(c: Config)
    requires c.call >= 0 && c.ttl >= 0
    ensures AlwaysExclusive(c) <==> 3 * c.call <= c.ttl
    ensures AlwaysExclusive(DEPLOYED) && DEPLOYED == Config(15, 300)
  {
    forall c': Config, ss: seq<State> | 0 <= c'.call && 3 * c'.call <= c'.ttl && Behaviour(c', ss)
      ensures Exclusive(ss[|ss| - 1]) {
      InvHolds(c', ss, |ss| - 1);
    }
    if 3 * c.call > c.ttl {
      var ss := SlowNotifierIsOvertaken(c);
    }
  }
}
