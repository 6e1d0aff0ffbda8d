/** What a tick of the timeout sweep brings about, and what a backlog comes to under repeated ticks. */
module TimeoutTicks {
  import opened Domain
  import opened Questions
  import opened Postgres
  import opened TimeoutSweep
  import opened Worklist

  // ---------------------------------------------------------------------------
  // All that a tick may do
  // ---------------------------------------------------------------------------

  /**
   * All that a tick ever does to a row: it extends an open question that ran out, times out an
   * escalated one that ran out, sends a notice that is owed, and withdraws what a session it cancels
   * still had open. Every other row stays as it was.
   */
  predicate RowAdvance(r0: Question, r: Question, cancelled: bool, w: Times) {
    || r == r0
    || (Unresolved(r0) && cancelled && r == r0.(status := Withdrawn))
    || (Ran(r0, Open, w.now) && (r == Extended(r0, w) || (cancelled && r == Extended(r0, w).(status := Withdrawn))))
    || (Ran(r0, Escalated, w.now) && (r == Expired(r0) || r == Notified(Expired(r0), w)))
    || r == Notified(r0, w)
  }

  predicate SessionAdvance(s0: Session, s: Session) {
    s == s0 || (s0.status in {SessionStatus.Running, WaitingHitl} && s == s0.(status := SessionStatus.Cancelled))
  }

  // The sessions that were cancelled between the two moments.
  function CancelledBetween(x0: Rows, x: Rows): set<SessionId> {
    set k | k in x0.sessions && k in x.sessions && Live(x0.sessions[k].status)
      && x.sessions[k].status == SessionStatus.Cancelled
  }

  /** Tasks go back to the backlog exactly with the sessions that were cancelled. */
  predicate TasksFollow(x0: Rows, x: Rows) {
    && x.tasks.Keys == x0.tasks.Keys
    && forall t :: t in x0.tasks ==>
         x.tasks[t] == if GivenBack(x0, CancelledBetween(x0, x), t) then Backlog else x0.tasks[t]
  }

  ghost predicate Advance(x0: Rows, x: Rows, w: Times) {
    && x.questions.Keys == x0.questions.Keys && x.sessions.Keys == x0.sessions.Keys
    && (forall id :: id in x0.questions ==>
         RowAdvance(x0.questions[id], x.questions[id], x0.questions[id].session in CancelledBetween(x0, x), w))
    && (forall k :: k in x0.sessions ==> SessionAdvance(x0.sessions[k], x.sessions[k]))
    && TasksFollow(x0, x)
  }

  lemma RowAdvanceTransitive(r0: Question, r1: Question, r2: Question, c1: bool, c2: bool, c: bool, w: Times)
    requires w.ext > 0 && RowAdvance(r0, r1, c1, w) && RowAdvance(r1, r2, c2, w) && (c1 || c2 ==> c)
    ensures RowAdvance(r0, r2, c, w)
  {
  }

  lemma CancelledTransitive(x0: Rows, x1: Rows, x2: Rows)
    requires x0.sessions.Keys == x1.sessions.Keys == x2.sessions.Keys
    requires forall k :: k in x0.sessions ==>
               SessionAdvance(x0.sessions[k], x1.sessions[k]) && SessionAdvance(x1.sessions[k], x2.sessions[k])
    ensures CancelledBetween(x0, x2) == CancelledBetween(x0, x1) + CancelledBetween(x1, x2)
    ensures forall k :: k in x0.sessions ==> SessionAdvance(x0.sessions[k], x2.sessions[k])
  {
  }

  lemma TasksTransitive(x0: Rows, x1: Rows, x2: Rows)
    requires x0.sessions.Keys == x1.sessions.Keys == x2.sessions.Keys
    requires forall k :: k in x0.sessions ==>
               SessionAdvance(x0.sessions[k], x1.sessions[k]) && SessionAdvance(x1.sessions[k], x2.sessions[k])
    requires TasksFollow(x0, x1) && TasksFollow(x1, x2)
    ensures TasksFollow(x0, x2)
  {
    CancelledTransitive(x0, x1, x2);
    var c1, c2, c := CancelledBetween(x0, x1), CancelledBetween(x1, x2), CancelledBetween(x0, x2);
    forall t | t in x0.tasks ensures x2.tasks[t] == if GivenBack(x0, c, t) then Backlog else x0.tasks[t] {
      if GivenBack(x0, c, t) {
        var k :| k in c && k in x0.sessions && x0.sessions[k].task == t;
        assert k in c1 ==> GivenBack(x0, c1, t);
        assert k in c2 && !GivenBack(x0, c1, t) ==> x1.sessions[k].task == t && GivenBack(x1, c2, t);
      }
      if GivenBack(x0, c1, t) {
        var k :| k in c1 && k in x0.sessions && x0.sessions[k].task == t;
        assert k in c;
      }
      if GivenBack(x1, c2, t) {
        var k :| k in c2 && k in x1.sessions && x1.sessions[k].task == t;
        assert k in c && x0.sessions[k].task == t;
      }
    }
  }

  lemma AdvanceTransitive(x0: Rows, x1: Rows, x2: Rows, w: Times)
    requires w.ext > 0 && Advance(x0, x1, w) && Advance(x1, x2, w)
    ensures Advance(x0, x2, w)
  {
    CancelledTransitive(x0, x1, x2);
    TasksTransitive(x0, x1, x2);
    forall id | id in x0.questions
      ensures RowAdvance(x0.questions[id], x2.questions[id], x0.questions[id].session in CancelledBetween(x0, x2), w)
    {
      RowFacts(x0.questions[id], x1.questions[id], x0.questions[id].session in CancelledBetween(x0, x1), w);
      RowAdvanceTransitive(x0.questions[id], x1.questions[id], x2.questions[id],
        x0.questions[id].session in CancelledBetween(x0, x1), x0.questions[id].session in CancelledBetween(x1, x2),
        x0.questions[id].session in CancelledBetween(x0, x2), w);
    }
  }

  // What the rest of this module needs of RowAdvance.
  lemma RowFacts(r0: Question, r: Question, cancelled: bool, w: Times)
    requires w.ext > 0 && RowAdvance(r0, r, cancelled, w)
    ensures r.session == r0.session
    ensures r0.status == TimedOut ==> r.status == TimedOut && r.timeoutAt == r0.timeoutAt
    ensures r0.status == TimedOut && !Owed(r0, w) ==> r == r0
    ensures r.status == TimedOut ==> r0.status == TimedOut || Ran(r0, Escalated, w.now)
    ensures Ran(r, Escalated, w.now) ==> r == r0
    ensures Owed(r, w) ==> r == r0 || (Ran(r0, Escalated, w.now) && r == Expired(r0))
  {
  }

  // ---------------------------------------------------------------------------
  // The parts of a tick
  // ---------------------------------------------------------------------------

  lemma SameSessions(x0: Rows, x: Rows)
    requires x.sessions == x0.sessions && x.tasks == x0.tasks
    ensures CancelledBetween(x0, x) == {} && TasksFollow(x0, x)
  {
    assert CancelledBetween(x0, x) == {};
  }

  lemma EscalateAdvances(x: Rows, ids: seq<QuestionId>, w: Times)
    requires w.ext > 0 && forall id :: id in ids ==> id in ExpiredList(x.questions, x.sessions, w.now)
    ensures Advance(x, ExtendAll(x, ids, w), w)
    ensures OverdueList(ExtendAll(x, ids, w).questions, x.sessions, w.now) ==
            OverdueList(x.questions, x.sessions, w.now)
  {
    SameSessions(x, ExtendAll(x, ids, w));
  }

  lemma NotifyAdvances(x: Rows, ids: seq<QuestionId>, w: Times)
    ensures Advance(x, Notify(x, ids, w), w)
  {
    SameSessions(x, Notify(x, ids, w));
  }

  // The sessions of these questions, unless they never ran, are the ones that a part of the tick cancels.
  lemma EndsExactly(x: Rows, over: set<SessionId>, listed: set<QuestionId>, w: Times)
    requires forall k :: k in over ==> k in x.sessions && x.sessions[k].status in {SessionStatus.Running, WaitingHitl}
    ensures var y := EndThem(x, listed, over, w);
      && CancelledBetween(x, y) == over && TasksFollow(x, y)
      && forall k :: k in x.sessions ==> SessionAdvance(x.sessions[k], y.sessions[k])
  {
    assert CancelledBetween(x, EndThem(x, listed, over, w)) == over;
  }

  lemma FinalizeAdvances(x: Rows, ids: seq<QuestionId>, w: Times)
    requires forall id :: id in ids ==> id in LeftOverList(x.questions, x.sessions)
    ensures Advance(x, Finalize(x, ids, w), w)
    ensures CancelledBetween(x, Finalize(x, ids, w)) == Endable(x, SessionsOf(x.questions, ids))
  {
    EndsExactly(x, Endable(x, SessionsOf(x.questions, ids)), Members(ids), w);
  }

  lemma TimeOutAdvances(x: Rows, ids: seq<QuestionId>, w: Times)
    requires forall id :: id in ids ==> id in OverdueList(x.questions, x.sessions, w.now)
    ensures Advance(x, TimeOut(x, ids, w), w)
    ensures CancelledBetween(x, TimeOut(x, ids, w)) == Endable(x, SessionsOf(x.questions, ids))
  {
    var m := Mark(x, Members(ids));
    var over := Endable(x, SessionsOf(x.questions, ids));
    assert SessionsOf(m.questions, ids) == SessionsOf(x.questions, ids) by {
      assert forall id :: id in ids ==> id in m.questions && m.questions[id].session == x.questions[id].session;
    }
    assert Endable(m, SessionsOf(m.questions, ids)) == over;
    EndsExactly(m, over, Members(ids), w);
    var y := TimeOut(x, ids, w);
    assert CancelledBetween(x, y) == CancelledBetween(m, y);
    assert forall t :: GivenBack(m, over, t) <==> GivenBack(x, over, t);
    forall id | id in x.questions
      ensures RowAdvance(x.questions[id], y.questions[id], x.questions[id].session in over, w)
    {
      assert y.questions[id] == RowAfter(m.questions[id], id in ids, x.questions[id].session in over, w);
    }
  }

  /** A tick does nothing but that to rows, whether or not its lists are cut off. */
  lemma TickAdvances(x: Rows, l: Lists, w: Times)
    requires w.ext > 0 && ListsOf(x, l, w)
    ensures Advance(x, AfterTick(x, l, w), w)
    ensures Advance(x, AfterTiers(x, l, w), w) && Advance(AfterTiers(x, l, w), AfterTick(x, l, w), w)
    ensures Advance(x, AfterNotices(x, l, w), w) && Advance(AfterNotices(x, l, w), AfterTick(x, l, w), w)
  {
    var x1, x2, x3 := ExtendAll(x, l.expired, w), AfterTiers(x, l, w), AfterNotices(x, l, w);
    EscalateAdvances(x, l.expired, w);
    TimeOutAdvances(x1, l.overdue, w);
    NotifyAdvances(x2, l.unnotified, w);
    FinalizeAdvances(x3, l.leftOver, w);
    AdvanceTransitive(x, x1, x2, w);
    AdvanceTransitive(x, x2, x3, w);
    AdvanceTransitive(x2, x3, AfterTick(x, l, w), w);
    AdvanceTransitive(x, x2, AfterTick(x, l, w), w);
  }

  // ---------------------------------------------------------------------------
  // When no list is cut off
  // ---------------------------------------------------------------------------

  // The sessions that tier 2 ends if its list is not cut off.
  function DueSessions(x: Rows, w: Times): set<SessionId> {
    Endable(x, set id | id in x.questions && Overdue(x.questions[id], x.sessions, w.now) :: x.questions[id].session)
  }

  // Owed notices once tier 2 is through.
  function NoticesDue(x: Rows, w: Times): set<QuestionId> {
    set id | id in x.questions && Owed(x.questions[id], w)
      && (On(x.sessions, x.questions[id], ENDED) || x.questions[id].session in DueSessions(x, w))
  }

  // Timed-out questions with a session to end, once tier 2 is through.
  function LeftDue(x: Rows, w: Times): set<QuestionId> {
    set id | id in x.questions
      && ((LeftOver(x.questions[id], x.sessions) && x.questions[id].session !in DueSessions(x, w))
          || (Overdue(x.questions[id], x.sessions, w.now) && On(x.sessions, x.questions[id], {SessionStatus.Pending})))
  }

  /** Whether every list of the tick will fit, as the rows tell when it begins. */
  predicate Few(x: Rows, w: Times) {
    && |ExpiredList(x.questions, x.sessions, w.now)| < SWEEP_LIMIT
    && |OverdueList(x.questions, x.sessions, w.now)| < SWEEP_LIMIT
    && |NoticesDue(x, w)| < SWEEP_LIMIT && |LeftDue(x, w)| < SWEEP_LIMIT
  }

  lemma OverdueIsListed(x: Rows, expired: seq<QuestionId>, overdue: seq<QuestionId>, w: Times)
    requires w.ext > 0 && forall id :: id in expired ==> id in ExpiredList(x.questions, x.sessions, w.now)
    requires var x1 := ExtendAll(x, expired, w);
             IsList(overdue, OverdueList(x1.questions, x1.sessions, w.now), x1.questions, w)
    ensures |overdue| < SWEEP_LIMIT <==> |OverdueList(x.questions, x.sessions, w.now)| < SWEEP_LIMIT
    ensures |overdue| < SWEEP_LIMIT ==> Members(overdue) == OverdueList(x.questions, x.sessions, w.now)
    ensures forall id :: id in overdue ==> id in OverdueList(x.questions, x.sessions, w.now)
  {
    var x1 := ExtendAll(x, expired, w);
    EscalateAdvances(x, expired, w);
    ListIsAll(overdue, OverdueList(x1.questions, x1.sessions, w.now), ByDeadline(x1.questions, w), SWEEP_LIMIT);
  }

  lemma DueIsEnded(x: Rows, overdue: seq<QuestionId>, w: Times)
    requires Members(overdue) == OverdueList(x.questions, x.sessions, w.now)
    ensures Endable(x, SessionsOf(x.questions, overdue)) == DueSessions(x, w)
  {
    assert forall id :: id in overdue <==> id in Members(overdue);
    assert SessionsOf(x.questions, overdue) ==
      set id | id in x.questions && Overdue(x.questions[id], x.sessions, w.now) :: x.questions[id].session;
  }

  // A row, and the sessions, after both tiers.
  lemma TiersRow(x: Rows, l: Lists, w: Times, id: QuestionId)
    requires id in x.questions
    ensures var over := Endable(x, SessionsOf(x.questions, l.overdue));
            var r1 := if id in l.expired then Extended(x.questions[id], w) else x.questions[id];
      && id in AfterTiers(x, l, w).questions
      && AfterTiers(x, l, w).questions[id] ==
           RowAfter(if id in l.overdue then Expired(r1) else r1, id in l.overdue, x.questions[id].session in over, w)
  {
    TiersSessions(x, l, w);
  }

  lemma TiersSessions(x: Rows, l: Lists, w: Times)
    ensures var m := Mark(ExtendAll(x, l.expired, w), Members(l.overdue));
            Endable(m, SessionsOf(m.questions, l.overdue)) == Endable(x, SessionsOf(x.questions, l.overdue))
    ensures var over := Endable(x, SessionsOf(x.questions, l.overdue));
            AfterTiers(x, l, w).sessions ==
              map k | k in x.sessions ::
                if k in over then x.sessions[k].(status := SessionStatus.Cancelled) else x.sessions[k]
  {
    var m := Mark(ExtendAll(x, l.expired, w), Members(l.overdue));
    assert forall i :: i in l.overdue && i in x.questions ==> m.questions[i].session == x.questions[i].session;
    assert SessionsOf(m.questions, l.overdue) == SessionsOf(x.questions, l.overdue);
  }

  lemma OwedAfterTiers(x: Rows, l: Lists, w: Times, id: QuestionId)
    requires w.ext > 0 && id in x.questions && (id in l.expired ==> Ran(x.questions[id], Open, w.now))
    requires id in l.overdue <==> Overdue(x.questions[id], x.sessions, w.now)
    requires Endable(x, SessionsOf(x.questions, l.overdue)) == DueSessions(x, w)
    ensures var x2 := AfterTiers(x, l, w);
            Owed(x2.questions[id], w) && On(x2.sessions, x2.questions[id], ENDED) <==> id in NoticesDue(x, w)
  {
    TiersRow(x, l, w, id);
    TiersSessions(x, l, w);
  }

  lemma LeftAfterTiers(x: Rows, l: Lists, w: Times, id: QuestionId)
    requires w.ext > 0 && id in x.questions && (id in l.expired ==> Ran(x.questions[id], Open, w.now))
    requires id in l.overdue <==> Overdue(x.questions[id], x.sessions, w.now)
    requires Endable(x, SessionsOf(x.questions, l.overdue)) == DueSessions(x, w)
    ensures var x2 := AfterTiers(x, l, w); LeftOver(x2.questions[id], x2.sessions) <==> id in LeftDue(x, w)
  {
    TiersRow(x, l, w, id);
    TiersSessions(x, l, w);
  }

  lemma ListsThreeAndFour(x: Rows, l: Lists, w: Times)
    requires w.ext > 0 && forall id :: id in l.expired ==> id in ExpiredList(x.questions, x.sessions, w.now)
    requires Members(l.overdue) == OverdueList(x.questions, x.sessions, w.now)
    ensures var x2 := AfterTiers(x, l, w); UnnotifiedList(x2.questions, x2.sessions, w.clock) == NoticesDue(x, w)
    ensures var x3 := AfterNotices(x, l, w); LeftOverList(x3.questions, x3.sessions) == LeftDue(x, w)
  {
    DueIsEnded(x, l.overdue, w);
    var x2, x3 := AfterTiers(x, l, w), AfterNotices(x, l, w);
    forall id | id in x.questions
      ensures id in UnnotifiedList(x2.questions, x2.sessions, w.clock) <==> id in NoticesDue(x, w)
      ensures LeftOver(x2.questions[id], x2.sessions) <==> id in LeftDue(x, w)
    {
      assert id in l.overdue <==> id in Members(l.overdue);
      OwedAfterTiers(x, l, w, id);
      LeftAfterTiers(x, l, w, id);
    }
    assert forall id :: id in x.questions ==>
      (LeftOver(x3.questions[id], x3.sessions) <==> LeftOver(x2.questions[id], x2.sessions));
  }

  /** Exactly then no list is cut off. */
  lemma UncutIffFew(x: Rows, l: Lists, w: Times)
    requires w.ext > 0 && ListsOf(x, l, w)
    ensures l.Uncut() <==> Few(x, w)
  {
    var x2, x3 := AfterTiers(x, l, w), AfterNotices(x, l, w);
    ListIsAll(l.expired, ExpiredList(x.questions, x.sessions, w.now), ByDeadline(x.questions, w), SWEEP_LIMIT);
    OverdueIsListed(x, l.expired, l.overdue, w);
    ListIsAll(l.unnotified, UnnotifiedList(x2.questions, x2.sessions, w.clock), ByDeadline(x2.questions, w),
      SWEEP_LIMIT);
    ListIsAll(l.leftOver, LeftOverList(x3.questions, x3.sessions), ByDeadline(x3.questions, w), SWEEP_LIMIT);
    if |l.overdue| < SWEEP_LIMIT {
      ListsThreeAndFour(x, l, w);
    }
  }

  // Questions that ran out in tier 1 have their extension, unless their session was cancelled in the same tick.
  ghost predicate AllExtended(x0: Rows, x: Rows, w: Times) {
    forall id :: id in ExpiredList(x0.questions, x0.sessions, w.now) ==>
      && id in x.questions
      && x.questions[id] == if x0.questions[id].session in CancelledBetween(x0, x)
           then Extended(x0.questions[id], w).(status := Withdrawn) else Extended(x0.questions[id], w)
  }

  // Every timed-out question of a session that is over was notified, or is claimed by somebody right now.
  predicate NoticesOut(x: Rows, clock: Time) {
    forall id :: id in x.questions && x.questions[id].status == TimedOut && On(x.sessions, x.questions[id], ENDED) ==>
      x.questions[id].notifiedAt.Some?
      || (x.questions[id].claimedAt.Some? && x.questions[id].claimedAt.value >= clock - CLAIM_TTL)
  }

  /** A session that never ran cannot be cancelled, so a question on it that is out of time stays behind. */
  function Stuck(x: Rows, now: Time): set<QuestionId> {
    set id | id in x.questions && On(x.sessions, x.questions[id], {SessionStatus.Pending})
      && (x.questions[id].status == TimedOut || Ran(x.questions[id], Escalated, now))
  }

  // An extended row is touched again only if its session is cancelled.
  lemma ExtendedRow(x: Rows, l: Lists, w: Times, id: QuestionId)
    requires w.ext > 0 && id in x.questions && Ran(x.questions[id], Open, w.now)
    requires id in l.expired && id !in l.overdue && id !in l.leftOver
    ensures var x3 := AfterNotices(x, l, w);
            AfterTick(x, l, w).questions[id] ==
              if x.questions[id].session in
                   Endable(x, SessionsOf(x.questions, l.overdue)) + Endable(x3, SessionsOf(x3.questions, l.leftOver))
                then Extended(x.questions[id], w).(status := Withdrawn) else Extended(x.questions[id], w)
  {
    TiersRow(x, l, w, id);
  }

  lemma ExtendedToTheEnd(x: Rows, l: Lists, w: Times)
    requires w.ext > 0 && Members(l.expired) == ExpiredList(x.questions, x.sessions, w.now)
    requires Members(l.overdue) == OverdueList(x.questions, x.sessions, w.now)
    requires var x3 := AfterNotices(x, l, w);
             forall id :: id in l.leftOver && id in x.questions ==> x3.questions[id].status == TimedOut
    requires var x3 := AfterNotices(x, l, w);
             CancelledBetween(x, AfterTick(x, l, w)) ==
               Endable(x, SessionsOf(x.questions, l.overdue)) + Endable(x3, SessionsOf(x3.questions, l.leftOver))
    ensures AllExtended(x, AfterTick(x, l, w), w)
  {
    forall id | id in ExpiredList(x.questions, x.sessions, w.now)
      ensures AfterTick(x, l, w).questions[id] ==
                if x.questions[id].session in CancelledBetween(x, AfterTick(x, l, w))
                  then Extended(x.questions[id], w).(status := Withdrawn) else Extended(x.questions[id], w)
    {
      assert id in Members(l.expired) && id !in Members(l.overdue);
      TiersRow(x, l, w, id);
      ExtendedRow(x, l, w, id);
    }
  }

  // Whom a tick cancels.
  lemma CancelledInTick(x: Rows, l: Lists, w: Times)
    requires Members(l.overdue) <= OverdueList(x.questions, x.sessions, w.now)
    requires var x2 := AfterTiers(x, l, w); Members(l.leftOver) <= LeftOverList(x2.questions, x2.sessions)
    ensures var x3 := AfterNotices(x, l, w);
            CancelledBetween(x, AfterTick(x, l, w)) ==
              Endable(x, SessionsOf(x.questions, l.overdue)) + Endable(x3, SessionsOf(x3.questions, l.leftOver))
  {
    var x3, y := AfterNotices(x, l, w), AfterTick(x, l, w);
    var o2, o4 := Endable(x, SessionsOf(x.questions, l.overdue)), Endable(x3, SessionsOf(x3.questions, l.leftOver));
    TiersSessions(x, l, w);
    assert forall id :: id in l.overdue <==> id in Members(l.overdue);
    assert forall id :: id in l.leftOver <==> id in Members(l.leftOver);
    forall k | k in x.sessions ensures k in CancelledBetween(x, y) <==> k in o2 + o4 {
      assert k in o2 ==> Live(x.sessions[k].status);
      assert k in o4 ==> Live(x3.sessions[k].status);
    }
  }

  lemma NothingOverdueAfter(x: Rows, x2: Rows, y: Rows, w: Times)
    requires w.ext > 0 && Advance(x, x2, w) && Advance(x2, y, w)
    requires forall id :: id in OverdueList(x.questions, x.sessions, w.now) ==> x2.questions[id].status == TimedOut
    ensures OverdueList(y.questions, y.sessions, w.now) == {}
  {
    forall id | id in x.questions ensures !Overdue(y.questions[id], y.sessions, w.now) {
      var k := x.questions[id].session;
      RowFacts(x.questions[id], x2.questions[id], k in CancelledBetween(x, x2), w);
      RowFacts(x2.questions[id], y.questions[id], k in CancelledBetween(x2, y), w);
      assert k in x.sessions ==>
        SessionAdvance(x.sessions[k], x2.sessions[k]) && SessionAdvance(x2.sessions[k], y.sessions[k]);
    }
  }

  lemma ListedTimeOut(x: Rows, l: Lists, w: Times)
    requires w.ext > 0
    ensures forall id :: id in l.overdue && id in x.questions ==> AfterTiers(x, l, w).questions[id].status == TimedOut
  {
    forall id | id in l.overdue && id in x.questions ensures AfterTiers(x, l, w).questions[id].status == TimedOut {
      TiersRow(x, l, w, id);
    }
  }

  // The last two lists: what is left over has a session that never ran, and no notice is owed.
  lemma NothingOwedAfter(x2: Rows, unnotified: seq<QuestionId>, leftOver: seq<QuestionId>, w: Times)
    requires Members(unnotified) == UnnotifiedList(x2.questions, x2.sessions, w.clock)
    requires Members(leftOver) == LeftOverList(x2.questions, x2.sessions)
    ensures var y := Finalize(Notify(x2, unnotified, w), leftOver, w);
      && NoticesOut(y, w.clock)
      && forall id :: id in x2.questions ==>
           (LeftOver(y.questions[id], y.sessions) <==>
             LeftOver(x2.questions[id], x2.sessions) && On(x2.sessions, x2.questions[id], {SessionStatus.Pending}))
  {
    var x3 := Notify(x2, unnotified, w);
    var y := Finalize(x3, leftOver, w);
    var over := Endable(x3, SessionsOf(x3.questions, leftOver));
    forall id | id in x2.questions
      ensures y.questions[id].status == TimedOut && On(y.sessions, y.questions[id], ENDED) ==>
                !Owed(y.questions[id], w)
      ensures LeftOver(y.questions[id], y.sessions) <==>
                LeftOver(x2.questions[id], x2.sessions) && On(x2.sessions, x2.questions[id], {SessionStatus.Pending})
    {
      assert id in unnotified <==> id in Members(unnotified);
      assert id in leftOver <==> id in Members(leftOver);
      assert y.questions[id] == RowAfter(x3.questions[id], id in leftOver, x3.questions[id].session in over, w);
    }
  }

  lemma StuckIsLeft(x: Rows, l: Lists, w: Times)
    requires w.ext > 0 && forall id :: id in l.expired ==> id in ExpiredList(x.questions, x.sessions, w.now)
    requires Members(l.overdue) == OverdueList(x.questions, x.sessions, w.now)
    ensures var x2 := AfterTiers(x, l, w);
            forall id :: id in x.questions ==>
              (id in Stuck(x, w.now) <==>
                LeftOver(x2.questions[id], x2.sessions) && On(x2.sessions, x2.questions[id], {SessionStatus.Pending}))
  {
    DueIsEnded(x, l.overdue, w);
    TiersSessions(x, l, w);
    forall id | id in x.questions
      ensures var x2 := AfterTiers(x, l, w);
              id in Stuck(x, w.now) <==>
                LeftOver(x2.questions[id], x2.sessions) && On(x2.sessions, x2.questions[id], {SessionStatus.Pending})
    {
      assert id in l.overdue <==> id in Members(l.overdue);
      TiersRow(x, l, w, id);
    }
  }

  // What lists that are not cut off hold.
  lemma UncutHoldsAll(x: Rows, l: Lists, w: Times)
    requires w.ext > 0 && ListsOf(x, l, w) && l.Uncut()
    ensures Members(l.expired) == ExpiredList(x.questions, x.sessions, w.now)
    ensures Members(l.overdue) == OverdueList(x.questions, x.sessions, w.now)
    ensures var x2 := AfterTiers(x, l, w);
      && Members(l.unnotified) == UnnotifiedList(x2.questions, x2.sessions, w.clock)
      && Members(l.leftOver) == LeftOverList(x2.questions, x2.sessions)
    ensures forall id :: id in l.leftOver ==> AfterNotices(x, l, w).questions[id].status == TimedOut
  {
    var x2, x3 := AfterTiers(x, l, w), AfterNotices(x, l, w);
    OverdueIsListed(x, l.expired, l.overdue, w);
    ListIsAll(l.expired, ExpiredList(x.questions, x.sessions, w.now), ByDeadline(x.questions, w), SWEEP_LIMIT);
    ListIsAll(l.unnotified, UnnotifiedList(x2.questions, x2.sessions, w.clock), ByDeadline(x2.questions, w),
      SWEEP_LIMIT);
    ListIsAll(l.leftOver, LeftOverList(x3.questions, x3.sessions), ByDeadline(x3.questions, w), SWEEP_LIMIT);
    SameLeftOver(x2, l.unnotified, w);
    assert forall id :: id in l.leftOver <==> id in Members(l.leftOver);
  }

  lemma SameLeftOver(x2: Rows, unnotified: seq<QuestionId>, w: Times)
    ensures var x3 := Notify(x2, unnotified, w);
            LeftOverList(x3.questions, x3.sessions) == LeftOverList(x2.questions, x2.sessions)
  {
    var x3 := Notify(x2, unnotified, w);
    assert forall id :: id in x2.questions ==>
      (LeftOver(x3.questions[id], x3.sessions) <==> LeftOver(x2.questions[id], x2.sessions));
  }

  /** A tick of which no list is cut off: what ran out has its extension, nothing is overdue, all notices are out... */
  lemma TickConverges(x: Rows, l: Lists, w: Times)
    requires w.ext > 0 && ListsOf(x, l, w) && l.Uncut()
    ensures var y := AfterTick(x, l, w);
            AllExtended(x, y, w) && OverdueList(y.questions, y.sessions, w.now) == {} && NoticesOut(y, w.clock)
  {
    var x2 := AfterTiers(x, l, w);
    UncutHoldsAll(x, l, w);
    CancelledInTick(x, l, w);
    ExtendedToTheEnd(x, l, w);
    TickAdvances(x, l, w);
    ListedTimeOut(x, l, w);
    assert forall id :: id in OverdueList(x.questions, x.sessions, w.now) <==> id in Members(l.overdue);
    NothingOverdueAfter(x, x2, AfterTick(x, l, w), w);
    NothingOwedAfter(x2, l.unnotified, l.leftOver, w);
  }

  /** ... and what is left over is exactly what was stuck. */
  lemma LeftOverIsStuck(x: Rows, l: Lists, w: Times)
    requires w.ext > 0 && ListsOf(x, l, w) && l.Uncut()
    ensures LeftOverList(AfterTick(x, l, w).questions, AfterTick(x, l, w).sessions) == Stuck(x, w.now)
  {
    UncutHoldsAll(x, l, w);
    LeftIsStuck(x, l, w);
  }

  lemma LeftIsStuck(x: Rows, l: Lists, w: Times)
    requires w.ext > 0 && Members(l.expired) == ExpiredList(x.questions, x.sessions, w.now)
    requires Members(l.overdue) == OverdueList(x.questions, x.sessions, w.now)
    requires var x2 := AfterTiers(x, l, w);
      && Members(l.unnotified) == UnnotifiedList(x2.questions, x2.sessions, w.clock)
      && Members(l.leftOver) == LeftOverList(x2.questions, x2.sessions)
    ensures LeftOverList(AfterTick(x, l, w).questions, AfterTick(x, l, w).sessions) == Stuck(x, w.now)
  {
    NothingOwedAfter(AfterTiers(x, l, w), l.unnotified, l.leftOver, w);
    assert forall id :: id in l.expired <==> id in Members(l.expired);
    StuckIsLeft(x, l, w);
  }
}
