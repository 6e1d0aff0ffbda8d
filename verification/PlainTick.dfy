/**
 * A tick of the timeout sweep in one piece: what it makes of each row, told from statuses and times
 * alone, and the proof that the four lists come to that when none of them is cut off.
 */
module PlainTick {
  import opened Domain
  import opened Questions
  import opened Postgres
  import opened TimeoutSweep
  import opened TimeoutTicks
  import opened Worklist

  predicate RanOut(r: Question, now: Time) {
    r.timeoutAt.Some? && r.timeoutAt.value <= now
  }

  function StatusOf(x: Rows, k: SessionId): Option<SessionStatus> {
    if k in x.sessions then Some(x.sessions[k].status) else None
  }

  // A session that has run ends with the tick if any question of it is timed out or about to be.
  predicate WillEnd(x: Rows, k: SessionId, now: Time) {
    && (StatusOf(x, k) == Some(SessionStatus.Running) || StatusOf(x, k) == Some(SessionStatus.WaitingHitl))
    && exists id :: id in x.questions && x.questions[id].session == k
         && (x.questions[id].status == TimedOut
             || (x.questions[id].status == Escalated && RanOut(x.questions[id], now)))
  }

  // One notice for a question, unless one was sent or somebody claimed it in the last five minutes.
  function SendNotice(r: Question, clock: Time): Question {
    if r.notifiedAt.None? && (r.claimedAt.None? || r.claimedAt.value < clock - 5 * 60)
    then r.(claimedAt := None, notifiedAt := Some(clock)) else r
  }

  /** A row after the tick, given its session's status before and whether that session ends. */
  function RowLater(r: Question, status: Option<SessionStatus>, ends: bool, w: Times): Question {
    match (r.status, status)
    case (_, None) => r
    case (Open, Some(s)) =>
      var next := if !RanOut(r, w.now) || s == Completed || s == Failed then r
        else r.(status := Escalated, timeoutAt := Some(w.now + w.ext));
      if ends then next.(status := Withdrawn) else next
    case (Escalated, Some(s)) =>
      if !RanOut(r, w.now) then (if ends then r.(status := Withdrawn) else r)
      else if s == Running || s == WaitingHitl then SendNotice(r.(status := TimedOut), w.clock)
      else if s == Pending then r.(status := TimedOut)
      else r
    case (TimedOut, Some(s)) => if s == Pending then r else SendNotice(r, w.clock)
    case _ => r
  }

  predicate TaskEnds(x: Rows, task: TaskId, now: Time) {
    exists k :: k in x.sessions && x.sessions[k].task == task && WillEnd(x, k, now)
  }

  function Later(x: Rows, w: Times): Rows {
    Rows(
      map id | id in x.questions ::
        var k := x.questions[id].session; RowLater(x.questions[id], StatusOf(x, k), WillEnd(x, k, w.now), w),
      map k | k in x.sessions ::
        if WillEnd(x, k, w.now) then x.sessions[k].(status := SessionStatus.Cancelled) else x.sessions[k],
      map t | t in x.tasks ::
        if (x.tasks[t] == InProgress || x.tasks[t] == Review) && TaskEnds(x, t, w.now) then Backlog else x.tasks[t])
  }

  // ---------------------------------------------------------------------------
  // The lists come to that
  // ---------------------------------------------------------------------------

  // What lists that are not cut off say of each row.
  ghost predicate Whole(x: Rows, l: Lists, w: Times) {
    && Members(l.expired) == ExpiredList(x.questions, x.sessions, w.now)
    && Members(l.overdue) == OverdueList(x.questions, x.sessions, w.now)
    && Members(l.unnotified) == UnnotifiedList(AfterTiers(x, l, w).questions, AfterTiers(x, l, w).sessions, w.clock)
    && Members(l.leftOver) == LeftOverList(AfterTiers(x, l, w).questions, AfterTiers(x, l, w).sessions)
  }

  // The sessions that each half of the tick ends.
  function EndedFirst(x: Rows, l: Lists): set<SessionId> {
    Endable(x, SessionsOf(x.questions, l.overdue))
  }

  function EndedLast(x: Rows, l: Lists, w: Times): set<SessionId> {
    Endable(AfterNotices(x, l, w), SessionsOf(AfterNotices(x, l, w).questions, l.leftOver))
  }

  predicate HasRun(x: Rows, k: SessionId) {
    StatusOf(x, k) == Some(SessionStatus.Running) || StatusOf(x, k) == Some(SessionStatus.WaitingHitl)
  }

  predicate PastDue(x: Rows, k: SessionId, id: QuestionId, now: Time) {
    id in x.questions && x.questions[id].session == k && x.questions[id].status == Escalated
      && RanOut(x.questions[id], now)
  }

  lemma EndedFirstIs(x: Rows, l: Lists, w: Times, k: SessionId)
    requires Whole(x, l, w)
    ensures k in EndedFirst(x, l) <==> HasRun(x, k) && exists id :: PastDue(x, k, id, w.now)
  {
    assert forall id :: id in l.overdue <==> id in Members(l.overdue);
    if id :| PastDue(x, k, id, w.now) {
      assert HasRun(x, k) ==> Overdue(x.questions[id], x.sessions, w.now) && id in Members(l.overdue);
    }
    if k in EndedFirst(x, l) {
      var id :| id in l.overdue && id in x.questions && x.questions[id].session == k;
      assert PastDue(x, k, id, w.now);
    }
  }

  // A row that tier 2 leaves timed out on a session that still runs was timed out before.
  lemma LeftTimedOut(x: Rows, l: Lists, w: Times, id: QuestionId)
    requires Whole(x, l, w) && id in x.questions && HasRun(x, x.questions[id].session)
    requires x.questions[id].session !in EndedFirst(x, l)
    ensures LeftOver(AfterTiers(x, l, w).questions[id], AfterTiers(x, l, w).sessions) <==>
            x.questions[id].status == TimedOut
  {
    TiersRow(x, l, w, id);
    TiersSessions(x, l, w);
    EndedFirstIs(x, l, w, x.questions[id].session);
    assert forall i :: i in l.expired <==> i in Members(l.expired);
    assert forall i :: i in l.overdue <==> i in Members(l.overdue);
    assert Overdue(x.questions[id], x.sessions, w.now) ==> PastDue(x, x.questions[id].session, id, w.now);
  }

  lemma EndedLastRan(x: Rows, l: Lists, w: Times, k: SessionId)
    requires Whole(x, l, w) && k in EndedLast(x, l, w)
    ensures HasRun(x, k) && k !in EndedFirst(x, l)
  {
    var x2, x3 := AfterTiers(x, l, w), AfterNotices(x, l, w);
    var id :| id in l.leftOver && id in x3.questions && x3.questions[id].session == k;
    assert id in Members(l.leftOver);
    assert x3.sessions == x2.sessions && x2.questions[id].session == k && Live(x2.sessions[k].status);
    LiveAfterTiers(x, l, w, k);
  }

  lemma LiveAfterTiers(x: Rows, l: Lists, w: Times, k: SessionId)
    ensures k in AfterTiers(x, l, w).sessions && Live(AfterTiers(x, l, w).sessions[k].status) ==>
              k in x.sessions && k !in EndedFirst(x, l) && AfterTiers(x, l, w).sessions[k] == x.sessions[k]
  {
    TiersSessions(x, l, w);
  }

  lemma LeftOfSession(x: Rows, l: Lists, w: Times, k: SessionId, id: QuestionId)
    requires Whole(x, l, w) && HasRun(x, k) && k !in EndedFirst(x, l)
    ensures id in AfterNotices(x, l, w).questions && AfterNotices(x, l, w).questions[id].session == k
              && id in l.leftOver
            <==> id in x.questions && x.questions[id].session == k && x.questions[id].status == TimedOut
  {
    if id in x.questions {
      TiersRow(x, l, w, id);
      if x.questions[id].session == k {
        LeftTimedOut(x, l, w, id);
        assert id in l.leftOver <==> id in Members(l.leftOver);
      }
    }
  }

  lemma EndedLastIs(x: Rows, l: Lists, w: Times, k: SessionId)
    requires Whole(x, l, w)
    ensures k in EndedLast(x, l, w) <==>
      && HasRun(x, k) && k !in EndedFirst(x, l)
      && exists id :: id in x.questions && x.questions[id].session == k && x.questions[id].status == TimedOut
  {
    if k in EndedLast(x, l, w) {
      EndedLastRan(x, l, w, k);
    }
    if HasRun(x, k) && k !in EndedFirst(x, l) {
      forall id
        ensures id in AfterNotices(x, l, w).questions && AfterNotices(x, l, w).questions[id].session == k
                  && id in l.leftOver
                <==> id in x.questions && x.questions[id].session == k && x.questions[id].status == TimedOut
      {
        LeftOfSession(x, l, w, k, id);
      }
      TiersSessions(x, l, w);
      LastOfThem(AfterNotices(x, l, w), l.leftOver, k);
    }
  }

  lemma LastOfThem(x: Rows, ids: seq<QuestionId>, k: SessionId)
    requires HasRun(x, k)
    ensures k in Endable(x, SessionsOf(x.questions, ids)) <==>
            exists id :: id in x.questions && x.questions[id].session == k && id in ids
  {
  }

  lemma EndedIs(x: Rows, l: Lists, w: Times, k: SessionId)
    requires Whole(x, l, w)
    ensures WillEnd(x, k, w.now) <==> k in EndedFirst(x, l) || k in EndedLast(x, l, w)
  {
    EndedFirstIs(x, l, w, k);
    EndedLastIs(x, l, w, k);
    if id :| PastDue(x, k, id, w.now) {
      assert HasRun(x, k) ==> WillEnd(x, k, w.now);
    }
    if WillEnd(x, k, w.now) {
      var id :| id in x.questions && x.questions[id].session == k
        && (x.questions[id].status == TimedOut
            || (x.questions[id].status == Escalated && RanOut(x.questions[id], w.now)));
      assert x.questions[id].status == Escalated ==> PastDue(x, k, id, w.now);
    }
  }

  lemma NoticeIs(r: Question, w: Times)
    requires r.status == TimedOut
    ensures Notified(r, w) == SendNotice(r, w.clock)
  {
  }

  // ----- rows -----

  // A row through the parts of a tick: which lists it is on, and which part ends its session.
  datatype Way = Way(expired: bool, overdue: bool, unnotified: bool, leftOver: bool, first: bool, last: bool)

  function AfterTwo(r: Question, v: Way, w: Times): Question {
    var r1 := if v.expired then Extended(r, w) else r;
    RowAfter(if v.overdue then Expired(r1) else r1, v.overdue, v.first, w)
  }

  function Through(r: Question, v: Way, w: Times): Question {
    var r2 := AfterTwo(r, v, w);
    RowAfter(if v.unnotified then Notified(r2, w) else r2, v.leftOver, v.last, w)
  }

  ghost function WayOf(x: Rows, l: Lists, w: Times, id: QuestionId): Way
    requires id in x.questions
  {
    var k := x.questions[id].session;
    Way(id in l.expired, id in l.overdue, id in l.unnotified, id in l.leftOver, k in EndedFirst(x, l),
      k in EndedLast(x, l, w))
  }

  lemma TwoRow(x: Rows, l: Lists, w: Times, id: QuestionId)
    requires id in x.questions
    ensures id in AfterTiers(x, l, w).questions
    ensures AfterTiers(x, l, w).questions[id] == AfterTwo(x.questions[id], WayOf(x, l, w, id), w)
  {
    TiersRow(x, l, w, id);
  }

  lemma LastTwoRow(x2: Rows, unnotified: seq<QuestionId>, leftOver: seq<QuestionId>, w: Times, id: QuestionId)
    requires id in x2.questions
    ensures var x3, r := Notify(x2, unnotified, w), x2.questions[id];
      && id in Finalize(x3, leftOver, w).questions
      && Finalize(x3, leftOver, w).questions[id] ==
           RowAfter(if id in unnotified then Notified(r, w) else r, id in leftOver,
             r.session in Endable(x3, SessionsOf(x3.questions, leftOver)), w)
  {
  }

  lemma TickRow(x: Rows, l: Lists, w: Times, id: QuestionId)
    requires id in x.questions
    ensures id in AfterTick(x, l, w).questions
    ensures AfterTick(x, l, w).questions[id] == Through(x.questions[id], WayOf(x, l, w, id), w)
  {
    TwoRow(x, l, w, id);
    LastTwoRow(AfterTiers(x, l, w), l.unnotified, l.leftOver, w, id);
  }

  predicate Alive(s: Option<SessionStatus>) {
    s == Some(SessionStatus.Pending) || s == Some(SessionStatus.Running) || s == Some(SessionStatus.WaitingHitl)
  }

  predicate Over(s: Option<SessionStatus>) {
    s == Some(SessionStatus.Cancelled) || s == Some(SessionStatus.Completed) || s == Some(SessionStatus.Failed)
  }

  // What the lists say of a row, given its session's status.
  predicate Listed(r: Question, s: Option<SessionStatus>, v: Way, w: Times) {
    && (v.expired <==> r.status == Open && RanOut(r, w.now) && (Alive(s) || s == Some(SessionStatus.Cancelled)))
    && (v.overdue <==> r.status == Escalated && RanOut(r, w.now) && Alive(s))
    && (v.unnotified <==> Owed(AfterTwo(r, v, w), w) && (v.first || Over(s)))
    && (v.leftOver <==> AfterTwo(r, v, w).status == TimedOut && !v.first && Alive(s))
  }

  // What the ended sessions have to do with it.
  predicate Ended(r: Question, s: Option<SessionStatus>, v: Way, ends: bool) {
    var ran := s == Some(SessionStatus.Running) || s == Some(SessionStatus.WaitingHitl);
    && (ends <==> v.first || v.last) && (ends ==> ran) && (v.last ==> !v.first)
    && (v.overdue && ran ==> v.first) && (r.status == TimedOut && ran ==> ends)
  }

  lemma TierListsTell(x: Rows, l: Lists, w: Times, id: QuestionId)
    requires Whole(x, l, w) && id in x.questions
    ensures var r, s := x.questions[id], StatusOf(x, x.questions[id].session);
      && (id in l.expired <==>
            r.status == Open && RanOut(r, w.now) && (Alive(s) || s == Some(SessionStatus.Cancelled)))
      && (id in l.overdue <==> r.status == Escalated && RanOut(r, w.now) && Alive(s))
  {
    assert id in l.expired <==> id in Members(l.expired);
    assert id in l.overdue <==> id in Members(l.overdue);
  }

  lemma FollowUpsTell(x: Rows, l: Lists, w: Times, id: QuestionId)
    requires Whole(x, l, w) && id in x.questions && id in AfterTiers(x, l, w).questions
    requires AfterTiers(x, l, w).questions[id].session == x.questions[id].session
    ensures var r2, s := AfterTiers(x, l, w).questions[id], StatusOf(x, x.questions[id].session);
            var first := x.questions[id].session in EndedFirst(x, l);
      && (id in l.unnotified <==> Owed(r2, w) && (first || Over(s)))
      && (id in l.leftOver <==> r2.status == TimedOut && !first && Alive(s))
  {
    TiersSessions(x, l, w);
    assert id in l.unnotified <==> id in Members(l.unnotified);
    assert id in l.leftOver <==> id in Members(l.leftOver);
  }

  lemma ListsTell(x: Rows, l: Lists, w: Times, id: QuestionId)
    requires Whole(x, l, w) && id in x.questions
    ensures Listed(x.questions[id], StatusOf(x, x.questions[id].session), WayOf(x, l, w, id), w)
  {
    TwoRow(x, l, w, id);
    TierListsTell(x, l, w, id);
    FollowUpsTell(x, l, w, id);
  }

  lemma EndsTell(x: Rows, l: Lists, w: Times, id: QuestionId)
    requires Whole(x, l, w) && id in x.questions
    ensures var k := x.questions[id].session;
            Ended(x.questions[id], StatusOf(x, k), WayOf(x, l, w, id), WillEnd(x, k, w.now))
  {
    var k := x.questions[id].session;
    EndedIs(x, l, w, k);
    EndedFirstIs(x, l, w, k);
    EndedLastIs(x, l, w, k);
    assert id in l.overdue ==> PastDue(x, k, id, w.now) by {
      assert id in l.overdue <==> id in Members(l.overdue);
    }
  }

  // That is all it takes: the row comes out as told.
  lemma ThroughIsLater(r: Question, s: Option<SessionStatus>, v: Way, ends: bool, w: Times)
    requires Listed(r, s, v, w) && Ended(r, s, v, ends)
    ensures Through(r, v, w) == RowLater(r, s, ends, w)
  {
  }

  lemma RowIs(x: Rows, l: Lists, w: Times, id: QuestionId)
    requires Whole(x, l, w) && id in x.questions
    ensures id in AfterTick(x, l, w).questions
    ensures var r := x.questions[id];
            AfterTick(x, l, w).questions[id] ==
              RowLater(r, StatusOf(x, r.session), WillEnd(x, r.session, w.now), w)
  {
    var k := x.questions[id].session;
    ListsTell(x, l, w, id);
    EndsTell(x, l, w, id);
    TickRow(x, l, w, id);
    ThroughIsLater(x.questions[id], StatusOf(x, k), WayOf(x, l, w, id), WillEnd(x, k, w.now), w);
  }

  // ----- sessions and tasks -----

  lemma SessionIs(x: Rows, l: Lists, w: Times, k: SessionId)
    requires Whole(x, l, w) && k in x.sessions
    ensures k in AfterTick(x, l, w).sessions
    ensures AfterTick(x, l, w).sessions[k] ==
            if WillEnd(x, k, w.now) then x.sessions[k].(status := SessionStatus.Cancelled) else x.sessions[k]
  {
    TiersSessions(x, l, w);
    EndedIs(x, l, w, k);
  }

  lemma TaskIs(x: Rows, y: Rows, w: Times, t: TaskId)
    requires TasksFollow(x, y) && t in x.tasks && y.sessions == Later(x, w).sessions
    ensures y.tasks[t] == if (x.tasks[t] == InProgress || x.tasks[t] == Review) && TaskEnds(x, t, w.now)
                          then Backlog else x.tasks[t]
  {
    if k :| k in x.sessions && x.sessions[k].task == t && WillEnd(x, k, w.now) {
      assert k in CancelledBetween(x, y);
    }
  }

  // ----- the whole -----

  lemma UncutIsWhole(x: Rows, l: Lists, w: Times)
    requires w.ext > 0 && ListsOf(x, l, w)
    requires |l.expired| < 50 && |l.overdue| < 50 && |l.unnotified| < 50 && |l.leftOver| < 50
    ensures Whole(x, l, w) && TasksFollow(x, AfterTick(x, l, w))
  {
    UncutHoldsAll(x, l, w);
    TickAdvances(x, l, w);
  }

  /** With fewer than 50 rows on each list the tick is `Later`. */
  lemma UncutTickIs(x: Rows, l: Lists, w: Times)
    requires w.ext > 0 && ListsOf(x, l, w)
    requires |l.expired| < 50 && |l.overdue| < 50 && |l.unnotified| < 50 && |l.leftOver| < 50
    ensures AfterTick(x, l, w) == Later(x, w)
  {
    UncutIsWhole(x, l, w);
    WholeTickIs(x, l, w);
  }

  lemma QuestionsAre(x: Rows, l: Lists, w: Times)
    requires Whole(x, l, w)
    ensures AfterTick(x, l, w).questions == Later(x, w).questions
  {
    SameKeys(x, l, w);
    forall id | id in x.questions ensures AfterTick(x, l, w).questions[id] == Later(x, w).questions[id] {
      RowIs(x, l, w, id);
    }
  }

  lemma SessionsAre(x: Rows, l: Lists, w: Times)
    requires Whole(x, l, w)
    ensures AfterTick(x, l, w).sessions == Later(x, w).sessions
  {
    SameKeys(x, l, w);
    forall k | k in x.sessions ensures AfterTick(x, l, w).sessions[k] == Later(x, w).sessions[k] {
      SessionIs(x, l, w, k);
    }
  }

  lemma TasksAre(x: Rows, y: Rows, w: Times)
    requires TasksFollow(x, y) && y.sessions == Later(x, w).sessions
    ensures y.tasks == Later(x, w).tasks
  {
    forall t | t in x.tasks ensures y.tasks[t] == Later(x, w).tasks[t] {
      TaskIs(x, y, w, t);
    }
  }

  lemma WholeTickIs(x: Rows, l: Lists, w: Times)
    requires Whole(x, l, w) && TasksFollow(x, AfterTick(x, l, w))
    ensures AfterTick(x, l, w) == Later(x, w)
  {
    QuestionsAre(x, l, w);
    SessionsAre(x, l, w);
    TasksAre(x, AfterTick(x, l, w), w);
  }

  lemma SameKeys(x: Rows, l: Lists, w: Times)
    ensures AfterTick(x, l, w).questions.Keys == x.questions.Keys
    ensures AfterTick(x, l, w).sessions.Keys == x.sessions.Keys
  {
    TiersSessions(x, l, w);
  }

  // A row and its session's status after the tick.
  lemma RowAndStatusLater(x: Rows, w: Times, id: QuestionId)
    requires id in x.questions
    ensures var r, k := x.questions[id], x.questions[id].session;
            var ends := WillEnd(x, k, w.now);
      && id in Later(x, w).questions && Later(x, w).questions[id] == RowLater(r, StatusOf(x, k), ends, w)
      && Later(x, w).questions[id].session == k
      && StatusOf(Later(x, w), k) == if ends then Some(SessionStatus.Cancelled) else StatusOf(x, k)
  {
  }

  // Of a row that can still be dealt with: it is not past due at the end, and has timed out if it was.
  predicate NotPastDue(x: Rows, y: Rows, now: Time, id: QuestionId) {
    && id in x.questions && id in y.questions
    && var r, r' := x.questions[id], y.questions[id];
      && (r.status == Escalated && RanOut(r, now) && Alive(StatusOf(x, r.session)) ==> r'.status == TimedOut)
      && (r'.status == Escalated && RanOut(r', now) ==> !Alive(StatusOf(y, r'.session)))
      && (r'.status == Open && RanOut(r', now) ==>
            StatusOf(y, r'.session) in {None, Some(SessionStatus.Completed), Some(SessionStatus.Failed)})
  }

  lemma NotPastDueLater(x: Rows, w: Times, id: QuestionId)
    requires w.ext > 0 && id in x.questions
    ensures NotPastDue(x, Later(x, w), w.now, id)
  {
    RowAndStatusLater(x, w, id);
  }

  /** So nothing is past due after it, and all that was has timed out. */
  lemma NothingPastDue(x: Rows, l: Lists, w: Times)
    requires w.ext > 0 && ListsOf(x, l, w)
    requires |l.expired| < 50 && |l.overdue| < 50 && |l.unnotified| < 50 && |l.leftOver| < 50
    ensures forall id :: id in x.questions ==> NotPastDue(x, AfterTick(x, l, w), w.now, id)
  {
    UncutTickIs(x, l, w);
    forall id | id in x.questions ensures NotPastDue(x, Later(x, w), w.now, id) {
      NotPastDueLater(x, w, id);
    }
  }
}
