/** What becomes of a backlog of timed-out questions, larger than the sweep's lists, if ticks are all that happens. */
module SweepBacklog {
  import opened Domain
  import opened Questions
  import opened Postgres
  import opened TimeoutSweep
  import opened TimeoutTicks
  import opened Worklist

  // One tick after the other.
  ghost predicate TickAt(xs: seq<Rows>, ls: seq<Lists>, ws: seq<Times>, i: nat)
    requires i < |ls| == |ws| && i + 1 < |xs|
  {
    ListsOf(xs[i], ls[i], ws[i]) && xs[i + 1] == AfterTick(xs[i], ls[i], ws[i])
  }

  ghost predicate OnlyTicks(xs: seq<Rows>, ls: seq<Lists>, ws: seq<Times>, created: QuestionId -> Time) {
    && |xs| == |ls| + 1 && |ls| == |ws|
    && (forall i :: 0 <= i < |ws| ==> ws[i].ext > 0 && ws[i].created == created)
    && forall i {:trigger TickAt(xs, ls, ws, i)} :: 0 <= i < |ls| ==> TickAt(xs, ls, ws, i)
  }

  predicate Before(q: Table, created: QuestionId -> Time, a: QuestionId, b: QuestionId) {
    Precedes(Order((id: QuestionId) => Deadline(q, id), created), a, b)
  }

  // Timed-out questions of sessions that never ran, ahead of question id: the sweep meets them first, in vain.
  function Blockers(x: Rows, created: QuestionId -> Time, id: QuestionId): set<QuestionId> {
    set b | b in x.questions && x.questions[b].status == TimedOut
      && On(x.sessions, x.questions[b], {SessionStatus.Pending}) && Before(x.questions, created, b, id)
  }

  // The same with those that are still to time out.
  function BlockersToBe(x: Rows, created: QuestionId -> Time, id: QuestionId): set<QuestionId> {
    set b | b in x.questions && x.questions[b].status in {TimedOut, Escalated}
      && On(x.sessions, x.questions[b], {SessionStatus.Pending}) && Before(x.questions, created, b, id)
  }

  predicate CanEnd(x: Rows, k: SessionId) {
    k in x.sessions && x.sessions[k].status in {SessionStatus.Running, WaitingHitl}
  }

  // Questions ahead that the sweep can deal with.
  function Queue(x: Rows, created: QuestionId -> Time, id: QuestionId): set<QuestionId> {
    set b | b in x.questions && x.questions[b].status == TimedOut && CanEnd(x, x.questions[b].session)
      && Before(x.questions, created, b, id)
  }

  // ---------------------------------------------------------------------------
  // Starvation
  // ---------------------------------------------------------------------------

  // A session with a list full of blockers ahead of each of its questions.
  predicate Starved(x: Rows, created: QuestionId -> Time, k: SessionId) {
    && CanEnd(x, k)
    && forall id :: id in x.questions && x.questions[id].session == k ==>
         && !Unresolved(x.questions[id])
         && (x.questions[id].status == TimedOut ==> |Blockers(x, created, id)| >= SWEEP_LIMIT)
  }

  lemma BlockersStay(x: Rows, y: Rows, w: Times, created: QuestionId -> Time, id: QuestionId)
    requires w.ext > 0 && Advance(x, y, w) && id in x.questions && x.questions[id].status == TimedOut
    ensures Blockers(x, created, id) <= Blockers(y, created, id)
  {
    RowFacts(x.questions[id], y.questions[id], x.questions[id].session in CancelledBetween(x, y), w);
    forall b | b in Blockers(x, created, id) ensures b in Blockers(y, created, id) {
      var k := x.questions[b].session;
      RowFacts(x.questions[b], y.questions[b], k in CancelledBetween(x, y), w);
      assert SessionAdvance(x.sessions[k], y.sessions[k]);
    }
  }

  // A question behind a list full of blockers is not on the last list.
  lemma NotListed(x: Rows, l: Lists, w: Times, id: QuestionId)
    requires w.ext > 0 && ListsOf(x, l, w) && id in x.questions && x.questions[id].status == TimedOut
    requires |Blockers(x, w.created, id)| >= SWEEP_LIMIT
    ensures id !in l.leftOver
  {
    var x3 := AfterNotices(x, l, w);
    TickAdvances(x, l, w);
    BlockersStay(x, x3, w, w.created, id);
    SubsetSize(Blockers(x, w.created, id), Blockers(x3, w.created, id));
    if id in l.leftOver {
      FewPrecede(l.leftOver, LeftOverList(x3.questions, x3.sessions), ByDeadline(x3.questions, w), SWEEP_LIMIT, id,
        Blockers(x3, w.created, id));
    }
  }

  lemma ListsHoldMatches(x: Rows, l: Lists, w: Times)
    requires w.ext > 0 && ListsOf(x, l, w)
    ensures Members(l.overdue) <= OverdueList(x.questions, x.sessions, w.now)
    ensures var x2 := AfterTiers(x, l, w); Members(l.leftOver) <= LeftOverList(x2.questions, x2.sessions)
    ensures var x3 := AfterNotices(x, l, w);
            forall id :: id in l.leftOver ==> id in LeftOverList(x3.questions, x3.sessions)
  {
    OverdueIsListed(x, l.expired, l.overdue, w);
    SameLeftOver(AfterTiers(x, l, w), l.unnotified, w);
  }

  // A session is ended by a tick only for a question of its own that is on a list.
  lemma EndedForAQuestion(x: Rows, l: Lists, w: Times, k: SessionId) returns (id: QuestionId)
    requires w.ext > 0 && ListsOf(x, l, w) && k in CancelledBetween(x, AfterTick(x, l, w))
    ensures id in x.questions && x.questions[id].session == k
    ensures Unresolved(x.questions[id]) || (x.questions[id].status == TimedOut && id in l.leftOver)
  {
    var x3 := AfterNotices(x, l, w);
    ListsHoldMatches(x, l, w);
    CancelledInTick(x, l, w);
    if k in SessionsOf(x.questions, l.overdue) {
      id :| id in l.overdue && id in x.questions && x.questions[id].session == k;
      assert id in Members(l.overdue);
    } else {
      id :| id in l.leftOver && id in x3.questions && x3.questions[id].session == k;
      TickAdvances(x, l, w);
      RowFacts(x.questions[id], x3.questions[id], x.questions[id].session in CancelledBetween(x, x3), w);
    }
  }

  // If its session is not ended, a question is starved after the tick as it was before.
  lemma QuestionStaysStarved(x: Rows, y: Rows, w: Times, created: QuestionId -> Time, id: QuestionId)
    requires w.ext > 0 && Advance(x, y, w) && id in x.questions && !Unresolved(x.questions[id])
    requires x.questions[id].status == TimedOut ==> |Blockers(x, created, id)| >= SWEEP_LIMIT
    ensures y.questions[id].session == x.questions[id].session && !Unresolved(y.questions[id])
    ensures y.questions[id].status == TimedOut ==> |Blockers(y, created, id)| >= SWEEP_LIMIT
  {
    RowFacts(x.questions[id], y.questions[id], x.questions[id].session in CancelledBetween(x, y), w);
    if x.questions[id].status == TimedOut {
      BlockersStay(x, y, w, created, id);
      SubsetSize(Blockers(x, created, id), Blockers(y, created, id));
    }
  }

  lemma NotEnded(x: Rows, l: Lists, w: Times, k: SessionId)
    requires w.ext > 0 && ListsOf(x, l, w) && Starved(x, w.created, k)
    ensures k !in CancelledBetween(x, AfterTick(x, l, w))
  {
    if k in CancelledBetween(x, AfterTick(x, l, w)) {
      var id := EndedForAQuestion(x, l, w, k);
      NotListed(x, l, w, id);
    }
  }

  lemma StarvedAfter(x: Rows, y: Rows, w: Times, created: QuestionId -> Time, k: SessionId)
    requires w.ext > 0 && Advance(x, y, w) && Starved(x, created, k) && k !in CancelledBetween(x, y)
    ensures Starved(y, created, k) && y.sessions[k] == x.sessions[k]
  {
    assert SessionAdvance(x.sessions[k], y.sessions[k]);
    forall id | id in y.questions && y.questions[id].session == k
      ensures !Unresolved(y.questions[id])
      ensures y.questions[id].status == TimedOut ==> |Blockers(y, created, id)| >= SWEEP_LIMIT
    {
      RowFacts(x.questions[id], y.questions[id], x.questions[id].session in CancelledBetween(x, y), w);
      QuestionStaysStarved(x, y, w, created, id);
    }
  }

  lemma StaysStarved(x: Rows, l: Lists, w: Times, k: SessionId)
    requires w.ext > 0 && ListsOf(x, l, w) && Starved(x, w.created, k)
    ensures Starved(AfterTick(x, l, w), w.created, k) && AfterTick(x, l, w).sessions[k] == x.sessions[k]
  {
    NotEnded(x, l, w, k);
    TickAdvances(x, l, w);
    StarvedAfter(x, AfterTick(x, l, w), w, w.created, k);
  }

  lemma NextStarved(xs: seq<Rows>, ls: seq<Lists>, ws: seq<Times>, created: QuestionId -> Time, k: SessionId, n: nat)
    requires OnlyTicks(xs, ls, ws, created) && n + 1 < |xs| && Starved(xs[n], created, k)
    ensures Starved(xs[n + 1], created, k) && xs[n + 1].sessions[k] == xs[n].sessions[k]
  {
    assert TickAt(xs, ls, ws, n);
    StaysStarved(xs[n], ls[n], ws[n], k);
  }

  /** A starved session is never ended, however many ticks go by. */
  lemma {:induction false} StarvedForEver(xs: seq<Rows>, ls: seq<Lists>, ws: seq<Times>, created: QuestionId -> Time,
                                          k: SessionId, n: nat)
    requires OnlyTicks(xs, ls, ws, created) && n < |xs| && Starved(xs[0], created, k)
    ensures Starved(xs[n], created, k) && xs[n].sessions[k] == xs[0].sessions[k]
  {
    if n > 0 {
      StarvedForEver(xs, ls, ws, created, k, n - 1);
      NextStarved(xs, ls, ws, created, k, n - 1);
    }
  }

  // ---------------------------------------------------------------------------
  // Progress
  // ---------------------------------------------------------------------------

  // Question id waits for its session to be ended.
  predicate Waiting(x: Rows, id: QuestionId, deadline: Time) {
    && id in x.questions && x.questions[id].status == TimedOut && x.questions[id].timeoutAt == Some(deadline)
    && CanEnd(x, x.questions[id].session)
  }

  lemma BlockersToBeShrink(x: Rows, y: Rows, w: Times, created: QuestionId -> Time, id: QuestionId, deadline: Time)
    requires w.ext > 0 && Advance(x, y, w) && Waiting(x, id, deadline) && deadline <= w.now
    ensures BlockersToBe(y, created, id) <= BlockersToBe(x, created, id)
  {
    RowFacts(x.questions[id], y.questions[id], x.questions[id].session in CancelledBetween(x, y), w);
    forall b | b in BlockersToBe(y, created, id) ensures b in BlockersToBe(x, created, id) {
      var k := x.questions[b].session;
      assert RowAdvance(x.questions[b], y.questions[b], k in CancelledBetween(x, y), w);
      assert k in x.sessions ==> SessionAdvance(x.sessions[k], y.sessions[k]);
    }
  }

  // What times out in a tick does so with its session, unless that never ran.
  lemma TimesOutListed(x: Rows, l: Lists, w: Times, b: QuestionId)
    requires b in x.questions && x.questions[b].status != TimedOut
        && AfterTiers(x, l, w).questions[b].status == TimedOut
    ensures !CanEnd(AfterTiers(x, l, w), x.questions[b].session)
  {
    TiersRow(x, l, w, b);
    TiersSessions(x, l, w);
    assert x.questions[b].session in SessionsOf(x.questions, l.overdue);
  }

  lemma OnlyTiersTimeOut(x: Rows, l: Lists, w: Times, b: QuestionId)
    requires b in AfterTiers(x, l, w).questions
    requires b in AfterTick(x, l, w).questions && b in AfterNotices(x, l, w).questions
    ensures AfterNotices(x, l, w).questions[b].status == AfterTiers(x, l, w).questions[b].status
    ensures AfterTick(x, l, w).questions[b].status == TimedOut ==> AfterTiers(x, l, w).questions[b].status == TimedOut
  {
  }

  lemma WasQueued(x: Rows, y: Rows, w: Times, created: QuestionId -> Time, id: QuestionId, b: QuestionId)
    requires w.ext > 0 && Advance(x, y, w) && id in x.questions && x.questions[id].status == TimedOut
    requires b in Queue(y, created, id)
    ensures b in x.questions && CanEnd(x, x.questions[b].session) && CanEnd(y, x.questions[b].session)
    ensures x.questions[b].session !in CancelledBetween(x, y)
    ensures x.questions[b].status == TimedOut ==> b in Queue(x, created, id)
  {
    var k := x.questions[b].session;
    RowFacts(x.questions[id], y.questions[id], x.questions[id].session in CancelledBetween(x, y), w);
    RowFacts(x.questions[b], y.questions[b], k in CancelledBetween(x, y), w);
    assert SessionAdvance(x.sessions[k], y.sessions[k]);
  }

  lemma WasEndable(x: Rows, y: Rows, w: Times, k: SessionId)
    requires Advance(x, y, w) && CanEnd(y, k)
    ensures CanEnd(x, k)
  {
    assert SessionAdvance(x.sessions[k], y.sessions[k]);
  }

  lemma QueuedBefore(x: Rows, l: Lists, w: Times, id: QuestionId, b: QuestionId, y: Rows)
    requires w.ext > 0 && id in x.questions && x.questions[id].status == TimedOut
    requires y in {AfterTick(x, l, w), AfterNotices(x, l, w)}
    requires Advance(x, y, w) && Advance(AfterTiers(x, l, w), y, w) && b in Queue(y, w.created, id)
    ensures b in Queue(x, w.created, id)
  {
    WasQueued(x, y, w, w.created, id, b);
    WasEndable(AfterTiers(x, l, w), y, w, x.questions[b].session);
    if x.questions[b].status != TimedOut {
      OnlyTiersTimeOut(x, l, w, b);
      TimesOutListed(x, l, w, b);
    }
  }

  // Who is queued at the end of a tick, or before its last list, was queued when it began.
  lemma QueueShrinks(x: Rows, l: Lists, w: Times, id: QuestionId, y: Rows)
    requires w.ext > 0 && id in x.questions && x.questions[id].status == TimedOut
    requires y in {AfterTick(x, l, w), AfterNotices(x, l, w)}
    requires Advance(x, y, w) && Advance(AfterTiers(x, l, w), y, w)
    ensures Queue(y, w.created, id) <= Queue(x, w.created, id)
  {
    forall b | b in Queue(y, w.created, id) ensures b in Queue(x, w.created, id) {
      QueuedBefore(x, l, w, id, b, y);
    }
  }

  // The last list is full of questions ahead of one that it leaves out, and some session among theirs can be ended.
  lemma SomebodyIsServed(x: Rows, ids: seq<QuestionId>, w: Times, id: QuestionId, deadline: Time)
      returns (b: QuestionId)
    requires IsList(ids, LeftOverList(x.questions, x.sessions), x.questions, w)
    requires |BlockersToBe(x, w.created, id)| < SWEEP_LIMIT && Waiting(x, id, deadline) && id !in ids
    ensures b in ids && b in Queue(x, w.created, id)
  {
    var all := LeftOverList(x.questions, x.sessions);
    LeftOutIsLate(ids, all, ByDeadline(x.questions, w), SWEEP_LIMIT, id);
    if Members(ids) <= BlockersToBe(x, w.created, id) {
      SubsetSize(Members(ids), BlockersToBe(x, w.created, id));
    }
    b :| b in Members(ids) && b !in BlockersToBe(x, w.created, id);
    assert b in all && Precedes(ByDeadline(x.questions, w), b, id);
  }

  lemma ServedIsEnded(x: Rows, ids: seq<QuestionId>, w: Times, b: QuestionId)
    requires b in ids && b in x.questions && CanEnd(x, x.questions[b].session)
    ensures Finalize(x, ids, w).sessions[x.questions[b].session].status == SessionStatus.Cancelled
  {
    assert x.questions[b].session in Endable(x, SessionsOf(x.questions, ids));
  }

  // The tick ends the question's session, or the queue ahead of the question gets shorter.
  ghost predicate Progress(x: Rows, y: Rows, created: QuestionId -> Time, id: QuestionId, deadline: Time) {
    && Waiting(y, id, deadline) && id in x.questions && y.questions[id].session == x.questions[id].session
    && BlockersToBe(y, created, id) <= BlockersToBe(x, created, id)
    && Queue(y, created, id) < Queue(x, created, id)
  }

  lemma StillWaiting(x: Rows, y: Rows, w: Times, id: QuestionId, deadline: Time)
    requires w.ext > 0 && Advance(x, y, w) && Waiting(x, id, deadline)
    requires y.sessions[x.questions[id].session].status != SessionStatus.Cancelled
    ensures Waiting(y, id, deadline) && y.questions[id].session == x.questions[id].session
  {
    RowFacts(x.questions[id], y.questions[id], x.questions[id].session in CancelledBetween(x, y), w);
    assert SessionAdvance(x.sessions[x.questions[id].session], y.sessions[x.questions[id].session]);
  }

  lemma CancelledStays(x: Rows, y: Rows, w: Times, k: SessionId)
    requires Advance(x, y, w) && k in x.sessions && x.sessions[k].status == SessionStatus.Cancelled
    ensures k in y.sessions && y.sessions[k].status == SessionStatus.Cancelled
  {
    assert SessionAdvance(x.sessions[k], y.sessions[k]);
  }

  // If the last list leaves the question's session alone, it shortens the queue.
  lemma LastListServes(x: Rows, y: Rows, ids: seq<QuestionId>, w: Times, id: QuestionId, deadline: Time)
      returns (b: QuestionId)
    requires IsList(ids, LeftOverList(x.questions, x.sessions), x.questions, w)
    requires |BlockersToBe(x, w.created, id)| < SWEEP_LIMIT && Waiting(x, id, deadline)
    requires w.ext > 0 && y == Finalize(x, ids, w) && Advance(x, y, w)
    requires y.sessions[x.questions[id].session].status != SessionStatus.Cancelled
    ensures b in Queue(x, w.created, id) && b !in Queue(y, w.created, id)
  {
    if id in ids { ServedIsEnded(x, ids, w, id); }
    b := SomebodyIsServed(x, ids, w, id, deadline);
    ServedIsEnded(x, ids, w, b);
    NotQueued(x, y, w, w.created, id, b);
  }

  lemma OneTickOn(x: Rows, l: Lists, w: Times, id: QuestionId, deadline: Time)
    requires w.ext > 0 && ListsOf(x, l, w) && Waiting(x, id, deadline) && deadline <= w.now
    requires |BlockersToBe(x, w.created, id)| < SWEEP_LIMIT
    ensures x.questions[id].session in AfterTick(x, l, w).sessions
    ensures AfterTick(x, l, w).sessions[x.questions[id].session].status == SessionStatus.Cancelled
            || Progress(x, AfterTick(x, l, w), w.created, id, deadline)
  {
    var x3, y := AfterNotices(x, l, w), AfterTick(x, l, w);
    TickAdvances(x, l, w);
    NotifyAdvances(AfterTiers(x, l, w), l.unnotified, w);
    if y.sessions[x.questions[id].session].status != SessionStatus.Cancelled {
      BeforeTheLastList(x, x3, y, w, id, deadline);
      var b := LastListServes(x3, y, l.leftOver, w, id, deadline);
      StillWaiting(x, y, w, id, deadline);
      BlockersToBeShrink(x, y, w, w.created, id, deadline);
      QueueShrinks(x, l, w, id, x3);
      QueueShrinks(x, l, w, id, y);
    }
  }

  lemma BeforeTheLastList(x: Rows, x3: Rows, y: Rows, w: Times, id: QuestionId, deadline: Time)
    requires w.ext > 0 && Advance(x, x3, w) && Advance(x3, y, w) && Waiting(x, id, deadline) && deadline <= w.now
    requires y.sessions[x.questions[id].session].status != SessionStatus.Cancelled
    ensures Waiting(x3, id, deadline) && x3.questions[id].session == x.questions[id].session
    ensures |BlockersToBe(x3, w.created, id)| <= |BlockersToBe(x, w.created, id)|
  {
    var k := x.questions[id].session;
    if x3.sessions[k].status == SessionStatus.Cancelled { CancelledStays(x3, y, w, k); }
    StillWaiting(x, x3, w, id, deadline);
    BlockersToBeShrink(x, x3, w, w.created, id, deadline);
    SubsetSize(BlockersToBe(x3, w.created, id), BlockersToBe(x, w.created, id));
  }

  lemma NotQueued(x: Rows, y: Rows, w: Times, created: QuestionId -> Time, id: QuestionId, b: QuestionId)
    requires w.ext > 0 && Advance(x, y, w) && b in x.questions
    requires x.questions[b].session in y.sessions
        && y.sessions[x.questions[b].session].status == SessionStatus.Cancelled
    ensures b !in Queue(y, created, id)
  {
    RowFacts(x.questions[b], y.questions[b], x.questions[b].session in CancelledBetween(x, y), w);
  }

  /** With fewer blockers than fit the list, the session is ended before more ticks have gone by than were queued. */
  lemma {:induction false} EndedInTime(xs: seq<Rows>, ls: seq<Lists>, ws: seq<Times>, created: QuestionId -> Time,
                                       id: QuestionId, deadline: Time)
    requires OnlyTicks(xs, ls, ws, created) && Waiting(xs[0], id, deadline)
    requires forall i :: 0 <= i < |ws| ==> deadline <= ws[i].now
    requires |BlockersToBe(xs[0], created, id)| < SWEEP_LIMIT && |ls| > |Queue(xs[0], created, id)|
    ensures xs[0].questions[id].session in xs[|ls|].sessions
    ensures xs[|ls|].sessions[xs[0].questions[id].session].status == SessionStatus.Cancelled
    decreases |ls|
  {
    var k := xs[0].questions[id].session;
    FirstTick(xs, ls, ws, created, id, deadline);
    Later(xs, ls, ws, created);
    if xs[1].sessions[k].status == SessionStatus.Cancelled {
      CancelledForGood(xs[1..], ls[1..], ws[1..], created, k);
    } else {
      EndedInTime(xs[1..], ls[1..], ws[1..], created, id, deadline);
    }
  }

  lemma FirstTick(xs: seq<Rows>, ls: seq<Lists>, ws: seq<Times>, created: QuestionId -> Time, id: QuestionId,
                  deadline: Time)
    requires OnlyTicks(xs, ls, ws, created) && ls != [] && Waiting(xs[0], id, deadline) && deadline <= ws[0].now
    requires |BlockersToBe(xs[0], created, id)| < SWEEP_LIMIT
    ensures var k := xs[0].questions[id].session;
      && k in xs[1].sessions
      && (xs[1].sessions[k].status == SessionStatus.Cancelled
          || (Waiting(xs[1], id, deadline) && xs[1].questions[id].session == k
              && |BlockersToBe(xs[1], created, id)| < SWEEP_LIMIT
              && |Queue(xs[1], created, id)| < |Queue(xs[0], created, id)|))
  {
    assert TickAt(xs, ls, ws, 0);
    OneTickOn(xs[0], ls[0], ws[0], id, deadline);
    if xs[1].sessions[xs[0].questions[id].session].status != SessionStatus.Cancelled {
      SubsetSize(BlockersToBe(xs[1], created, id), BlockersToBe(xs[0], created, id));
      StrictSubsetSize(Queue(xs[1], created, id), Queue(xs[0], created, id));
    }
  }

  lemma StrictSubsetSize(a: set<QuestionId>, b: set<QuestionId>)
    requires a < b
    ensures |a| < |b|
  {
    var x :| x in b && x !in a;
    SubsetSize(a, b - {x});
  }

  lemma Later(xs: seq<Rows>, ls: seq<Lists>, ws: seq<Times>, created: QuestionId -> Time)
    requires OnlyTicks(xs, ls, ws, created) && ls != []
    ensures OnlyTicks(xs[1..], ls[1..], ws[1..], created)
  {
    forall i | 0 <= i < |ls[1..]| ensures TickAt(xs[1..], ls[1..], ws[1..], i) {
      assert TickAt(xs, ls, ws, i + 1);
    }
  }

  lemma FirstAdvance(xs: seq<Rows>, ls: seq<Lists>, ws: seq<Times>, created: QuestionId -> Time)
    requires OnlyTicks(xs, ls, ws, created) && ls != []
    ensures Advance(xs[0], xs[1], ws[0])
  {
    assert TickAt(xs, ls, ws, 0);
    TickAdvances(xs[0], ls[0], ws[0]);
  }

  lemma {:induction false} CancelledForGood(xs: seq<Rows>, ls: seq<Lists>, ws: seq<Times>,
                                            created: QuestionId -> Time, k: SessionId)
    requires OnlyTicks(xs, ls, ws, created) && k in xs[0].sessions
    requires xs[0].sessions[k].status == SessionStatus.Cancelled
    ensures k in xs[|ls|].sessions && xs[|ls|].sessions[k].status == SessionStatus.Cancelled
    decreases |ls|
  {
    if ls != [] {
      FirstAdvance(xs, ls, ws, created);
      CancelledStays(xs[0], xs[1], ws[0], k);
      Later(xs, ls, ws, created);
      CancelledForGood(xs[1..], ls[1..], ws[1..], created, k);
    }
  }

  // The session's first timed-out question, with nothing of the session open.
  predicate FirstOf(x: Rows, created: QuestionId -> Time, id: QuestionId) {
    && id in x.questions
    && forall b :: b in x.questions && x.questions[b].session == x.questions[id].session ==>
         && !Unresolved(x.questions[b])
         && (x.questions[b].status == TimedOut && b != id ==> Before(x.questions, created, id, b))
  }

  lemma FirstIsStarved(x: Rows, created: QuestionId -> Time, id: QuestionId, deadline: Time)
    requires Waiting(x, id, deadline) && FirstOf(x, created, id) && |Blockers(x, created, id)| >= SWEEP_LIMIT
    ensures Starved(x, created, x.questions[id].session)
  {
    var k := x.questions[id].session;
    forall b | b in x.questions && x.questions[b].session == k && x.questions[b].status == TimedOut
      ensures |Blockers(x, created, b)| >= SWEEP_LIMIT
    {
      assert b != id ==> Before(x.questions, created, id, b);
      SubsetSize(Blockers(x, created, id), Blockers(x, created, b));
    }
  }

  /**
   * A session left over with its question is ended by ticks, given enough of them, if and only if fewer
   * questions of sessions that never ran are ahead of it than fit the list.
   */
  lemma EndedIffFewBlockers(xs: seq<Rows>, ls: seq<Lists>, ws: seq<Times>, created: QuestionId -> Time,
                            id: QuestionId, deadline: Time)
    requires OnlyTicks(xs, ls, ws, created) && Waiting(xs[0], id, deadline) && FirstOf(xs[0], created, id)
    requires forall i :: 0 <= i < |ws| ==> deadline <= ws[i].now
    requires BlockersToBe(xs[0], created, id) == Blockers(xs[0], created, id)
    requires |ls| > |Queue(xs[0], created, id)|
    ensures xs[0].questions[id].session in xs[|ls|].sessions
    ensures xs[|ls|].sessions[xs[0].questions[id].session].status == SessionStatus.Cancelled <==>
            |Blockers(xs[0], created, id)| < SWEEP_LIMIT
  {
    if |Blockers(xs[0], created, id)| < SWEEP_LIMIT {
      EndedInTime(xs, ls, ws, created, id, deadline);
    } else {
      FirstIsStarved(xs[0], created, id, deadline);
      StarvedForEver(xs, ls, ws, created, xs[0].questions[id].session, |ls|);
    }
  }
}
