/**
 * One tick of the timeout sweep: escalate, time out and cancel, notify, finish what earlier ticks
 * left. No call fails here for outside reasons; refusals by the state of the rows remain.
 */
module TimeoutSweep {
  import opened Domain
  import opened Questions
  import opened Postgres
  import opened Orchestrator
  import opened Worklist

  // ---------------------------------------------------------------------------
  // The four work lists
  // ---------------------------------------------------------------------------

  predicate Live(s: SessionStatus) {
    !Terminal(s)
  }

  predicate Ran(r: Question, status: Status, now: Time) {
    r.status == status && r.timeoutAt.Some? && r.timeoutAt.value <= now
  }

  // The join of a question with its session.
  predicate On(sessions: map<SessionId, Session>, r: Question, statuses: set<SessionStatus>) {
    r.session in sessions && sessions[r.session].status in statuses
  }

  // An escalated question that ran out while its session lives: tier 2 is due.
  predicate Overdue(r: Question, sessions: map<SessionId, Session>, now: Time) {
    Ran(r, Escalated, now) && On(sessions, r, LIVE)
  }

  // A question that timed out while its session lives still has a session to end.
  predicate LeftOver(r: Question, sessions: map<SessionId, Session>) {
    r.status == TimedOut && On(sessions, r, LIVE)
  }

  const LIVE: set<SessionStatus> := {SessionStatus.Pending, SessionStatus.Running, SessionStatus.WaitingHitl}
  const ENDED: set<SessionStatus> := {SessionStatus.Cancelled, SessionStatus.Completed, SessionStatus.Failed}

  function ExpiredList(q: Table, s: map<SessionId, Session>, now: Time): set<QuestionId> {
    set id | id in q && Ran(q[id], Open, now) && On(s, q[id], LIVE + {SessionStatus.Cancelled})
  }

  function OverdueList(q: Table, s: map<SessionId, Session>, now: Time): set<QuestionId> {
    set id | id in q && Overdue(q[id], s, now)
  }

  function UnnotifiedList(q: Table, s: map<SessionId, Session>, clock: Time): set<QuestionId> {
    set id | id in q && Claimable(q[id], clock - CLAIM_TTL) && On(s, q[id], ENDED)
  }

  function LeftOverList(q: Table, s: map<SessionId, Session>): set<QuestionId> {
    set id | id in q && LeftOver(q[id], s)
  }

  function Deadline(q: Table, id: QuestionId): Option<Time> {
    if id in q then q[id].timeoutAt else None
  }

  function ByDeadline(q: Table, w: Times): Order {
    Order((id: QuestionId) => Deadline(q, id), w.created)
  }

  // One of the lists of a tick, by deadline and cut off at 50.
  ghost predicate IsList(ids: seq<QuestionId>, matching: set<QuestionId>, q: Table, w: Times) {
    Listed(ids, matching, ByDeadline(q, w), SWEEP_LIMIT)
  }

  // ---------------------------------------------------------------------------
  // What the parts of a tick come to
  // ---------------------------------------------------------------------------

  // The times a tick works with: the ticker's, the wall clock's, the extension, and when questions were created.
  datatype Times = Times(now: Time, clock: Time, ext: Time, created: QuestionId -> Time)

  // The rows of the store.
  datatype Rows = Rows(questions: Table, sessions: map<SessionId, Session>, tasks: map<TaskId, TaskStatus>)

  function Now(store: Store): Rows
    reads store
  {
    Rows(store.questions, store.sessions, store.tasks)
  }

  function Extended(r: Question, w: Times): Question {
    r.(status := Escalated, timeoutAt := Some(w.now + w.ext))
  }

  function Expired(r: Question): Question {
    r.(status := TimedOut)
  }

  predicate Owed(r: Question, w: Times) {
    Claimable(r, w.clock - CLAIM_TTL)
  }

  // The row once its notice, if one is owed, has gone out.
  function Notified(r: Question, w: Times): Question {
    if Owed(r, w) then r.(claimedAt := None, notifiedAt := Some(w.clock)) else r
  }

  // Tier 1.
  function ExtendAll(x: Rows, ids: seq<QuestionId>, w: Times): Rows {
    x.(questions := map id | id in x.questions :: if id in ids then Extended(x.questions[id], w) else x.questions[id])
  }

  function Notify(x: Rows, ids: seq<QuestionId>, w: Times): Rows {
    x.(questions := map id | id in x.questions :: if id in ids then Notified(x.questions[id], w) else x.questions[id])
  }

  function SessionsOf(q: Table, ids: seq<QuestionId>): set<SessionId> {
    set id | id in ids && id in q :: q[id].session
  }

  // Of these sessions those that can be ended: the ones that ever ran.
  function Endable(x: Rows, ks: set<SessionId>): set<SessionId> {
    set k | k in ks && k in x.sessions && x.sessions[k].status != SessionStatus.Pending
  }

  // What ending sessions makes of a row: the notice of a listed question goes out if its own session was
  // ended (`over`); whatever else that session had open is withdrawn.
  function RowAfter(r: Question, listed: bool, over: bool, w: Times): Question {
    if !over then r
    else if listed then Notified(r, w)
    else if Unresolved(r) then r.(status := Withdrawn)
    else r
  }

  // A task that a cancellation of one of the sessions gives back.
  predicate GivenBack(x: Rows, over: set<SessionId>, task: TaskId) {
    && task in x.tasks && TaskAllowed(x.tasks[task], Backlog)
    && exists k :: k in over && k in x.sessions && x.sessions[k].task == task
  }

  // The sessions `over` end, and the notices of the listed questions among theirs go out.
  function EndThem(x: Rows, listed: set<QuestionId>, over: set<SessionId>, w: Times): Rows {
    Rows(map id | id in x.questions :: RowAfter(x.questions[id], id in listed, x.questions[id].session in over, w),
      map k | k in x.sessions :: if k in over then x.sessions[k].(status := SessionStatus.Cancelled) else x.sessions[k],
      map t | t in x.tasks :: if GivenBack(x, over, t) then Backlog else x.tasks[t])
  }

  function Mark(x: Rows, listed: set<QuestionId>): Rows {
    x.(questions := map id | id in x.questions :: if id in listed then Expired(x.questions[id]) else x.questions[id])
  }

  // What is done about a list of questions that are timed out already.
  function Finalize(x: Rows, ids: seq<QuestionId>, w: Times): Rows {
    EndThem(x, Members(ids), Endable(x, SessionsOf(x.questions, ids)), w)
  }

  // Tier 2.
  function TimeOut(x: Rows, ids: seq<QuestionId>, w: Times): Rows {
    Finalize(Mark(x, Members(ids)), ids, w)
  }

  // ---------------------------------------------------------------------------
  // The pieces of a tick
  // ---------------------------------------------------------------------------

  datatype NotifyFaults = NotifyFaults(claim: bool, send: bool, mark: bool, clear: bool)

  const NOTHING_FAILS := NotifyFaults(false, false, false, false)

  /** Claim, notify, then mark or give the claim back. */
  method TryNotify(store: Store, id: QuestionId, clock: Time, f: NotifyFaults) returns (delivered: bool)
    modifies store`questions
    ensures delivered <==>
            id in old(store.questions) && Claimable(old(store.questions)[id], clock - CLAIM_TTL) && !f.claim && !f.send
    ensures store.questions ==
            if f.claim || id !in old(store.questions) || !Claimable(old(store.questions)[id], clock - CLAIM_TTL)
            then old(store.questions)
            else old(store.questions)[id :=
              if f.send then old(store.questions)[id].(claimedAt := if f.clear then Some(clock) else None)
              else if f.mark then old(store.questions)[id].(claimedAt := Some(clock))
              else old(store.questions)[id].(claimedAt := None, notifiedAt := Some(clock))]
  {
    delivered := false;
    var claimed := store.ClaimTimeoutNotification(id, clock, f.claim);
    if claimed != Ok { return; }
    if f.send {
      var _ := store.ClearTimeoutNotificationClaim(id, f.clear);
      return;
    }
    delivered := true;
    var _ := store.MarkTimeoutNotificationSent(id, clock, f.mark);
  }

  method NotifyAll(store: Store, ids: seq<QuestionId>, w: Times)
    requires Distinct(ids) && forall i :: 0 <= i < |ids| ==> ids[i] in store.questions
    modifies store`questions
    ensures Now(store) == Notify(old(Now(store)), ids, w)
  {
    ghost var x := Now(store);
    for i := 0 to |ids|
      invariant Now(store) == Notify(x, ids[..i], w)
    {
      assert ids[i] !in ids[..i];
      var _ := TryNotify(store, ids[i], w.clock, NOTHING_FAILS);
      assert ids[..i + 1] == ids[..i] + [ids[i]];
    }
    assert ids[..|ids|] == ids;
  }

  lemma OneExtendedMore(x: Rows, ids: seq<QuestionId>, i: nat, w: Times)
    requires i < |ids| && Distinct(ids) && ids[i] in x.questions && x.questions[ids[i]].status == Open
    ensures ExtendAll(x, ids[..i], w).questions[ids[i]] == x.questions[ids[i]]
    ensures ExtendAll(x, ids[..i + 1], w).questions ==
            Exec(Questions.Escalate(ids[i], w.now + w.ext), ExtendAll(x, ids[..i], w).questions)
  {
    assert ids[..i + 1] == ids[..i] + [ids[i]];
    assert ids[i] !in ids[..i];
  }

  /** Tier 1: open questions that ran out get their extension. */
  method SweepExpired(o: Orchestrator, w: Times) returns (ids: seq<QuestionId>)
    modifies o.store`questions
    ensures IsList(ids, ExpiredList(old(o.store.questions), o.store.sessions, w.now), old(o.store.questions), w)
    ensures Now(o.store) == ExtendAll(old(Now(o.store)), ids, w)
  {
    var q := o.store.questions;
    ghost var x := Now(o.store);
    var matching := ExpiredList(q, o.store.sessions, w.now);
    ids := Take(matching, ByDeadline(q, w), SWEEP_LIMIT);
    for i := 0 to |ids|
      invariant Now(o.store) == ExtendAll(x, ids[..i], w)
    {
      OneExtendedMore(x, ids, i, w);
      var _ := o.store.EscalateQuestion(ids[i], w.now + w.ext, false);
    }
    assert ids[..|ids|] == ids;
  }

  /** The questions of one session that ran out are marked, those whose update fails left out. */
  method MarkAll(o: Orchestrator, ids: seq<QuestionId>, now: Time, f: QuestionId -> bool)
      returns (marked: seq<QuestionId>)
    requires Distinct(ids)
    requires forall i :: 0 <= i < |ids| ==>
        ids[i] in o.store.questions && Ran(o.store.questions[ids[i]], Escalated, now)
    modifies o.store`questions
    ensures forall id :: id in marked <==> id in ids && !f(id)
    ensures (forall i :: 0 <= i < |ids| ==> !f(ids[i])) ==> marked == ids
    ensures o.store.questions.Keys == old(o.store.questions).Keys
    ensures forall id :: id in o.store.questions ==>
              o.store.questions[id] == if id in marked
                then Expired(old(o.store.questions)[id]) else old(o.store.questions)[id]
  {
    marked := [];
    for i := 0 to |ids|
      invariant forall id :: id in marked <==> id in ids[..i] && !f(id)
      invariant (forall j :: 0 <= j < |ids| ==> !f(ids[j])) ==> marked == ids[..i]
      invariant o.store.questions.Keys == old(o.store.questions).Keys
      invariant forall id :: id in o.store.questions ==>
                  o.store.questions[id] == if id in marked
                    then Expired(old(o.store.questions)[id]) else old(o.store.questions)[id]
    {
      assert ids[i] !in ids[..i];
      var r := o.store.MarkTimedOutEscalated(ids[i], f(ids[i]));
      if r == Ok {
        marked := marked + [ids[i]];
      }
      assert ids[..i + 1] == ids[..i] + [ids[i]];
    }
    assert ids[..|ids|] == ids;
  }

  // The rows of one work list, grouped by session.
  ghost predicate Grouped(q: Table, ids: seq<QuestionId>, groups: map<SessionId, seq<QuestionId>>) {
    && (forall id :: id in ids && id in q ==> q[id].session in groups && id in groups[q[id].session])
    && (forall s, i :: s in groups && 0 <= i < |groups[s]| ==>
         groups[s][i] in ids && groups[s][i] in q && q[groups[s][i]].session == s)
    && (forall s :: s in groups ==> Distinct(groups[s]))
    && (forall s :: s in groups ==> groups[s] != [])
  }

  // One question more joins its session's group, or starts it.
  lemma JoinsGroup(q: Table, ids: seq<QuestionId>, groups: map<SessionId, seq<QuestionId>>, id: QuestionId)
    requires Grouped(q, ids, groups) && id in q && id !in ids
    ensures var s := q[id].session;
            Grouped(q, ids + [id], groups[s := (if s in groups then groups[s] else []) + [id]])
  {
    var s := q[id].session;
    var mine := if s in groups then groups[s] else [];
    assert forall i :: 0 <= i < |mine| ==> mine[i] in ids;
    assert Distinct(mine + [id]);
  }

  method GroupBySession(q: Table, ids: seq<QuestionId>) returns (groups: map<SessionId, seq<QuestionId>>)
    requires forall i :: 0 <= i < |ids| ==> ids[i] in q
    requires Distinct(ids)
    ensures Grouped(q, ids, groups)
  {
    groups := map[];
    for i := 0 to |ids|
      invariant Grouped(q, ids[..i], groups)
    {
      var s := q[ids[i]].session;
      assert ids[i] !in ids[..i];
      JoinsGroup(q, ids[..i], groups, ids[i]);
      groups := groups[s := (if s in groups then groups[s] else []) + [ids[i]]];
      assert ids[..i + 1] == ids[..i] + [ids[i]];
    }
    assert ids[..|ids|] == ids;
  }

  // ---------------------------------------------------------------------------
  // Ending sessions
  // ---------------------------------------------------------------------------

  // A session that can be dealt with: it lives, or was cancelled and let go of before.
  ghost predicate Within(o: Orchestrator, session: SessionId)
    reads o, o.store
  {
    && session in o.store.sessions
    && (Live(o.store.sessions[session].status)
        || (o.store.sessions[session].status == SessionStatus.Cancelled && session !in o.registered))
  }

  lemma CancelIs(x: Rows, session: SessionId, w: Times)
    requires session in x.sessions && x.sessions[session].status in LIVE + {SessionStatus.Cancelled}
    requires x.sessions[session].status != SessionStatus.Pending
    ensures EndThem(x, {}, {session}, w) == Rows(
        Cleared(x.questions, session, false),
        x.sessions[session := x.sessions[session].(status := SessionStatus.Cancelled)],
        Moved(x.tasks, x.sessions[session].task, Backlog, false))
  {
    var y := EndThem(x, {}, {session}, w);
    assert y.questions == Cleared(x.questions, session, false);
    assert y.sessions == x.sessions[session := x.sessions[session].(status := SessionStatus.Cancelled)];
    forall t | t in x.tasks ensures GivenBack(x, {session}, t) <==>
      t == x.sessions[session].task && TaskAllowed(x.tasks[t], Backlog)
    {
      assert session in {session};
    }
    assert y.tasks == Moved(x.tasks, x.sessions[session].task, Backlog, false);
  }

  /** A session is cancelled unless it never ran; one that was cancelled before is left at that. */
  method Cancel(o: Orchestrator, session: SessionId, ghost w: Times) returns (ok: bool)
    requires o.Valid() && Within(o, session)
    modifies o`registered, o`disposed, o`threads, o.store`tasks, o.store`sessions, o.store`questions
    ensures o.Valid() && o.registered == if ok then old(o.registered) - {session} else old(o.registered)
    ensures ok <==> old(o.store.sessions)[session].status != SessionStatus.Pending
    ensures Now(o.store) == if ok then EndThem(old(Now(o.store)), {}, {session}, w) else old(Now(o.store))
  {
    ghost var x := Now(o.store);
    var r := o.CancelSession(session, NO_FAULTS);
    ok := r == Ok;
    if ok {
      CancelIs(x, session, w);
    }
  }

  lemma EndThenNotify(x: Rows, ids: seq<QuestionId>, session: SessionId, w: Times)
    requires forall id :: id in ids ==>
               id in x.questions && x.questions[id].session == session && x.questions[id].status == TimedOut
    ensures Notify(EndThem(x, {}, {session}, w), ids, w) == EndThem(x, Members(ids), {session}, w)
  {
    assert Notify(EndThem(x, {}, {session}, w), ids, w).questions == EndThem(x, Members(ids), {session}, w).questions;
  }

  lemma NothingToEnd(x: Rows, listed: set<QuestionId>, w: Times)
    ensures EndThem(x, listed, {}, w) == x
  {
    assert EndThem(x, listed, {}, w).questions == x.questions;
    assert EndThem(x, listed, {}, w).sessions == x.sessions;
    assert EndThem(x, listed, {}, w).tasks == x.tasks;
  }

  /** What follows a timeout: the session ends, unless it never ran, and then the notices go out. */
  method EndAndNotify(o: Orchestrator, session: SessionId, ids: seq<QuestionId>, w: Times)
    requires o.Valid() && Within(o, session) && Distinct(ids)
    requires forall id :: id in ids ==>
               id in o.store.questions && o.store.questions[id].session == session
               && o.store.questions[id].status == TimedOut
    modifies o`registered, o`disposed, o`threads, o.store`tasks, o.store`sessions, o.store`questions
    ensures o.Valid() && o.registered == old(o.registered) - Endable(old(Now(o.store)), {session})
    ensures Now(o.store) == EndThem(old(Now(o.store)), Members(ids), Endable(old(Now(o.store)), {session}), w)
  {
    ghost var x := Now(o.store);
    var ok := Cancel(o, session, w);
    if ok {
      NotifyAll(o.store, ids, w);
      EndThenNotify(x, ids, session, w);
      assert Endable(x, {session}) == {session};
    } else {
      assert Endable(x, {session}) == {};
      NothingToEnd(x, Members(ids), w);
    }
  }

  // One row: first some sessions are ended, then others.
  lemma RowTwice(r: Question, l1: bool, o1: bool, l2: bool, o2: bool, w: Times)
    requires l1 || l2 ==> r.status == TimedOut
    requires l1 ==> !l2 && (o2 ==> o1)
    requires l2 ==> (o1 ==> o2)
    ensures RowAfter(RowAfter(r, l1, o1, w), l2, o2, w) == RowAfter(r, l1 || l2, o1 || o2, w)
  {
  }

  lemma EndTwice(x: Rows, l1: set<QuestionId>, o1: set<SessionId>, l2: set<QuestionId>, o2: set<SessionId>, w: Times)
    requires l1 !! l2
    requires forall id :: id in x.questions && (id in l1 || id in l2) ==> x.questions[id].status == TimedOut
    requires forall id :: id in x.questions && id in l1 ==>
               (x.questions[id].session in o2 ==> x.questions[id].session in o1)
    requires forall id :: id in x.questions && id in l2 ==>
               (x.questions[id].session in o1 ==> x.questions[id].session in o2)
    ensures EndThem(EndThem(x, l1, o1, w), l2, o2, w) == EndThem(x, l1 + l2, o1 + o2, w)
  {
    var y, z := EndThem(EndThem(x, l1, o1, w), l2, o2, w), EndThem(x, l1 + l2, o1 + o2, w);
    forall id | id in x.questions ensures y.questions[id] == z.questions[id] {
      var k := x.questions[id].session;
      RowTwice(x.questions[id], id in l1, k in o1, id in l2, k in o2, w);
    }
    assert y.questions == z.questions;
    assert y.sessions == z.sessions;
    TasksTwice(x, l1, o1, o2, w);
    assert y.tasks == z.tasks;
  }

  lemma TasksTwice(x: Rows, l1: set<QuestionId>, o1: set<SessionId>, o2: set<SessionId>, w: Times)
    ensures var y := EndThem(x, l1, o1, w);
            forall t :: t in x.tasks ==>
              (GivenBack(x, o1 + o2, t) <==> GivenBack(x, o1, t) || GivenBack(y, o2, t))
  {
    var y := EndThem(x, l1, o1, w);
    forall t | t in x.tasks ensures GivenBack(x, o1 + o2, t) <==> GivenBack(x, o1, t) || GivenBack(y, o2, t) {
      if GivenBack(x, o1 + o2, t) {
        var k :| k in o1 + o2 && k in x.sessions && x.sessions[k].task == t;
        assert k in o1 ==> GivenBack(x, o1, t);
        assert k in o2 && !GivenBack(x, o1, t) ==> k in y.sessions && y.sessions[k].task == t && GivenBack(y, o2, t);
      }
      if GivenBack(y, o2, t) {
        var k :| k in o2 && k in y.sessions && y.sessions[k].task == t;
        assert k in o1 + o2 && x.sessions[k].task == t;
      }
    }
  }

  // ---------------------------------------------------------------------------
  // Tier 2
  // ---------------------------------------------------------------------------

  // The listed questions of the sessions in `done`.
  function ListedIn(x: Rows, ids: seq<QuestionId>, done: set<SessionId>): set<QuestionId> {
    set id | id in ids && id in x.questions && x.questions[id].session in done
  }

  // Tier 2 with the sessions in `done` dealt with, and the others not.
  function PartlyTimedOut(x: Rows, ids: seq<QuestionId>, done: set<SessionId>, w: Times): Rows {
    EndThem(Mark(x, ListedIn(x, ids, done)), ListedIn(x, ids, done), Endable(x, done), w)
  }

  /** One session of tier 2: mark its questions, cancel it, send the notices. */
  method TimeOutSession(o: Orchestrator, session: SessionId, ids: seq<QuestionId>, w: Times)
    requires o.Valid() && session in o.store.sessions && Live(o.store.sessions[session].status)
    requires Distinct(ids) && ids != []
    requires forall i :: 0 <= i < |ids| ==>
               ids[i] in o.store.questions && Ran(o.store.questions[ids[i]], Escalated, w.now)
               && o.store.questions[ids[i]].session == session
    modifies o`registered, o`disposed, o`threads, o.store`tasks, o.store`sessions, o.store`questions
    ensures o.Valid()
    ensures var x := old(Now(o.store));
            Now(o.store) == EndThem(Mark(x, Members(ids)), Members(ids), Endable(x, {session}), w)
  {
    ghost var x := Now(o.store);
    var marked := MarkAll(o, ids, w.now, _ => false);
    assert Now(o.store) == Mark(x, Members(ids)) by {
      assert Now(o.store).questions == Mark(x, Members(ids)).questions;
    }
    if marked == [] { return; }
    EndAndNotify(o, session, marked, w);
  }

  // Questions of other sessions can as well be marked beforehand.
  lemma MarkBefore(x: Rows, listed: set<QuestionId>, over: set<SessionId>, mine: set<QuestionId>, w: Times)
    requires forall id :: id in mine && id in x.questions ==> id !in listed && x.questions[id].session !in over
    ensures Mark(EndThem(Mark(x, listed), listed, over, w), mine) == EndThem(Mark(x, listed + mine), listed, over, w)
  {
    var y, z := EndThem(Mark(x, listed), listed, over, w), EndThem(Mark(x, listed + mine), listed, over, w);
    forall id | id in x.questions ensures Mark(y, mine).questions[id] == z.questions[id] {
      assert id in mine ==> y.questions[id] == x.questions[id];
    }
    assert Mark(y, mine).questions == z.questions;
    assert y.tasks == z.tasks by {
      assert forall t :: GivenBack(Mark(x, listed), over, t) <==> GivenBack(Mark(x, listed + mine), over, t);
    }
  }

  // Dealing with one session more.
  lemma OneSessionMore(x: Rows, ids: seq<QuestionId>, done: set<SessionId>, session: SessionId, mine: seq<QuestionId>,
                       w: Times)
    requires session !in done
    requires forall id :: id in mine <==> id in ids && id in x.questions && x.questions[id].session == session
    ensures var y := PartlyTimedOut(x, ids, done, w);
            EndThem(Mark(y, Members(mine)), Members(mine), Endable(y, {session}), w)
              == PartlyTimedOut(x, ids, done + {session}, w)
  {
    var before, o1 := ListedIn(x, ids, done), Endable(x, done);
    var y, o2 := PartlyTimedOut(x, ids, done, w), Endable(PartlyTimedOut(x, ids, done, w), {session});
    assert ListedIn(x, ids, done + {session}) == before + Members(mine);
    assert o1 + o2 == Endable(x, done + {session});
    MarkBefore(x, before, o1, Members(mine), w);
    EndTwice(Mark(x, before + Members(mine)), before, o1, Members(mine), o2, w);
  }

  lemma GroupIsDue(x: Rows, ids: seq<QuestionId>, groups: map<SessionId, seq<QuestionId>>, done: set<SessionId>,
                   session: SessionId, w: Times)
    requires Grouped(x.questions, ids, groups) && session !in done && session in groups
    requires forall i :: 0 <= i < |ids| ==> ids[i] in x.questions && Overdue(x.questions[ids[i]], x.sessions, w.now)
    ensures var y := PartlyTimedOut(x, ids, done, w);
      && session in y.sessions && Live(y.sessions[session].status)
      && (forall i :: 0 <= i < |groups[session]| ==>
           && groups[session][i] in y.questions && Ran(y.questions[groups[session][i]], Escalated, w.now)
           && y.questions[groups[session][i]].session == session)
    ensures forall id :: id in groups[session] <==>
              id in ids && id in x.questions && x.questions[id].session == session
  {
    assert groups[session][0] in ids;
  }

  // The loop's body, with what the loop has done so far.
  method TimeOutNext(o: Orchestrator, ghost x: Rows, ghost ids: seq<QuestionId>,
      groups: map<SessionId, seq<QuestionId>>, ghost done: set<SessionId>, session: SessionId, w: Times)
    requires o.Valid() && Grouped(x.questions, ids, groups) && session in groups && session !in done
    requires forall i :: 0 <= i < |ids| ==> ids[i] in x.questions && Overdue(x.questions[ids[i]], x.sessions, w.now)
    requires Now(o.store) == PartlyTimedOut(x, ids, done, w)
    modifies o`registered, o`disposed, o`threads, o.store`tasks, o.store`sessions, o.store`questions
    ensures o.Valid() && Now(o.store) == PartlyTimedOut(x, ids, done + {session}, w)
  {
    GroupIsDue(x, ids, groups, done, session, w);
    TimeOutSession(o, session, groups[session], w);
    OneSessionMore(x, ids, done, session, groups[session], w);
  }

  // Session by session.
  method TimeOutAll(o: Orchestrator, ids: seq<QuestionId>, w: Times)
    requires o.Valid() && Distinct(ids)
    requires forall i :: 0 <= i < |ids| ==>
               ids[i] in o.store.questions && Overdue(o.store.questions[ids[i]], o.store.sessions, w.now)
    modifies o`registered, o`disposed, o`threads, o.store`tasks, o.store`sessions, o.store`questions
    ensures o.Valid() && Now(o.store) == TimeOut(old(Now(o.store)), ids, w)
  {
    ghost var x := Now(o.store);
    var groups := GroupBySession(o.store.questions, ids);
    var todo := groups.Keys;
    ghost var done := {};
    NoneDealtWith(x, ids, w);
    while todo != {}
      invariant o.Valid() && todo + done == groups.Keys && todo !! done
      invariant Now(o.store) == PartlyTimedOut(x, ids, done, w)
    {
      var session :| session in todo;
      TimeOutNext(o, x, ids, groups, done, session, w);
      todo, done := todo - {session}, done + {session};
    }
    GroupsAreSessions(x.questions, ids, groups);
    AllDealtWith(x, ids, w);
  }

  /** Tier 2: the listed questions time out and their sessions end; the other sessions are left alone. */
  method SweepEscalated(o: Orchestrator, w: Times) returns (ids: seq<QuestionId>)
    requires o.Valid()
    modifies o`registered, o`disposed, o`threads, o.store`tasks, o.store`sessions, o.store`questions
    ensures o.Valid()
    ensures IsList(ids, OverdueList(old(o.store.questions), old(o.store.sessions), w.now), old(o.store.questions), w)
    ensures Now(o.store) == TimeOut(old(Now(o.store)), ids, w)
  {
    var q := o.store.questions;
    var matching := OverdueList(q, o.store.sessions, w.now);
    ids := Take(matching, ByDeadline(q, w), SWEEP_LIMIT);
    TimeOutAll(o, ids, w);
  }

  lemma NoneDealtWith(x: Rows, ids: seq<QuestionId>, w: Times)
    ensures PartlyTimedOut(x, ids, {}, w) == x
  {
    assert Endable(x, {}) == {};
    assert Mark(x, {}).questions == x.questions;
    NothingToEnd(x, {}, w);
  }

  lemma GroupsAreSessions(q: Table, ids: seq<QuestionId>, groups: map<SessionId, seq<QuestionId>>)
    requires Grouped(q, ids, groups) && forall i :: 0 <= i < |ids| ==> ids[i] in q
    ensures groups.Keys == SessionsOf(q, ids)
  {
    forall k | k in groups ensures k in SessionsOf(q, ids) {
      assert groups[k][0] in ids && q[groups[k][0]].session == k;
    }
  }

  lemma AllDealtWith(x: Rows, ids: seq<QuestionId>, w: Times)
    requires forall i :: 0 <= i < |ids| ==> ids[i] in x.questions
    ensures PartlyTimedOut(x, ids, SessionsOf(x.questions, ids), w) == TimeOut(x, ids, w)
  {
    var q := Mark(x, Members(ids)).questions;
    assert SessionsOf(q, ids) == SessionsOf(x.questions, ids) by {
      assert forall id :: id in ids ==> id in q && q[id].session == x.questions[id].session;
    }
    assert ListedIn(x, ids, SessionsOf(x.questions, ids)) == Members(ids);
    assert Endable(Mark(x, Members(ids)), SessionsOf(q, ids)) == Endable(x, SessionsOf(x.questions, ids));
  }

  // ---------------------------------------------------------------------------
  // The follow-ups
  // ---------------------------------------------------------------------------

  /** Notices that earlier ticks, or tier 2, still owe for sessions that are over. */
  method RetryTimedOutNotifications(o: Orchestrator, w: Times) returns (ids: seq<QuestionId>)
    modifies o.store`questions
    ensures IsList(ids, UnnotifiedList(old(o.store.questions), o.store.sessions, w.clock), old(o.store.questions), w)
    ensures Now(o.store) == Notify(old(Now(o.store)), ids, w)
  {
    var q := o.store.questions;
    var matching := UnnotifiedList(q, o.store.sessions, w.clock);
    ids := Take(matching, ByDeadline(q, w), SWEEP_LIMIT);
    NotifyAll(o.store, ids, w);
  }

  // Dealing with one question more; its session may have been ended before.
  lemma OneQuestionMore(x: Rows, ids: seq<QuestionId>, i: nat, w: Times)
    requires i < |ids| && Distinct(ids)
    requires forall j :: 0 <= j < |ids| ==> ids[j] in x.questions && x.questions[ids[j]].status == TimedOut
    ensures var y, k := Finalize(x, ids[..i], w), x.questions[ids[i]].session;
            EndThem(y, Members([ids[i]]), Endable(y, {k}), w) == Finalize(x, ids[..i + 1], w)
  {
    var y, k := Finalize(x, ids[..i], w), x.questions[ids[i]].session;
    var o1, o2 := Endable(x, SessionsOf(x.questions, ids[..i])), Endable(y, {k});
    assert ids[..i + 1] == ids[..i] + [ids[i]];
    assert ids[i] !in ids[..i];
    assert Members(ids[..i + 1]) == Members(ids[..i]) + Members([ids[i]]);
    assert SessionsOf(x.questions, ids[..i + 1]) == SessionsOf(x.questions, ids[..i]) + {k};
    assert o1 + o2 == Endable(x, SessionsOf(x.questions, ids[..i + 1]));
    EndTwice(x, Members(ids[..i]), o1, Members([ids[i]]), o2, w);
  }

  // The question was left alone so far, and its session can be dealt with.
  lemma NextIsLeft(x: Rows, ids: seq<QuestionId>, i: nat, w: Times)
    requires i < |ids| && Distinct(ids)
    requires forall j :: 0 <= j < |ids| ==> ids[j] in x.questions && LeftOver(x.questions[ids[j]], x.sessions)
    ensures var y, k := Finalize(x, ids[..i], w), x.questions[ids[i]].session;
      && y.questions[ids[i]] == x.questions[ids[i]] && k in y.sessions
      && (Live(y.sessions[k].status)
          || (y.sessions[k].status == SessionStatus.Cancelled && k in Endable(x, SessionsOf(x.questions, ids[..i]))))
      && Endable(y, {k}) == Endable(x, {k})
  {
    assert ids[i] !in ids[..i];
  }

  // The loop's body, with what the loop has done so far.
  method FinalizeNext(o: Orchestrator, ghost x: Rows, ids: seq<QuestionId>, i: nat, w: Times)
    requires o.Valid() && i < |ids| && Distinct(ids)
    requires forall j :: 0 <= j < |ids| ==> ids[j] in x.questions && LeftOver(x.questions[ids[j]], x.sessions)
    requires Now(o.store) == Finalize(x, ids[..i], w)
    requires o.registered.Keys !! Endable(x, SessionsOf(x.questions, ids[..i]))
    modifies o`registered, o`disposed, o`threads, o.store`tasks, o.store`sessions, o.store`questions
    ensures o.Valid() && Now(o.store) == Finalize(x, ids[..i + 1], w)
    ensures o.registered.Keys !! Endable(x, SessionsOf(x.questions, ids[..i + 1]))
  {
    NextIsLeft(x, ids, i, w);
    EndAndNotify(o, o.store.questions[ids[i]].session, [ids[i]], w);
    OneQuestionMore(x, ids, i, w);
    assert ids[..i + 1] == ids[..i] + [ids[i]];
  }

  // Question by question.
  method FinalizeAll(o: Orchestrator, ids: seq<QuestionId>, w: Times)
    requires o.Valid() && Distinct(ids)
    requires forall i :: 0 <= i < |ids| ==>
               ids[i] in o.store.questions && LeftOver(o.store.questions[ids[i]], o.store.sessions)
    modifies o`registered, o`disposed, o`threads, o.store`tasks, o.store`sessions, o.store`questions
    ensures o.Valid() && Now(o.store) == Finalize(old(Now(o.store)), ids, w)
  {
    ghost var x := Now(o.store);
    NothingDone(x, ids[..0], w);
    for i := 0 to |ids|
      invariant o.Valid()
      invariant Now(o.store) == Finalize(x, ids[..i], w)
      invariant o.registered.Keys !! Endable(x, SessionsOf(x.questions, ids[..i]))
    {
      FinalizeNext(o, x, ids, i, w);
    }
    assert ids[..|ids|] == ids;
  }

  lemma NothingDone(x: Rows, ids: seq<QuestionId>, w: Times)
    requires ids == []
    ensures Endable(x, SessionsOf(x.questions, ids)) == {} && Finalize(x, ids, w) == x
  {
    assert SessionsOf(x.questions, ids) == {};
    assert Endable(x, {}) == {};
    NothingToEnd(x, Members(ids), w);
  }

  /** What earlier ticks left on live sessions: the session ends, unless it never ran, and the notice goes out. */
  method FinalizeTimedOut(o: Orchestrator, w: Times) returns (ids: seq<QuestionId>)
    requires o.Valid()
    modifies o`registered, o`disposed, o`threads, o.store`tasks, o.store`sessions, o.store`questions
    ensures o.Valid()
    ensures IsList(ids, LeftOverList(old(o.store.questions), old(o.store.sessions)), old(o.store.questions), w)
    ensures Now(o.store) == Finalize(old(Now(o.store)), ids, w)
  {
    var q := o.store.questions;
    var matching := LeftOverList(q, o.store.sessions);
    ids := Take(matching, ByDeadline(q, w), SWEEP_LIMIT);
    FinalizeAll(o, ids, w);
  }

  // ---------------------------------------------------------------------------
  // The whole tick
  // ---------------------------------------------------------------------------

  datatype Lists = Lists(
    expired: seq<QuestionId>, overdue: seq<QuestionId>, unnotified: seq<QuestionId>, leftOver: seq<QuestionId>)
  {
    // No list was cut off.
    predicate Uncut() {
      |expired| < SWEEP_LIMIT && |overdue| < SWEEP_LIMIT && |unnotified| < SWEEP_LIMIT && |leftOver| < SWEEP_LIMIT
    }
  }

  function AfterTiers(x: Rows, l: Lists, w: Times): Rows {
    TimeOut(ExtendAll(x, l.expired, w), l.overdue, w)
  }

  function AfterNotices(x: Rows, l: Lists, w: Times): Rows {
    Notify(AfterTiers(x, l, w), l.unnotified, w)
  }

  function AfterTick(x: Rows, l: Lists, w: Times): Rows {
    Finalize(AfterNotices(x, l, w), l.leftOver, w)
  }

  /** Each list is read when its turn comes. */
  ghost predicate ListsOf(x: Rows, l: Lists, w: Times) {
    var x1, x2, x3 := ExtendAll(x, l.expired, w), AfterTiers(x, l, w), AfterNotices(x, l, w);
    && IsList(l.expired, ExpiredList(x.questions, x.sessions, w.now), x.questions, w)
    && IsList(l.overdue, OverdueList(x1.questions, x1.sessions, w.now), x1.questions, w)
    && IsList(l.unnotified, UnnotifiedList(x2.questions, x2.sessions, w.clock), x2.questions, w)
    && IsList(l.leftOver, LeftOverList(x3.questions, x3.sessions), x3.questions, w)
  }

  /** One tick: what module TimeoutTicks says of `AfterTick` holds of it. */
  method Tick(o: Orchestrator, w: Times) returns (l: Lists)
    requires o.Valid()
    modifies o`registered, o`disposed, o`threads, o.store`tasks, o.store`sessions, o.store`questions
    ensures o.Valid()
    ensures ListsOf(old(Now(o.store)), l, w) && Now(o.store) == AfterTick(old(Now(o.store)), l, w)
  {
    var expired := SweepExpired(o, w);
    var overdue := SweepEscalated(o, w);
    var unnotified := RetryTimedOutNotifications(o, w);
    var leftOver := FinalizeTimedOut(o, w);
    l := Lists(expired, overdue, unnotified, leftOver);
  }
}
