/**
 * A human answer, recorded and then delivered to the waiting agent, with the recording undone when
 * the delivery fails. The HTTP handler and the Slack handler run the same saga.
 */
module AnswerSaga {
  import opened Domain
  import opened Questions
  import opened Postgres
  import opened Orchestrator

  // Which calls of one saga fail. `reset` and `send.rollback` are the compensating ones.
  datatype Faults = Faults(get: bool, record: bool, reload: bool, send: SendFaults, reset: bool) {
    predicate Compensates() {
      !reset && !send.rollback
    }

    predicate Primary() {
      get || record || reload || send.load || send.cancel || send.run || send.prompt
    }
  }

  // How the saga reports back: an answer that came too late, an error, or one of its two good ends.
  datatype Outcome = Stale | Aborted | Resumed | Unavailable

  // What an outcome makes of a waiting session.
  function SessionAfterOutcome(r: Outcome): SessionStatus {
    match r
    case Resumed => SessionStatus.Running
    case Unavailable => SessionStatus.Cancelled
    case _ => WaitingHitl
  }

  /** The question is open, and its session waits for it. */
  predicate Awaiting(questions: Table, sessions: map<SessionId, Session>, id: QuestionId) {
    && id in questions && Unresolved(questions[id])
    && questions[id].session in sessions && sessions[questions[id].session].status == WaitingHitl
  }

  function Delivered(prompts: seq<(SessionId, string)>, session: SessionId): nat {
    if prompts == [] then 0
    else Delivered(prompts[..|prompts| - 1], session) + if prompts[|prompts| - 1].0 == session then 1 else 0
  }

  lemma DeliveredAppend(prompts: seq<(SessionId, string)>, p: (SessionId, string), session: SessionId)
    ensures Delivered(prompts + [p], session) == Delivered(prompts, session) + if p.0 == session then 1 else 0
  {
    assert (prompts + [p])[..|prompts + [p]| - 1] == prompts;
  }

  predicate Answerable(questions: Table, id: QuestionId) {
    id in questions && questions[id].status == Open
  }

  // A refusal for the answer or the row is told from a call that failed.
  method RouteAnswer(store: Store, id: QuestionId, answer: string, user: UserId, now: Time, f: Faults)
      returns (r: Outcome)
    modifies store`questions
    ensures r == Stale <==> !f.get && !(Answerable(old(store.questions), id) && !Blank(answer))
    ensures r == Resumed <==> !f.get && Answerable(old(store.questions), id) && !Blank(answer) && !f.record
    ensures r != Unavailable
    ensures store.questions == if r == Resumed
        then Exec(Answer(id, answer, user, now), old(store.questions)) else old(store.questions)
  {
    if f.get { return Aborted; }
    if id !in store.questions { return Stale; }
    if store.questions[id].status != Open { return Stale; }
    var result := store.AnswerQuestion(id, answer, user, now, f.record);
    r := if result == Ok then Resumed else if result == CallFailed then Aborted else Stale;
  }

  // The rows of a question and its session after a saga, and how many prompts the agent got from it.
  predicate EndsResumed(q: Question, s: Session, sent: int) {
    q.status == Answered && s.status == SessionStatus.Running && sent == 1
  }

  predicate EndsUnavailable(q: Question, s: Session, sent: int) {
    q.status == Answered && s.status == SessionStatus.Cancelled && sent == 0
  }

  predicate EndsRestored(before: Question, q: Question, s: Session, sent: int) {
    q == before && s.status == WaitingHitl && sent == 0
  }

  predicate Ends(before: Question, q: Question, s: Session, sent: int) {
    EndsResumed(q, s, sent) || EndsUnavailable(q, s, sent) || EndsRestored(before, q, s, sent)
  }

  /** The three ends exclude one another: at most one is reached. */
  lemma EndsAreExclusive(before: Question, q: Question, s: Session, sent: int)
    requires Unresolved(before)
    ensures EndsResumed(q, s, sent) ==> !EndsUnavailable(q, s, sent) && !EndsRestored(before, q, s, sent)
    ensures EndsUnavailable(q, s, sent) ==> !EndsRestored(before, q, s, sent)
  {
  }

  // How the delivery of an answer comes out, given the rows and who is tracked when it starts.
  function DeliveryOutcome(sessions: map<SessionId, Session>, tracked: set<SessionId>, session: SessionId,
      f: Faults): Outcome {
    if f.reload then Aborted
    else if session in tracked then
      if session in sessions && SessionAllowed(sessions[session].status, SessionStatus.Running) && !f.send.run
        && !f.send.prompt
      then Resumed else Aborted
    else if f.send.load || session !in sessions || (sessions[session].status == WaitingHitl && f.send.cancel)
      then Aborted
    else Unavailable
  }

  // The delivery half of the saga, for an answer just recorded.
  method Resume(o: Orchestrator, id: QuestionId, answer: string, f: Faults) returns (r: Outcome)
    requires o.Valid() && f.Compensates() && id in o.store.questions && o.store.questions[id].status == Answered
    modifies o`threads, o`prompts, o.store`tasks, o.store`sessions, o.store`questions
    ensures o.Valid()
    ensures r == DeliveryOutcome(old(o.store.sessions), o.registered.Keys, old(o.store.questions)[id].session, f)
    ensures r == Aborted ==>
        o.store.questions == Exec(ResetAnswer(id), old(o.store.questions)) && o.prompts == old(o.prompts)
    ensures r == Aborted && !f.send.prompt ==> o.store.sessions == old(o.store.sessions)
    ensures r == Resumed ==> o.store.questions == old(o.store.questions)
    ensures r == Unavailable ==> o.prompts == old(o.prompts)
    ensures r == Unavailable && o.store.questions != old(o.store.questions) ==>
      o.store.questions == Cleared(old(o.store.questions), old(o.store.questions)[id].session, false)
    ensures var session := old(o.store.questions)[id].session;
      && o.store.sessions.Keys == old(o.store.sessions).Keys
      && (forall s :: s in o.store.sessions && s != session ==> o.store.sessions[s] == old(o.store.sessions)[s])
      && (r == Resumed ==> session in o.registered && o.prompts == old(o.prompts) + [(session, answer)])
      && (r == Unavailable ==> session !in o.registered)
      && (session in old(o.store.sessions) && old(o.store.sessions)[session].status == WaitingHitl ==>
            o.store.sessions[session].status == SessionAfterOutcome(r))
      && (session in old(o.store.sessions)
          && !SessionAllowed(old(o.store.sessions)[session].status, SessionStatus.Running) ==>
            o.store.sessions[session] == old(o.store.sessions)[session])
  {
    if f.reload {
      var _ := o.store.ResetAnswer(id, f.reset);
      return Aborted;
    }
    var sent := o.SendHITLAnswer(o.store.questions[id].session, answer, f.send);
    match sent
    case Delivered => return Resumed;
    case SessionUnavailable => return Unavailable;
    case SendFailed =>
      var _ := o.store.ResetAnswer(id, f.reset);
      return Aborted;
  }

  /** Resetting takes an answer back without a trace. */
  lemma ResetUndoesAnswer(t: Table, id: QuestionId, answer: string, user: UserId, now: Time)
    requires id in t && t[id].status == Open && RowInvariant(t[id])
    ensures Exec(ResetAnswer(id), Exec(Answer(id, answer, user, now), t)) == t
  {
  }

  function OutcomeOf(questions: Table, sessions: map<SessionId, Session>, tracked: set<SessionId>,
                     id: QuestionId, answer: string, f: Faults): Outcome {
    if f.get then Aborted
    else if !Answerable(questions, id) || Blank(answer) then Stale
    else if f.record then Aborted
    else DeliveryOutcome(sessions, tracked, questions[id].session, f)
  }

  /** The whole saga, on any question at all. */
  method AnswerThenResume(o: Orchestrator, id: QuestionId, answer: string, user: UserId, now: Time, f: Faults)
    returns (r: Outcome)
    requires o.Valid() && TableInvariant(o.store.questions) && f.Compensates()
    modifies o`threads, o`prompts, o.store`tasks, o.store`sessions, o.store`questions
    ensures o.Valid() && TableInvariant(o.store.questions)
    ensures r in {Stale, Aborted} ==> o.store.questions == old(o.store.questions) && o.prompts == old(o.prompts)
    ensures r == Stale || (r == Aborted && !f.send.prompt) ==> o.store.sessions == old(o.store.sessions)
    ensures r == OutcomeOf(old(o.store.questions), old(o.store.sessions), o.registered.Keys, id, answer, f)
    ensures r in {Resumed, Unavailable} ==>
      && id in old(o.store.questions) && old(o.store.questions)[id].status == Open
      && id in o.store.questions
           && o.store.questions[id] == Set(Answer(id, answer, user, now), old(o.store.questions)[id])
    ensures r == Resumed ==>
      && o.store.questions == Exec(Answer(id, answer, user, now), old(o.store.questions))
      && o.prompts == old(o.prompts) + [(old(o.store.questions)[id].session, answer)]
    ensures r == Unavailable ==>
        o.prompts == old(o.prompts) && OthersWithdrawn(old(o.store.questions), o.store.questions, id)
    ensures !Answerable(old(o.store.questions), id) ==>
        r in {Stale, Aborted} && o.store.sessions == old(o.store.sessions)
    ensures id in old(o.store.questions) ==>
        SessionAfter(old(o.store.sessions), o.store.sessions, old(o.store.questions)[id].session, r)
  {
    r := RouteAnswer(o.store, id, answer, user, now, f);
    if r != Resumed { return; }
    ExecKeepsRowInvariant(old(o.store.questions), Answer(id, answer, user, now));
    ResetUndoesAnswer(old(o.store.questions), id, answer, user, now);
    var session := o.store.questions[id].session;
    ExecKeepsRowInvariant(o.store.questions, CancelPending(session));
    r := Resume(o, id, answer, f);
  }

  // Of the other rows, at most the open ones of the same session were withdrawn.
  predicate OthersWithdrawn(before: Table, after: Table, id: QuestionId) {
    && before.Keys == after.Keys && id in before
    && forall q :: q in before && q != id ==>
         || after[q] == before[q]
         || (Unresolved(before[q]) && before[q].session == before[id].session
              && after[q] == before[q].(status := Withdrawn))
  }

  predicate SessionAfter(before: map<SessionId, Session>, after: map<SessionId, Session>, session: SessionId,
      r: Outcome) {
    && before.Keys == after.Keys
    && (forall s :: s in before && s != session ==> after[s] == before[s])
    && (session in before && before[session].status == WaitingHitl ==> after[session].status == SessionAfterOutcome(r))
    && (session in before && !SessionAllowed(before[session].status, SessionStatus.Running) ==>
          after[session] == before[session])
  }

  /** The HTTP handler: whatever fails, an awaited question reaches exactly one end, and the reply tells which. */
  method AnswerQuestion(o: Orchestrator, id: QuestionId, answer: string, user: UserId, now: Time, f: Faults)
    returns (ok: bool)
    requires o.Valid() && TableInvariant(o.store.questions) && f.Compensates()
    requires Awaiting(o.store.questions, o.store.sessions, id)
    modifies o`threads, o`prompts, o.store`tasks, o.store`sessions, o.store`questions
    ensures o.Valid() && TableInvariant(o.store.questions) && id in o.store.questions
    ensures var session := old(o.store.questions)[id].session;
      && session in o.store.sessions
      && Ends(old(o.store.questions)[id], o.store.questions[id], o.store.sessions[session],
              Delivered(o.prompts, session) - Delivered(old(o.prompts), session))
    ensures ok <==> o.store.questions[id].status == Answered
    ensures ok <==>
        var r := OutcomeOf(old(o.store.questions), old(o.store.sessions), o.registered.Keys, id, answer, f);
        r == Resumed || r == Unavailable
    ensures ok ==> o.store.questions[id].answer == Some(answer) && o.store.questions[id].answeredBy == Some(user)
    ensures ok && o.store.sessions[old(o.store.questions)[id].session].status == SessionStatus.Running ==>
      o.prompts == old(o.prompts) + [(old(o.store.questions)[id].session, answer)]
  {
    ghost var prompts, session := o.prompts, o.store.questions[id].session;
    var r := AnswerThenResume(o, id, answer, user, now, f);
    ok := r == Resumed || r == Unavailable;
    if r == Resumed {
      assert o.prompts == prompts + [(session, answer)];
      DeliveredAppend(prompts, (session, answer), session);
    } else {
      assert o.prompts == prompts;
    }
  }

  // ---------------------------------------------------------------------------
  // Slack: one payload may carry several actions
  // ---------------------------------------------------------------------------

  datatype Action = Action(
    hitl: bool, parses: bool, resolves: bool, id: QuestionId, answer: string, user: UserId, faults: Faults)

  // Question a of session k was answered: the session runs on with its one prompt, or it is over.
  predicate EndsAnswered(q0: Table, q: Table, k: SessionId, a: QuestionId, status: SessionStatus, sent: int,
                         tracked: bool) {
    && a in q0 && a in q && q0[a].session == k && q0[a].status == Open && q[a].status == Answered
    && status == (if tracked then SessionStatus.Running else SessionStatus.Cancelled)
    && sent == (if tracked then 1 else 0)
    && forall id :: id in q0 && q0[id].session == k && id != a ==>
         && id in q
         && (q[id] == q0[id] || (!tracked && Unresolved(q0[id]) && q[id] == q0[id].(status := Withdrawn)))
  }

  /**
   * What became of a session that waited: nothing at all; or one of its questions was answered, and it runs
   * on with one prompt if it was tracked, and is cancelled without one if not.
   */
  ghost predicate SessionEnds(q0: Table, q: Table, k: SessionId, status: SessionStatus, sent: int, tracked: bool) {
    || (status == WaitingHitl && sent == 0
        && forall id :: id in q0 && q0[id].session == k ==> id in q && q[id] == q0[id])
    || exists a :: EndsAnswered(q0, q, k, a, status, sent, tracked)
  }

  predicate Waited(s0: map<SessionId, Session>, k: SessionId) {
    k in s0 && s0[k].status == WaitingHitl
  }

  // What holds between the actions of a payload, relative to the state the payload found.
  ghost predicate Progress(q0: Table, s0: map<SessionId, Session>, p0: seq<(SessionId, string)>,
                           q: Table, s: map<SessionId, Session>, p: seq<(SessionId, string)>, tracked: set<SessionId>) {
    && q.Keys == q0.Keys && s.Keys == s0.Keys
    && (forall id :: id in q0 ==> q[id].session == q0[id].session)
    && (forall k :: Waited(s0, k) ==>
          SessionEnds(q0, q, k, s[k].status, Delivered(p, k) - Delivered(p0, k), k in tracked))
  }

  // A question was answered although nobody tracks its session.
  predicate LostAnswer(q0: Table, q: Table, tracked: set<SessionId>, id: QuestionId) {
    && id in q0 && id in q && q0[id].status == Open && q[id].status == Answered
    && q0[id].session !in tracked
  }

  ghost predicate AllTracked(q0: Table, q: Table, tracked: set<SessionId>) {
    forall id :: !LostAnswer(q0, q, tracked, id)
  }

  // What the saga for question x may have done to the rows and the prompts.
  predicate SagaStep(q1: Table, s1: map<SessionId, Session>, p1: seq<(SessionId, string)>,
                     q2: Table, s2: map<SessionId, Session>, p2: seq<(SessionId, string)>, tracked: set<SessionId>,
                     x: QuestionId, text: string, r: Outcome) {
    && (r in {Stale, Aborted} ==> q2 == q1 && p2 == p1)
    && (x !in q1 || q1[x].status != Open ==> r in {Stale, Aborted} && s2 == s1)
    && (x in q1 ==> SessionAfter(s1, s2, q1[x].session, r))
    && (r == Resumed ==>
          && x in q1 && q1[x].session in tracked && p2 == p1 + [(q1[x].session, text)]
          && q1[x].session in s1 && SessionAllowed(s1[q1[x].session].status, SessionStatus.Running)
          && q2.Keys == q1.Keys && forall id :: id in q1 && id != x ==> q2[id] == q1[id])
    && (r == Unavailable ==> x in q1 && q1[x].session !in tracked && p2 == p1 && OthersWithdrawn(q1, q2, x))
    && (r in {Resumed, Unavailable} ==> x in q2 && q2[x].status == Answered && q2[x].session == q1[x].session)
  }

  // One session, over one saga.
  lemma SagaKeepsSession(q0: Table, q1: Table, s1: map<SessionId, Session>, p1: seq<(SessionId, string)>,
                         q2: Table, s2: map<SessionId, Session>, p2: seq<(SessionId, string)>,
                         tracked: set<SessionId>, x: QuestionId, text: string, r: Outcome, k: SessionId, sent: int)
    requires q1.Keys == q0.Keys && (forall id :: id in q0 ==> q1[id].session == q0[id].session)
    requires k in s1 && k in s2 && SessionEnds(q0, q1, k, s1[k].status, sent, k in tracked)
    requires x in q1 && SagaStep(q1, s1, p1, q2, s2, p2, tracked, x, text, r) && AllTracked(q0, q1, tracked)
    ensures SessionEnds(q0, q2, k, s2[k].status, sent + Delivered(p2, k) - Delivered(p1, k), k in tracked)
  {
    DeliveredAppend(p1, (q1[x].session, text), k);
    if a :| EndsAnswered(q0, q1, k, a, s1[k].status, sent, k in tracked) {
      assert !LostAnswer(q0, q1, tracked, a);
      assert EndsAnswered(q0, q2, k, a, s2[k].status, sent + Delivered(p2, k) - Delivered(p1, k), k in tracked);
    } else if q1[x].session == k && r in {Resumed, Unavailable} {
      assert EndsAnswered(q0, q2, k, x, s2[k].status, sent + Delivered(p2, k) - Delivered(p1, k), k in tracked);
    }
  }

  lemma SagaKeepsProgress(q0: Table, s0: map<SessionId, Session>, p0: seq<(SessionId, string)>,
                          q1: Table, s1: map<SessionId, Session>, p1: seq<(SessionId, string)>,
                          q2: Table, s2: map<SessionId, Session>, p2: seq<(SessionId, string)>,
                          tracked: set<SessionId>, x: QuestionId, text: string, r: Outcome)
    requires Progress(q0, s0, p0, q1, s1, p1, tracked) && AllTracked(q0, q1, tracked)
    requires SagaStep(q1, s1, p1, q2, s2, p2, tracked, x, text, r)
    ensures Progress(q0, s0, p0, q2, s2, p2, tracked)
    ensures r != Unavailable ==> AllTracked(q0, q2, tracked)
    ensures forall id :: LostAnswer(q0, q2, tracked, id) ==> r == Unavailable && id == x
  {
    forall id | LostAnswer(q0, q2, tracked, id) ensures r == Unavailable && id == x {
      assert !LostAnswer(q0, q1, tracked, id);
    }
    if x in q1 {
      forall k | Waited(s0, k)
        ensures SessionEnds(q0, q2, k, s2[k].status, Delivered(p2, k) - Delivered(p0, k), k in tracked)
      {
        SagaKeepsSession(q0, q1, s1, p1, q2, s2, p2, tracked, x, text, r, k, Delivered(p1, k) - Delivered(p0, k));
      }
    }
  }

  // What the loop does after an action: goes on, leaves the payload at that, or reports an error.
  datatype Verdict = GoOn | Leave | Fail

  predicate Names(a: Action) {
    a.hitl && a.parses
  }

  // A question that was dealt with is not waiting for a first answer any more.
  predicate DealtWith(questions: Table, a: Action) {
    Names(a) && !Blank(a.answer) && a.id in questions ==> questions[a.id].status != Open
  }

  // Why the loop stops at an action: its session is gone and it is answered all the same, or something went wrong.
  predicate StopsAt(questions: Table, sessions: map<SessionId, Session>, tracked: set<SessionId>, a: Action, ok: bool) {
    && Names(a)
    && if ok then a.id in questions && questions[a.id].status == Answered && questions[a.id].session !in tracked
       else
         || !a.resolves || a.faults.Primary()
         || (a.id in questions && questions[a.id].status == Open
             && (questions[a.id].session !in sessions
                  || !SessionAllowed(sessions[questions[a.id].session].status, SessionStatus.Running)))
  }

  predicate StaysDealtWith(q1: Table, q2: Table) {
    q2.Keys == q1.Keys && forall id :: id in q1 && q1[id].status != Open ==> q2[id].status != Open
  }

  method HandleAction(o: Orchestrator, a: Action, now: Time) returns (v: Verdict, ghost r: Outcome)
    requires o.Valid() && TableInvariant(o.store.questions) && a.faults.Compensates()
    modifies o`threads, o`prompts, o.store`tasks, o.store`sessions, o.store`questions
    ensures o.Valid() && TableInvariant(o.store.questions)
    ensures SagaStep(old(o.store.questions), old(o.store.sessions), old(o.prompts),
                     o.store.questions, o.store.sessions, o.prompts, o.registered.Keys, a.id, a.answer, r)
    ensures StaysDealtWith(old(o.store.questions), o.store.questions)
    ensures r == if Names(a) && a.resolves
              then OutcomeOf(old(o.store.questions), old(o.store.sessions), o.registered.Keys, a.id, a.answer, a.faults)
              else Stale
    ensures v == Leave <==> r == Unavailable
    ensures v == Fail <==> Names(a) && (!a.resolves || r == Aborted)
    ensures v == GoOn ==> DealtWith(o.store.questions, a)
    ensures v != GoOn ==> StopsAt(o.store.questions, o.store.sessions, o.registered.Keys, a, v == Leave)
  {
    r := Stale;
    if !a.hitl || !a.parses { return GoOn, r; }
    if !a.resolves { return Fail, r; }
    var outcome := AnswerThenResume(o, a.id, a.answer, a.user, now, a.faults);
    r := outcome;
    match outcome
    case Stale => v := GoOn;
    case Aborted => v := Fail;
    case Unavailable => v := Leave;
    case Resumed => v := GoOn;
  }

  /**
   * The Slack handler: what became of every session that waited when the payload came. The first n actions
   * were dealt with, and the one after them stopped the loop; an answer for a session that nobody tracks always does.
   */
  method HandleInteraction(o: Orchestrator, actions: seq<Action>, now: Time) returns (ok: bool, ghost n: nat)
    requires o.Valid() && TableInvariant(o.store.questions)
    requires forall i :: 0 <= i < |actions| ==> actions[i].faults.Compensates()
    modifies o`threads, o`prompts, o.store`tasks, o.store`sessions, o.store`questions
    ensures o.Valid() && TableInvariant(o.store.questions)
    ensures Progress(old(o.store.questions), old(o.store.sessions), old(o.prompts), o.store.questions, o.store.sessions,
        o.prompts, o.registered.Keys)
    ensures n <= |actions| && forall i :: 0 <= i < n ==> DealtWith(o.store.questions, actions[i])
    ensures n == |actions| ==> ok
    ensures n < |actions| ==> StopsAt(o.store.questions, o.store.sessions, o.registered.Keys, actions[n], ok)
    ensures forall id :: LostAnswer(old(o.store.questions), o.store.questions, o.registered.Keys, id) ==>
              ok && n < |actions| && id == actions[n].id
  {
    ghost var q0, s0, p0, tracked := o.store.questions, o.store.sessions, o.prompts, o.registered.Keys;
    NothingEnded(q0, s0, p0, tracked);
    for i := 0 to |actions|
      invariant o.Valid() && TableInvariant(o.store.questions)
      invariant Progress(q0, s0, p0, o.store.questions, o.store.sessions, o.prompts, tracked)
      invariant AllTracked(q0, o.store.questions, tracked)
      invariant forall j :: 0 <= j < i ==> DealtWith(o.store.questions, actions[j])
    {
      ghost var q1, s1, p1 := o.store.questions, o.store.sessions, o.prompts;
      var v, r := HandleAction(o, actions[i], now);
      SagaKeepsProgress(q0, s0, p0, q1, s1, p1, o.store.questions, o.store.sessions, o.prompts, tracked, actions[i].id,
        actions[i].answer, r);
      if v != GoOn {
        return v == Leave, i;
      }
    }
    return true, |actions|;
  }

  lemma NothingEnded(q0: Table, s0: map<SessionId, Session>, p0: seq<(SessionId, string)>, tracked: set<SessionId>)
    ensures Progress(q0, s0, p0, q0, s0, p0, tracked) && AllTracked(q0, q0, tracked)
  {
  }
}
