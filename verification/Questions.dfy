/** The hitl_questions table: one value per SQL statement, and what running the statements means. */
module Questions {
  import opened Domain

  datatype Status = Open | Escalated | Answered | TimedOut | Withdrawn

  datatype Question = Question(
    session: SessionId,
    status: Status,
    answer: Option<string>,
    answeredBy: Option<UserId>,
    answeredAt: Option<Time>,
    timeoutAt: Option<Time>,
    claimedAt: Option<Time>,
    notifiedAt: Option<Time>)

  type Table = map<QuestionId, Question>

  // How long a question waits before it is escalated.
  const ASK_TIMEOUT: Time := 30 * 60

  datatype Statement =
    | Create(id: QuestionId, session: SessionId, timeoutAt: Time)
    | Delete(id: QuestionId)
    | Answer(id: QuestionId, answer: string, user: UserId, now: Time)
    | ResetAnswer(id: QuestionId)
    | CancelPending(session: SessionId)
    | Escalate(id: QuestionId, newTimeoutAt: Time)
    | MarkTimedOutEscalated(id: QuestionId)
    | MarkTimedOut(id: QuestionId)
    | ReopenTimedOut(id: QuestionId)
    | Claim(id: QuestionId, now: Time, staleBefore: Time)
    | ClearClaim(id: QuestionId)
    | MarkSent(id: QuestionId, now: Time)

  // status IN ('pending', 'escalated')
  predicate Unresolved(r: Question) {
    r.status == Open || r.status == Escalated
  }

  predicate Claimable(r: Question, staleBefore: Time) {
    && r.status == TimedOut
    && r.notifiedAt == None
    && (r.claimedAt == None || r.claimedAt.value < staleBefore)
  }

  /** The WHERE clause of a statement, for the row under its id (for any row, if it names none). */
  predicate Where(q: Statement, r: Question) {
    match q
    case Create(_, _, _) => false
    case Delete(_) => true
    case Answer(_, _, _, _) => Unresolved(r)
    case ResetAnswer(_) => r.status == Answered
    case CancelPending(session) => r.session == session && Unresolved(r)
    case Escalate(_, _) => r.status == Open
    case MarkTimedOutEscalated(_) => r.status == Escalated
    case MarkTimedOut(_) => r.status == Open
    case ReopenTimedOut(_) => r.status == TimedOut
    case Claim(_, _, staleBefore) => Claimable(r, staleBefore)
    case ClearClaim(_) => r.status == TimedOut
    case MarkSent(_, _) => r.status == TimedOut && r.notifiedAt == None
  }

  /** The SET clause of an UPDATE. */
  function Set(q: Statement, r: Question): Question {
    match q
    case Create(_, _, _) => r
    case Delete(_) => r
    case Answer(_, answer, user, now) =>
      r.(status := Answered, answer := Some(answer), answeredBy := Some(user), answeredAt := Some(now))
    case ResetAnswer(_) => r.(status := Open, answer := None, answeredBy := None, answeredAt := None)
    case CancelPending(_) => r.(status := Withdrawn)
    case Escalate(_, newTimeoutAt) => r.(status := Escalated, timeoutAt := Some(newTimeoutAt))
    case MarkTimedOutEscalated(_) => r.(status := TimedOut)
    case MarkTimedOut(_) => r.(status := TimedOut)
    case ReopenTimedOut(_) => r.(status := Open, claimedAt := None, notifiedAt := None)
    case Claim(_, now, _) => r.(claimedAt := Some(now))
    case ClearClaim(_) => r.(claimedAt := None)
    case MarkSent(_, now) => r.(claimedAt := None, notifiedAt := Some(now))
  }

  function Fresh(session: SessionId, timeoutAt: Time): Question {
    Question(session, Open, None, None, None, Some(timeoutAt), None, None)
  }

  function Exec(q: Statement, t: Table): Table {
    match q
    case Create(id, session, timeoutAt) => if id in t then t else t[id := Fresh(session, timeoutAt)]
    case Delete(id) => t - {id}
    case CancelPending(_) => map id | id in t :: if Where(q, t[id]) then Set(q, t[id]) else t[id]
    case _ => if q.id in t && Where(q, t[q.id]) then t[q.id := Set(q, t[q.id])] else t
  }

  /**
   * The statement succeeds: an INSERT finds its key free, an UPDATE ... RETURNING finds its row.
   * The three statements run without RETURNING succeed on no rows too.
   */
  predicate Hits(q: Statement, t: Table) {
    match q
    case Create(id, _, _) => id !in t
    case Delete(_) => true
    case CancelPending(_) => true
    case ClearClaim(_) => true
    case _ => q.id in t && Where(q, t[q.id])
  }

  /** The statements that name a single row touch that row only. */
  lemma ExecTouchesOneRow(q: Statement, t: Table, id: QuestionId)
    requires !q.CancelPending? && q.id != id
    ensures id in Exec(q, t) <==> id in t
    ensures id in t ==> Exec(q, t)[id] == t[id]
  {
  }

  function Run(t: Table, qs: seq<Statement>): Table {
    if qs == [] then t else Exec(qs[|qs| - 1], Run(t, qs[..|qs| - 1]))
  }

  // ---------------------------------------------------------------------------
  // What every run keeps
  // ---------------------------------------------------------------------------

  predicate RowInvariant(r: Question) {
    && (r.status == Answered <==> r.answer.Some?)
    && (r.answer.Some? <==> r.answeredBy.Some?)
    && (r.answer.Some? <==> r.answeredAt.Some?)
    && (r.claimedAt.Some? ==> r.status == TimedOut && r.notifiedAt == None)
    && (r.notifiedAt.Some? ==> r.status == TimedOut)
  }

  predicate TableInvariant(t: Table) {
    forall id :: id in t ==> RowInvariant(t[id])
  }

  lemma ExecKeepsRowInvariant(t: Table, q: Statement)
    requires TableInvariant(t)
    ensures TableInvariant(Exec(q, t))
  {
  }

  lemma {:induction false} RunKeepsRowInvariant(t: Table, qs: seq<Statement>)
    requires TableInvariant(t)
    ensures TableInvariant(Run(t, qs))
  {
    if qs != [] {
      RunKeepsRowInvariant(t, qs[..|qs| - 1]);
      ExecKeepsRowInvariant(Run(t, qs[..|qs| - 1]), qs[|qs| - 1]);
    }
  }

  /** The statements that take a row from one status to a different one. */
  predicate Edge(q: Statement, from: Status, to: Status) {
    match q
    case Answer(_, _, _, _) => from in {Open, Escalated} && to == Answered
    case ResetAnswer(_) => from == Answered && to == Open
    case CancelPending(_) => from in {Open, Escalated} && to == Withdrawn
    case Escalate(_, _) => from == Open && to == Escalated
    case MarkTimedOutEscalated(_) => from == Escalated && to == TimedOut
    case MarkTimedOut(_) => from == Open && to == TimedOut
    case ReopenTimedOut(_) => from == TimedOut && to == Open
    case _ => false
  }

  // Rows are created under ids of their own, so a run never inserts `id` again.
  predicate NeverInserts(qs: seq<Statement>, id: QuestionId) {
    forall i :: 0 <= i < |qs| && qs[i].Create? ==> qs[i].id != id
  }

  predicate NeverReopens(qs: seq<Statement>, id: QuestionId) {
    forall i :: 0 <= i < |qs| && qs[i].ReopenTimedOut? ==> qs[i].id != id
  }

  predicate WasNotified(r: Question) {
    r.status == TimedOut && r.notifiedAt.Some?
  }

  /** Withdrawn is for ever; timeout is for ever unless reopened. A deleted row stays away. */
  lemma {:induction false} FinalStatuses(t: Table, qs: seq<Statement>, id: QuestionId)
    requires NeverInserts(qs, id)
    ensures id !in t ==> id !in Run(t, qs)
    ensures id in t && t[id].status == Withdrawn && id in Run(t, qs) ==> Run(t, qs)[id] == t[id]
    ensures id in t && t[id].status == TimedOut && id in Run(t, qs) && NeverReopens(qs, id) ==>
              Run(t, qs)[id].status == TimedOut
    ensures id in t && id in Run(t, qs) && WasNotified(t[id]) && NeverReopens(qs, id) ==>
              Run(t, qs)[id].notifiedAt == t[id].notifiedAt
  {
    if qs != [] {
      assert qs[|qs| - 1].Create? ==> qs[|qs| - 1].id != id;
      assert NeverReopens(qs, id) ==> !(qs[|qs| - 1].ReopenTimedOut? && qs[|qs| - 1].id == id);
      FinalStatuses(t, qs[..|qs| - 1], id);
    }
  }

  /** A row changes status along an edge of the lifecycle and in no other way. */
  lemma StatusMovesAlongEdges(q: Statement, t: Table, id: QuestionId)
    requires id in t && id in Exec(q, t)
    ensures t[id].status != Exec(q, t)[id].status ==> Edge(q, t[id].status, Exec(q, t)[id].status)
    ensures Exec(q, t)[id].timeoutAt != t[id].timeoutAt ==> q.Escalate? && q.id == id && t[id].status == Open
  {
  }

  // The statement is about this row: it names it, or its session.
  predicate About(q: Statement, t: Table, id: QuestionId)
    requires id in t
  {
    if q.CancelPending? then q.session == t[id].session else q.id == id
  }

  /** And every edge is taken: the statement does to the row's status what the lifecycle says. */
  lemma EdgesAreTaken(q: Statement, t: Table, id: QuestionId, to: Status)
    requires id in t && About(q, t, id) && Edge(q, t[id].status, to)
    ensures id in Exec(q, t) && Exec(q, t)[id].status == to && Hits(q, t)
    ensures q.ReopenTimedOut? ==> Exec(q, t)[id] == t[id].(status := Open, claimedAt := None, notifiedAt := None)
  {
  }
}
