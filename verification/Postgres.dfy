/**
 * The PostgreSQL store: task, session and question rows, changed by one repository call at a time.
 * `fault` says that the call fails for a reason outside the model; it then has no effect.
 */
module Postgres {
  import opened Domain
  import opened Questions

  const MAX_STORED_RETRIES: nat := 100
  const CLAIM_TTL: Time := 5 * 60
  const SWEEP_LIMIT: nat := 50

  datatype Session = Session(task: TaskId, status: SessionStatus, retryCount: nat, retryAt: Option<Time>)

  datatype Result = Ok | InvalidInput | NotFound | InvalidTransition | CallFailed

  function Clamp(n: nat): (r: nat)
    ensures r <= n && r <= MAX_STORED_RETRIES && (r == n || r == MAX_STORED_RETRIES)
  {
    if n <= MAX_STORED_RETRIES then n else MAX_STORED_RETRIES
  }

  class Store {
    var tasks: map<TaskId, TaskStatus>
    var sessions: map<SessionId, Session>
    var questions: Table

    constructor (tasks: map<TaskId, TaskStatus>)
      ensures this.tasks == tasks && sessions == map[] && questions == map[]
    {
      this.tasks, sessions, questions := tasks, map[], map[];
    }

    // ----- tasks -----

    method TransitionTask(id: TaskId, next: TaskStatus, fault: bool) returns (r: Result)
      modifies this`tasks
      ensures r == Ok <==> !fault && id in old(tasks) && TaskAllowed(old(tasks)[id], next)
      ensures tasks == if r == Ok then old(tasks)[id := next] else old(tasks)
    {
      if fault { return CallFailed; }
      if id !in tasks { return NotFound; }
      if !TaskAllowed(tasks[id], next) { return InvalidTransition; }
      tasks := tasks[id := next];
      r := Ok;
    }

    // ----- agent sessions -----

    method CreateSession(id: SessionId, session: Session, fault: bool) returns (r: Result)
      requires id !in sessions
      modifies this`sessions
      ensures r == Ok <==> !fault
      ensures sessions == if r == Ok
          then old(sessions)[id := session.(retryCount := Clamp(session.retryCount))] else old(sessions)
    {
      if fault { return CallFailed; }
      sessions := sessions[id := session.(retryCount := Clamp(session.retryCount))];
      r := Ok;
    }

    method UpdateSessionStatus(id: SessionId, next: SessionStatus, fault: bool) returns (r: Result)
      modifies this`sessions
      ensures r == Ok <==> !fault && id in old(sessions) && SessionAllowed(old(sessions)[id].status, next)
      ensures sessions == if r == Ok then old(sessions)[id := old(sessions)[id].(status := next)] else old(sessions)
    {
      if fault { return CallFailed; }
      if id !in sessions { return NotFound; }
      if !SessionAllowed(sessions[id].status, next) { return InvalidTransition; }
      sessions := sessions[id := sessions[id].(status := next)];
      r := Ok;
    }

    // An UPDATE that reports no missing row.
    method ScheduleRetry(id: SessionId, retryCount: nat, retryAt: Option<Time>, fault: bool) returns (r: Result)
      modifies this`sessions
      ensures r == Ok <==> !fault
      ensures sessions == if r == Ok && id in old(sessions)
                          then old(sessions)[id :=
                            old(sessions)[id].(retryCount := Clamp(retryCount), retryAt := retryAt)]
                          else old(sessions)
    {
      if fault { return CallFailed; }
      if id in sessions {
        sessions := sessions[id := sessions[id].(retryCount := Clamp(retryCount), retryAt := retryAt)];
      }
      r := Ok;
    }

    // ----- questions -----

    method CreateQuestion(id: QuestionId, session: SessionId, timeoutAt: Time, fault: bool) returns (r: Result)
      modifies this`questions
      ensures r == Ok <==> !fault && Hits(Create(id, session, timeoutAt), old(questions))
      ensures questions == if r == Ok then Exec(Create(id, session, timeoutAt), old(questions)) else old(questions)
    {
      if fault || id in questions { return CallFailed; }
      questions := questions[id := Fresh(session, timeoutAt)];
      r := Ok;
    }

    method DeleteQuestion(id: QuestionId, fault: bool) returns (r: Result)
      modifies this`questions
      ensures r == Ok <==> !fault
      ensures questions == if r == Ok then Exec(Delete(id), old(questions)) else old(questions)
    {
      if fault { return CallFailed; }
      questions := questions - {id};
      r := Ok;
    }

    method AnswerQuestion(id: QuestionId, answer: string, user: UserId, now: Time, fault: bool) returns (r: Result)
      modifies this`questions
      ensures r == Ok <==> !Blank(answer) && !fault && Hits(Answer(id, answer, user, now), old(questions))
      ensures r == InvalidInput <==> Blank(answer)
      ensures r == CallFailed <==> !Blank(answer) && fault
      ensures questions == if r == Ok then Exec(Answer(id, answer, user, now), old(questions)) else old(questions)
    {
      if Blank(answer) { return InvalidInput; }
      if fault { return CallFailed; }
      if id !in questions { return NotFound; }
      var row := questions[id];
      if row.status != Open && row.status != Escalated { return InvalidTransition; }
      questions := questions[id :=
        row.(status := Answered, answer := Some(answer), answeredBy := Some(user), answeredAt := Some(now))];
      r := Ok;
    }

    method ResetAnswer(id: QuestionId, fault: bool) returns (r: Result)
      modifies this`questions
      ensures r == Ok <==> !fault && Hits(Questions.ResetAnswer(id), old(questions))
      ensures questions == if r == Ok then Exec(Questions.ResetAnswer(id), old(questions)) else old(questions)
    {
      if fault { return CallFailed; }
      if id !in questions || questions[id].status != Answered { return InvalidTransition; }
      questions := questions[id :=
        questions[id].(status := Open, answer := None, answeredBy := None, answeredAt := None)];
      r := Ok;
    }

    method CancelPendingBySession(session: SessionId, fault: bool) returns (r: Result)
      modifies this`questions
      ensures r == Ok <==> !fault
      ensures questions == if r == Ok then Exec(CancelPending(session), old(questions)) else old(questions)
    {
      if fault { return CallFailed; }
      questions := map id | id in questions ::
        if questions[id].session == session && Unresolved(questions[id])
          then questions[id].(status := Withdrawn) else questions[id];
      r := Ok;
    }

    method EscalateQuestion(id: QuestionId, newTimeoutAt: Time, fault: bool) returns (r: Result)
      modifies this`questions
      ensures r == Ok <==> !fault && Hits(Escalate(id, newTimeoutAt), old(questions))
      ensures questions == if r == Ok then Exec(Escalate(id, newTimeoutAt), old(questions)) else old(questions)
    {
      if fault { return CallFailed; }
      if id !in questions || questions[id].status != Open { return InvalidTransition; }
      questions := questions[id := questions[id].(status := Escalated, timeoutAt := Some(newTimeoutAt))];
      r := Ok;
    }

    method MarkTimedOutEscalated(id: QuestionId, fault: bool) returns (r: Result)
      modifies this`questions
      ensures r == Ok <==> !fault && Hits(Questions.MarkTimedOutEscalated(id), old(questions))
      ensures questions == if r == Ok then Exec(Questions.MarkTimedOutEscalated(id), old(questions)) else old(questions)
    {
      if fault { return CallFailed; }
      if id !in questions || questions[id].status != Escalated { return InvalidTransition; }
      questions := questions[id := questions[id].(status := TimedOut)];
      r := Ok;
    }

    method ClaimTimeoutNotification(id: QuestionId, now: Time, fault: bool) returns (r: Result)
      modifies this`questions
      ensures r == Ok <==> !fault && Hits(Claim(id, now, now - CLAIM_TTL), old(questions))
      ensures questions == if r == Ok then Exec(Claim(id, now, now - CLAIM_TTL), old(questions)) else old(questions)
      ensures r == Ok ==> questions == old(questions)[id := old(questions)[id].(claimedAt := Some(now))]
      ensures r == Ok <==>
        && !fault && id in old(questions) && old(questions)[id].status == TimedOut
        && old(questions)[id].notifiedAt == None
        && (old(questions)[id].claimedAt.Some? ==> now - old(questions)[id].claimedAt.value > 300)
    {
      if fault { return CallFailed; }
      var staleBefore := now - CLAIM_TTL;
      if id !in questions || !Claimable(questions[id], staleBefore) { return InvalidTransition; }
      questions := questions[id := questions[id].(claimedAt := Some(now))];
      r := Ok;
    }

    method ClearTimeoutNotificationClaim(id: QuestionId, fault: bool) returns (r: Result)
      modifies this`questions
      ensures r == Ok <==> !fault
      ensures questions == if r == Ok then Exec(ClearClaim(id), old(questions)) else old(questions)
    {
      if fault { return CallFailed; }
      if id in questions && questions[id].status == TimedOut {
        questions := questions[id := questions[id].(claimedAt := None)];
      }
      r := Ok;
    }

    method MarkTimeoutNotificationSent(id: QuestionId, now: Time, fault: bool) returns (r: Result)
      modifies this`questions
      ensures r == Ok <==> !fault && Hits(MarkSent(id, now), old(questions))
      ensures questions == if r == Ok then Exec(MarkSent(id, now), old(questions)) else old(questions)
    {
      if fault { return CallFailed; }
      if id !in questions || questions[id].status != TimedOut
        || questions[id].notifiedAt != None { return InvalidTransition; }
      questions := questions[id := questions[id].(claimedAt := None, notifiedAt := Some(now))];
      r := Ok;
    }
  }
}
