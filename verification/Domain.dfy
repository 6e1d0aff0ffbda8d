/** Identifiers, statuses and the two transition tables shared by every other module. */
module Domain {

  datatype Option<+T> = None | Some(value: T)

  // UUIDs: compared, ordered where SQL orders them, and never reused.
  type Id = nat
  type QuestionId = Id
  type SessionId = Id
  type TaskId = Id
  type ProjectId = Id
  type UserId = Id

  // The white space of Unicode.
  predicate IsSpace(c: char) {
    || c in "\t\n\r \U{0B}\U{0C}\U{85}\U{A0}\U{1680}\U{2028}\U{2029}\U{202F}\U{205F}\U{3000}"
    || '\U{2000}' <= c <= '\U{200A}'
  }

  // By code point: tab to carriage return, the blank, NEL, NBSP and the separators.
  lemma SpaceCodes(c: char)
    ensures IsSpace(c) <==>
            || 9 <= c as int <= 13 || 0x2000 <= c as int <= 0x200A
            || c as int in {0x20, 0x85, 0xA0, 0x1680, 0x2028, 0x2029, 0x202F, 0x205F, 0x3000}
  {
  }

  predicate Blank(s: string) {
    forall i :: 0 <= i < |s| ==> IsSpace(s[i])
  }

  function Least(a: nat, b: nat): nat {
    if a < b then a else b
  }

  // A point in time, and a duration, as a whole number of seconds unless a module says otherwise.
  type Time = int

  datatype SessionStatus = Pending | Running | WaitingHitl | Completed | Failed | Cancelled

  predicate SessionAllowed(from: SessionStatus, to: SessionStatus) {
    match from
    case Pending => to == Running
    case Running => to in {WaitingHitl, Completed, Failed, Cancelled}
    case WaitingHitl => to in {Running, Cancelled}
    case _ => false
  }

  predicate Terminal(s: SessionStatus) {
    s in {Completed, Failed, Cancelled}
  }

  datatype TaskStatus = Backlog | InProgress | Review | Done

  predicate TaskAllowed(from: TaskStatus, to: TaskStatus) {
    match from
    case Backlog => to == InProgress
    case InProgress => to in {Review, Backlog}
    case Review => to in {Done, InProgress, Backlog}
    case Done => false
  }

  /** An agent session entity; a transition is all or nothing. */
  class SessionEntity {
    var status: SessionStatus
    var startedAt: Option<Time>
    var completedAt: Option<Time>

    constructor ()
      ensures Valid() && status == Pending
    {
      status, startedAt, completedAt := Pending, None, None;
    }

    // The timestamps tell the history of the status: started iff it ever ran, completed iff terminal.
    ghost predicate Valid()
      reads this
    {
      && (startedAt.Some? <==> status != Pending)
      && (completedAt.Some? <==> Terminal(status))
    }

    method Transition(next: SessionStatus, now: Time) returns (ok: bool)
      requires Valid()
      modifies this
      ensures Valid()
      ensures ok <==> SessionAllowed(old(status), next)
      ensures ok <==>
        (old(status), next) in {
          (Pending, Running), (Running, WaitingHitl), (WaitingHitl, Running), (Running, Completed), (Running, Failed),
          (Running, Cancelled), (WaitingHitl, Cancelled)}
      ensures status == if ok then next else old(status)
      ensures old(startedAt).Some? ==> startedAt == old(startedAt)
      ensures old(startedAt).None? && startedAt.Some? ==> ok && next == Running && startedAt == Some(now)
      ensures old(completedAt).None? && completedAt.Some? ==> ok && Terminal(next) && completedAt == Some(now)
      ensures old(completedAt).Some? ==> !ok && completedAt == old(completedAt)
    {
      ok := SessionAllowed(status, next);
      if !ok {
        return;
      }
      status := next;
      if next == Running {
        if startedAt == None {
          startedAt := Some(now);
        }
      } else if Terminal(next) {
        completedAt := Some(now);
      }
    }
  }

  /** A kanban task entity. */
  class TaskEntity {
    var status: TaskStatus
    var updatedAt: Time

    constructor (now: Time)
      ensures status == Backlog && updatedAt == now
    {
      status, updatedAt := Backlog, now;
    }

    method Transition(next: TaskStatus, now: Time) returns (ok: bool)
      modifies this
      ensures ok <==> TaskAllowed(old(status), next)
      ensures ok <==>
        (old(status), next) in {
          (Backlog, InProgress), (InProgress, Review), (Review, Done),
          (InProgress, Backlog), (Review, InProgress), (Review, Backlog)}
      ensures ok ==> status == next && updatedAt == now
      ensures !ok ==> unchanged(this)
    {
      ok := TaskAllowed(status, next);
      if ok {
        status, updatedAt := next, now;
      }
    }
  }
}
