/**
 * Retries of failed sessions: the backoff delays, and the chain of sessions one user dispatch can
 * lead to, with one scheduler and any interleaving of its calls with the ends of sessions.
 */
module Retry {
  import opened Domain
  import opened Postgres
  import Runs

  // ---------------------------------------------------------------------------
  // Delays, in nanoseconds
  // ---------------------------------------------------------------------------

  const DURATION_MAX := 0x7fff_ffff_ffff_ffff

  function Pow2(n: nat): (r: nat)
    ensures r >= 1
  {
    if n == 0 then 1 else 2 * Pow2(n - 1)
  }

  predicate Fits(base: int, attempt: nat) {
    attempt == 0 || base * Pow2(attempt - 1) <= DURATION_MAX
  }

  // The product is a float64: out of range, its conversion to an integer is up to the platform.
  function RetryDelay(base: int, max: int, attempt: nat, overflow: int): int {
    if attempt <= 1 then base else
    var delay := if Fits(base, attempt) then base * Pow2(attempt - 1) else overflow;
    if delay > max then max else delay
  }

  lemma {:induction false} Pow2Grows(a: nat, b: nat)
    requires a <= b
    ensures Pow2(a) <= Pow2(b)
  {
    if a < b {
      Pow2Grows(a, b - 1);
    }
  }

  lemma {:induction false} TimesGrows(base: nat, x: nat, y: nat)
    requires x <= y
    ensures base * x <= base * y
  {
    if base > 0 {
      TimesGrows(base - 1, x, y);
    }
  }

  lemma ProductGrows(base: int, a: nat, b: nat)
    requires 0 < base && 1 <= a <= b
    ensures base <= base * Pow2(a - 1) <= base * Pow2(b - 1)
  {
    Pow2Grows(a - 1, b - 1);
    TimesGrows(base, 1, Pow2(a - 1));
    TimesGrows(base, Pow2(a - 1), Pow2(b - 1));
  }

  predicate InRange(base: int, max: int, attempt: nat, overflow: int) {
    base <= RetryDelay(base, max, attempt, overflow) <= max
  }

  ghost predicate AllInRange(base: int, max: int, attempts: nat, overflow: int) {
    forall a {:trigger InRange(base, max, a, overflow)} :: 1 <= a <= attempts ==> InRange(base, max, a, overflow)
  }

  /**
   * The first `attempts` delays all lie between base and max exactly if the last product still is a
   * duration, or the platform converts what is not to at least the base.
   */
  lemma DelaysInRangeIff(base: int, max: int, attempts: nat, overflow: int)
    requires 0 < base <= max <= DURATION_MAX
    ensures AllInRange(base, max, attempts, overflow) <==> Fits(base, attempts) || overflow >= base
  {
    forall a | 1 <= a <= attempts && (Fits(base, attempts) || overflow >= base)
      ensures InRange(base, max, a, overflow) {
      ProductGrows(base, a, attempts);
    }
    if AllInRange(base, max, attempts, overflow) && attempts >= 1 {
      assert InRange(base, max, attempts, overflow);
    }
  }

  /** The first attempt waits the base, and each later one twice as long as the one before, up to the maximum. */
  lemma DelaysDouble(base: int, max: int, a: nat, overflow: int)
    requires 0 < base <= max <= DURATION_MAX && 1 <= a && Fits(base, a + 1)
    ensures RetryDelay(base, max, 1, overflow) == base
    ensures var twice := 2 * RetryDelay(base, max, a, overflow);
            RetryDelay(base, max, a + 1, overflow) == if twice < max then twice else max
  {
    ProductGrows(base, a, a + 1);
    TwiceTheProduct(base, Pow2(a - 1));
  }

  lemma TwiceTheProduct(base: int, p: int)
    ensures base * (2 * p) == 2 * (base * p)
  {
  }

  /** Later attempts never wait shorter. */
  lemma DelaysGrow(base: int, max: int, a: nat, b: nat, overflow: int)
    requires 0 < base <= max <= DURATION_MAX && 1 <= a <= b && Fits(base, b)
    ensures RetryDelay(base, max, a, overflow) <= RetryDelay(base, max, b, overflow)
  {
    ProductGrows(base, a, b);
  }

  // ---------------------------------------------------------------------------
  // The chain
  // ---------------------------------------------------------------------------

  datatype Config = Config(maxAttempts: nat, base: int, max: int, overflow: int)

  const DEFAULT := Config(3, 10_000_000_000, 300_000_000_000, -DURATION_MAX - 1)

  /**
   * A session row, with its history: the count it was inserted with, the user dispatch it goes back
   * to, the session it retries, and whether its dispatch succeeded.
   */
  datatype Row = Row(birth: nat, count: nat, retryAt: Option<Time>, ended: bool,
                     root: SessionId, parent: Option<SessionId>, registered: bool)

  // A row as the sweep has read it.
  datatype Item = Item(session: SessionId, count: nat)

  datatype Phase = Listed | Claimed

  // The sweep in progress: its tick, the sessions left to retry, and how far the first of them is.
  datatype Sweep = Sweep(tick: Time, items: seq<Item>, phase: Phase)

  datatype State = State(rows: map<SessionId, Row>, sweep: Sweep)

  const START := State(map[], Sweep(0, [], Listed))

  datatype Reply = Success | Failure | LostReply

  datatype Event =
    | UserDispatch(id: SessionId, registered: bool)
    | Exit(id: SessionId, failed: bool, now: Time, schedule: Reply)
    | Stop(id: SessionId)                  // cancelled or stalled
    | List(tick: Time, items: seq<Item>)
    | Skip                                 // no prompt to retry with
    | Claim(reply: Reply)
    | Dispatched(id: SessionId)
    | DispatchFailed(leftover: Option<SessionId>, reschedule: Reply)

  function Delay(c: Config, attempt: nat): int {
    RetryDelay(c.base, c.max, attempt, c.overflow)
  }

  predicate Running(s: State, id: SessionId) {
    id in s.rows && s.rows[id].registered && !s.rows[id].ended
  }

  predicate Due(s: State, item: Item, tick: Time) {
    && item.session in s.rows && s.rows[item.session].count == item.count
    && s.rows[item.session].retryAt.Some? && s.rows[item.session].retryAt.value <= tick
  }

  predicate Distinct(items: seq<Item>) {
    forall i, j :: 0 <= i < j < |items| ==> items[i].session != items[j].session
  }

  function Scheduled(row: Row, count: nat, at: Option<Time>): Row {
    row.(count := Clamp(count), retryAt := at)
  }

  function Rest(sweep: Sweep): Sweep
    requires sweep.items != []
  {
    sweep.(items := sweep.items[1..], phase := Listed)
  }

  function Exited(c: Config, row: Row, failed: bool, now: Time, schedule: Reply): Row {
    if failed && row.count < c.maxAttempts && schedule != Failure
    then Scheduled(row.(ended := true), row.count + 1, Some(now + Delay(c, row.count + 1)))
    else row.(ended := true)
  }

  function Child(item: Item, parent: Row, registered: bool): Row {
    Row(Clamp(item.count), Clamp(item.count), None, false, parent.root, Some(item.session), registered)
  }

  function StepSession(c: Config, s: State, e: Event): Option<State> {
    match e
    case UserDispatch(id, registered) =>
      if id in s.rows then None else Some(s.(rows := s.rows[id := Row(0, 0, None, false, id, None, registered)]))
    case Exit(id, failed, now, schedule) =>
      if Running(s, id) then Some(s.(rows := s.rows[id := Exited(c, s.rows[id], failed, now, schedule)])) else None
    case Stop(id) =>
      if Running(s, id) then Some(s.(rows := s.rows[id := s.rows[id].(ended := true)])) else None
    case List(tick, items) =>
      if s.sweep.items == [] && Distinct(items) && forall i :: 0 <= i < |items| ==> Due(s, items[i], tick)
      then Some(s.(sweep := Sweep(tick, items, Listed))) else None
    case _ => None
  }

  function StepSweep(c: Config, s: State, item: Item, e: Event): Option<State>
    requires s.sweep.items != [] && item == s.sweep.items[0] && item.session in s.rows
  {
    var row := s.rows[item.session];
    match (e, s.sweep.phase)
    case (Skip, Listed) => Some(s.(sweep := Rest(s.sweep)))
    case (Claim(reply), Listed) =>
      Some(State(if reply == Failure then s.rows else s.rows[item.session := Scheduled(row, item.count, None)],
                 if reply == Success then s.sweep.(phase := Claimed) else Rest(s.sweep)))
    case (Dispatched(id), Claimed) =>
      if id in s.rows then None else Some(State(s.rows[id := Child(item, row, true)], Rest(s.sweep)))
    case (DispatchFailed(leftover, reschedule), Claimed) =>
      if leftover.Some? && leftover.value in s.rows then None
      else
        var rows := if leftover.Some? then s.rows[leftover.value := Child(item, row, false)] else s.rows;
        Some(State(if reschedule == Failure then rows
                   else rows[item.session := Scheduled(row, item.count, Some(s.sweep.tick + Delay(c, item.count + 1)))],
                   Rest(s.sweep)))
    case _ => None
  }

  function Step(c: Config, s: State, e: Event): Option<State> {
    if e.UserDispatch? || e.Exit? || e.Stop? || e.List? then StepSession(c, s, e)
    else if s.sweep.items != [] && s.sweep.items[0].session in s.rows then StepSweep(c, s, s.sweep.items[0], e)
    else None
  }

  function Steps(c: Config): (State, Event) -> Option<State> {
    (s, e) => Step(c, s, e)
  }

  ghost predicate Behaviour(c: Config, ss: seq<State>) {
    Runs.Behaviour(START, Steps(c), ss)
  }

  ghost predicate Reachable(c: Config, s: State) {
    Runs.Reachable(START, Steps(c), s)
  }

  // ---------------------------------------------------------------------------
  // Invariant
  // ---------------------------------------------------------------------------

  predicate IsChild(s: State, id: SessionId, parent: SessionId) {
    id in s.rows && s.rows[id].registered && s.rows[id].parent == Some(parent)
  }

  // A retry of this session may still be dispatched.
  predicate Open(s: State, id: SessionId) {
    id in s.rows && (s.rows[id].retryAt.Some? || exists i :: 0 <= i < |s.sweep.items| && s.sweep.items[i].session == id)
  }

  // What a row says of itself.
  predicate RowOk(c: Config, row: Row) {
    && row.birth <= row.count <= row.birth + 1
    && row.count <= c.maxAttempts
    && (row.parent.None? <==> row.birth == 0)
  }

  ghost predicate SessionOk(c: Config, s: State, id: SessionId) {
    id in s.rows ==>
      && RowOk(c, s.rows[id])
      && s.rows[id].root in s.rows
      && (s.rows[id].parent.None? ==> s.rows[id].root == id)
      && (s.rows[id].parent.Some? ==> ParentOk(s, s.rows[id], s.rows[id].parent.value))
      && (Open(s, id) ==> s.rows[id].registered && s.rows[id].ended && s.rows[id].count == s.rows[id].birth + 1)
      && (!s.rows[id].ended ==> s.rows[id].count == s.rows[id].birth)
  }

  // A retry counts one more than its failed parent did, and the parent is not retried again.
  predicate ParentOk(s: State, row: Row, parent: SessionId) {
    && parent in s.rows && s.rows[parent].ended && s.rows[parent].registered
    && row.birth == s.rows[parent].birth + 1 && row.root == s.rows[parent].root
    && (row.registered ==> !Open(s, parent))
  }

  predicate Alike(s: State, a: SessionId, b: SessionId) {
    && a in s.rows && b in s.rows && s.rows[a].registered && s.rows[b].registered
    && s.rows[a].root == s.rows[b].root && s.rows[a].birth == s.rows[b].birth
  }

  predicate Unlike(s: State, a: SessionId, b: SessionId) {
    a != b ==> !Alike(s, a, b)
  }

  predicate ItemOk(s: State, i: nat) {
    i < |s.sweep.items| ==>
      && s.sweep.items[i].session in s.rows
      && s.rows[s.sweep.items[i].session].count == s.sweep.items[i].count
      && (i == 0 && s.sweep.phase == Claimed ==> s.rows[s.sweep.items[0].session].retryAt == None)
  }

  ghost predicate Inv(c: Config, s: State) {
    && (forall id {:trigger SessionOk(c, s, id)} :: SessionOk(c, s, id))
    && (forall a, b {:trigger Unlike(s, a, b)} :: Unlike(s, a, b))
    && (forall i {:trigger ItemOk(s, i)} :: ItemOk(s, i))
    && Distinct(s.sweep.items)
  }

  predicate Sound(c: Config) {
    c.maxAttempts <= MAX_STORED_RETRIES
  }

  lemma SessionStepKeepsItem(c: Config, s: State, e: Event, s': State, i: nat)
    requires Sound(c) && StepSession(c, s, e) == Some(s') && ItemOk(s, i)
    requires i < |s.sweep.items| ==> SessionOk(c, s, s.sweep.items[i].session)
    ensures ItemOk(s', i)
  {
  }

  lemma SweepStepKeepsItem(c: Config, s: State, e: Event, s': State, i: nat)
    requires Sound(c) && s.sweep.items != [] && s.sweep.items[0].session in s.rows
    requires StepSweep(c, s, s.sweep.items[0], e) == Some(s') && ItemOk(s, i) && ItemOk(s, i + 1)
        && Distinct(s.sweep.items)
    requires SessionOk(c, s, s.sweep.items[0].session) && ItemOk(s, 0)
    ensures ItemOk(s', i)
  {
  }

  // Listing opens nothing: what it lists is due.
  lemma SessionStepOpens(c: Config, s: State, e: Event, s': State, id: SessionId)
    requires StepSession(c, s, e) == Some(s') && Open(s', id)
    requires forall i {:trigger ItemOk(s, i)} :: ItemOk(s, i)
    ensures Open(s, id) || (e.Exit? && e.id == id)
  {
    if s'.rows[id].retryAt.None? && !e.List? {
      var i :| 0 <= i < |s.sweep.items| && s.sweep.items[i].session == id;
      assert ItemOk(s, i);
    }
  }

  // The sweep opens nothing either, and closes the session whose retry it dispatches.
  lemma SweepStepOpens(c: Config, s: State, e: Event, s': State, id: SessionId)
    requires s.sweep.items != [] && s.sweep.items[0].session in s.rows
    requires StepSweep(c, s, s.sweep.items[0], e) == Some(s') && Open(s', id)
    requires (forall i {:trigger ItemOk(s, i)} :: ItemOk(s, i)) && Distinct(s.sweep.items)
    ensures Open(s, id) && (e.Dispatched? ==> id != s.sweep.items[0].session)
  {
    var item := s.sweep.items[0];
    assert s.sweep.items[0].session == item.session && ItemOk(s, 0);
    if s'.rows[id].retryAt.None? {
      var i :| 0 <= i < |s'.sweep.items| && s'.sweep.items[i].session == id;
      var k := if s'.sweep.items == s.sweep.items then i else i + 1;
      assert s.sweep.items[k].session == id && ItemOk(s, k);
    }
  }

  lemma SessionStepKeepsSession(c: Config, s: State, e: Event, s': State, id: SessionId)
    requires Sound(c) && StepSession(c, s, e) == Some(s') && SessionOk(c, s, id)
    requires forall i {:trigger ItemOk(s, i)} :: ItemOk(s, i)
    ensures SessionOk(c, s', id)
  {
    if id in s'.rows {
      if Open(s', id) {
        SessionStepOpens(c, s, e, s', id);
      }
      if id in s.rows && s.rows[id].parent.Some? && Open(s', s.rows[id].parent.value) {
        SessionStepOpens(c, s, e, s', s.rows[id].parent.value);
      }
    }
  }

  lemma SweepStepKeepsSession(c: Config, s: State, e: Event, s': State, id: SessionId)
    requires Sound(c) && s.sweep.items != [] && s.sweep.items[0].session in s.rows
    requires StepSweep(c, s, s.sweep.items[0], e) == Some(s') && SessionOk(c, s, id)
        && SessionOk(c, s, s.sweep.items[0].session)
    requires (forall i {:trigger ItemOk(s, i)} :: ItemOk(s, i)) && Distinct(s.sweep.items)
    ensures SessionOk(c, s', id)
  {
    if id in s'.rows {
      assert ItemOk(s, 0);
      if Open(s', id) {
        SweepStepOpens(c, s, e, s', id);
      }
      if s'.rows[id].parent.Some? && Open(s', s'.rows[id].parent.value) {
        SweepStepOpens(c, s, e, s', s'.rows[id].parent.value);
      }
    }
  }

  // A new session's like would be the child of the same parent, which still is open.
  lemma NewChildIsUnlike(c: Config, s: State, item: Item, id: SessionId, other: SessionId)
    requires Inv(c, s) && Sound(c) && s.sweep.items != [] && item == s.sweep.items[0] && s.sweep.phase == Claimed
    requires other in s.rows && s.rows[other].registered && item.session in s.rows
    ensures s.rows[other].root != s.rows[item.session].root || s.rows[other].birth != item.count
  {
    assert ItemOk(s, 0) && SessionOk(c, s, item.session) && SessionOk(c, s, other);
    assert s.sweep.items[0].session == item.session && Open(s, item.session);
    var p := if s.rows[other].parent.Some? then s.rows[other].parent.value else other;
    assert Unlike(s, p, item.session);
  }

  lemma StepKeepsUnlike(c: Config, s: State, e: Event, s': State, a: SessionId, b: SessionId)
    requires Inv(c, s) && Sound(c) && Step(c, s, e) == Some(s')
    ensures Unlike(s', a, b)
  {
    assert Unlike(s, a, b) && SessionOk(c, s, a) && SessionOk(c, s, b);
    if e.Dispatched? && Alike(s', a, b) && a != b {
      assert SessionOk(c, s, s.sweep.items[0].session) && ItemOk(s, 0);
      NewChildIsUnlike(c, s, s.sweep.items[0], e.id, if a == e.id then b else a);
    }
  }

  lemma StepKeepsInv(c: Config, s: State, e: Event, s': State)
    requires Inv(c, s) && Sound(c) && Step(c, s, e) == Some(s')
    ensures Inv(c, s')
  {
    var bySession := e.UserDispatch? || e.Exit? || e.Stop? || e.List?;
    if !bySession {
      assert ItemOk(s, 0) && SessionOk(c, s, s.sweep.items[0].session);
    }
    forall id ensures SessionOk(c, s', id) {
      assert SessionOk(c, s, id);
      if bySession {
        SessionStepKeepsSession(c, s, e, s', id);
      } else {
        SweepStepKeepsSession(c, s, e, s', id);
      }
    }
    forall i: nat ensures ItemOk(s', i) {
      assert ItemOk(s, i) && ItemOk(s, i + 1);
      if bySession {
        assert i < |s.sweep.items| ==> SessionOk(c, s, s.sweep.items[i].session);
        SessionStepKeepsItem(c, s, e, s', i);
      } else {
        SweepStepKeepsItem(c, s, e, s', i);
      }
    }
    forall a, b ensures Unlike(s', a, b) {
      StepKeepsUnlike(c, s, e, s', a, b);
    }
    assert Distinct(s'.sweep.items);
  }

  lemma {:induction false} InvHolds(c: Config, ss: seq<State>, i: nat)
    requires Sound(c) && Behaviour(c, ss) && i < |ss|
    ensures Inv(c, ss[i])
  {
    if i > 0 {
      InvHolds(c, ss, i - 1);
      var e := Runs.EventAt(START, Steps(c), ss, i);
      StepKeepsInv(c, ss[i - 1], e, ss[i]);
    }
  }

  // ---------------------------------------------------------------------------
  // Results
  // ---------------------------------------------------------------------------

  /** No session counts more retries than are allowed, and a retry counts one more than its failed parent did. */
  lemma CountsFollowTheChain(c: Config, ss: seq<State>, i: nat, id: SessionId)
    requires Sound(c) && Behaviour(c, ss) && i < |ss| && id in ss[i].rows
    ensures ss[i].rows[id].count <= c.maxAttempts
    ensures match ss[i].rows[id].parent
            case None => ss[i].rows[id].birth == 0
            case Some(p) => p in ss[i].rows && ss[i].rows[p].ended && ss[i].rows[id].birth == ss[i].rows[p].birth + 1
  {
    InvHolds(c, ss, i);
    assert SessionOk(c, ss[i], id);
  }

  /** No session is retried twice. */
  lemma OneRetryEach(c: Config, ss: seq<State>, i: nat, parent: SessionId, a: SessionId, b: SessionId)
    requires Sound(c) && Behaviour(c, ss) && i < |ss| && IsChild(ss[i], a, parent) && IsChild(ss[i], b, parent)
    ensures a == b
  {
    InvHolds(c, ss, i);
    assert SessionOk(c, ss[i], a) && SessionOk(c, ss[i], b) && Unlike(ss[i], a, b);
  }

  // At this step the session failed, with retries left and its schedule stored.
  predicate FailedAt(c: Config, ss: seq<State>, j: nat, id: SessionId, now: Time, reply: Reply) {
    && j + 1 < |ss| && Step(c, ss[j], Exit(id, true, now, reply)) == Some(ss[j + 1])
    && id in ss[j].rows && ss[j].rows[id].count < c.maxAttempts && reply != Failure
  }

  // Delays are what they are meant to be at every attempt that can come.
  predicate Paced(c: Config) {
    0 < c.base <= c.max <= DURATION_MAX && Fits(c.base, c.maxAttempts + 1)
  }

  // Whoever may retry the session has to wait, or has waited, for at least the base delay.
  ghost predicate WaitsSince(c: Config, s: State, id: SessionId, now: Time) {
    && (id in s.rows && s.rows[id].retryAt.Some? ==> s.rows[id].retryAt.value >= now + c.base)
    && (forall i :: 0 <= i < |s.sweep.items| && s.sweep.items[i].session == id ==> s.sweep.tick >= now + c.base)
  }

  lemma StepKeepsWaiting(c: Config, s: State, e: Event, s': State, id: SessionId, now: Time)
    requires Sound(c) && Inv(c, s) && Step(c, s, e) == Some(s') && Paced(c) && Open(s, id) && WaitsSince(c, s, id, now)
    ensures WaitsSince(c, s', id, now)
  {
    assert SessionOk(c, s, id) && ItemOk(s, 0);
    DelaysInRangeIff(c.base, c.max, c.maxAttempts + 1, c.overflow);
    if id in s.rows {
      assert InRange(c.base, c.max, s.rows[id].count + 1, c.overflow);
    }
  }

  // What may be retried has failed, and waits.
  lemma {:induction false} OpenHasFailed(c: Config, ss: seq<State>, i: nat, id: SessionId)
      returns (j: nat, now: Time, reply: Reply)
    requires Sound(c) && Behaviour(c, ss) && i < |ss| && Open(ss[i], id)
    ensures j < i && FailedAt(c, ss, j, id, now, reply)
    ensures Paced(c) ==> WaitsSince(c, ss[i], id, now)
  {
    InvHolds(c, ss, i - 1);
    var s := ss[i - 1];
    var e := Runs.EventAt(START, Steps(c), ss, i);
    assert SessionOk(c, s, id);
    if Open(s, id) {
      j, now, reply := OpenHasFailed(c, ss, i - 1, id);
      if Paced(c) {
        StepKeepsWaiting(c, s, e, ss[i], id, now);
      }
    } else {
      if e.UserDispatch? || e.Exit? || e.Stop? || e.List? {
        SessionStepOpens(c, s, e, ss[i], id);
      } else {
        SweepStepOpens(c, s, e, ss[i], id);
      }
      j, now, reply := i - 1, e.now, e.schedule;
      if Paced(c) {
        DelaysInRangeIff(c.base, c.max, c.maxAttempts + 1, c.overflow);
        assert InRange(c.base, c.max, s.rows[id].count + 1, c.overflow);
      }
    }
  }

  // The session has ended, is not to be retried, and was not.
  ghost predicate Done(s: State, id: SessionId) {
    && id in s.rows && s.rows[id].ended && !Open(s, id)
    && forall child :: !IsChild(s, child, id)
  }

  lemma StepKeepsDone(c: Config, s: State, e: Event, s': State, id: SessionId)
    requires Sound(c) && Inv(c, s) && Step(c, s, e) == Some(s') && Done(s, id)
    ensures Done(s', id)
  {
    assert ItemOk(s, 0);
    forall child ensures !IsChild(s', child, id) {
      assert !IsChild(s, child, id);
    }
    if Open(s', id) {
      if e.UserDispatch? || e.Exit? || e.Stop? || e.List? {
        SessionStepOpens(c, s, e, s', id);
      } else {
        SweepStepOpens(c, s, e, s', id);
      }
    }
  }

  lemma {:induction false} DoneStays(c: Config, ss: seq<State>, i: nat, j: nat, id: SessionId)
    requires Sound(c) && Behaviour(c, ss) && i <= j < |ss| && Done(ss[i], id)
    ensures Done(ss[j], id)
  {
    if i < j {
      DoneStays(c, ss, i, j - 1, id);
      InvHolds(c, ss, j - 1);
      var e := Runs.EventAt(START, Steps(c), ss, j);
      StepKeepsDone(c, ss[j - 1], e, ss[j], id);
    }
  }

  /** A session that succeeded, was cancelled or stalled is never retried, whatever follows. */
  lemma SuccessIsFinal(c: Config, ss: seq<State>, i: nat, j: nat, e: Event)
    requires Sound(c) && Behaviour(c, ss) && i < j < |ss| && Step(c, ss[i], e) == Some(ss[i + 1])
    requires (e.Exit? && !e.failed) || e.Stop?
    ensures Done(ss[j], e.id)
  {
    InvHolds(c, ss, i);
    var s, s' := ss[i], ss[i + 1];
    assert SessionOk(c, s, e.id);
    forall child ensures !IsChild(s', child, e.id) {
      assert SessionOk(c, s, child);
    }
    DoneStays(c, ss, i + 1, j, e.id);
  }

  /**
   * A retry whose dispatch fails is put back to wait for its next attempt, and if that update fails too the
   * session is never retried again.
   */
  lemma LostRescheduleIsFinal(c: Config, ss: seq<State>, i: nat, j: nat, leftover: Option<SessionId>, reply: Reply)
    requires Sound(c) && Behaviour(c, ss) && i < j < |ss|
    requires Step(c, ss[i], DispatchFailed(leftover, reply)) == Some(ss[i + 1])
    ensures ss[i].sweep.items != [] && ss[i].sweep.items[0].session in ss[i + 1].rows
    ensures reply == Failure ==> Done(ss[j], ss[i].sweep.items[0].session)
    ensures reply != Failure ==>
              var item := ss[i].sweep.items[0];
              ss[i + 1].rows[item.session].retryAt ==
                Some(ss[i].sweep.tick + RetryDelay(c.base, c.max, item.count + 1, c.overflow))
  {
    InvHolds(c, ss, i);
    var s, s', id := ss[i], ss[i + 1], ss[i].sweep.items[0].session;
    assert ItemOk(s, 0) && SessionOk(c, s, id) && Open(s, id);
    if reply == Failure {
      forall child ensures !IsChild(s', child, id) {
        assert SessionOk(c, s, child);
      }
      DoneStays(c, ss, i + 1, j, id);
    }
  }

  /**
   * Whatever is retried has failed, with retries left; and the tick that retries it comes at least the base
   * delay after the failure.
   */
  lemma {:induction false} OnlyFailuresAreRetried(c: Config, ss: seq<State>, i: nat, id: SessionId, parent: SessionId)
      returns (j: nat, k: nat, now: Time, reply: Reply)
    requires Sound(c) && Behaviour(c, ss) && i < |ss| && id in ss[i].rows && ss[i].rows[id].parent == Some(parent)
    ensures j < k < i && FailedAt(c, ss, j, parent, now, reply)
    ensures id !in ss[k].rows && id in ss[k + 1].rows
    ensures Paced(c) ==> ss[k].sweep.tick >= now + c.base
  {
    InvHolds(c, ss, i - 1);
    var s := ss[i - 1];
    var e := Runs.EventAt(START, Steps(c), ss, i);
    if id in s.rows {
      j, k, now, reply := OnlyFailuresAreRetried(c, ss, i - 1, id, parent);
    } else {
      assert ItemOk(s, 0) && s.sweep.items[0].session == parent;
      j, now, reply := OpenHasFailed(c, ss, i - 1, parent);
      k := i - 1;
    }
  }

  // The registered sessions one user dispatch has led to, its own left out.
  function Descendants(s: State, root: SessionId): set<SessionId> {
    set id | id in s.rows && s.rows[id].registered && s.rows[id].root == root && id != root
  }

  // Sessions with different counts between 1 and n: there are at most n.
  lemma {:induction false} AtMostOnePerCount(s: State, ids: set<SessionId>, n: nat)
    requires forall id :: id in ids ==> id in s.rows && 1 <= s.rows[id].birth <= n
    requires forall a, b :: a in ids && b in ids && s.rows[a].birth == s.rows[b].birth ==> a == b
    ensures |ids| <= n
  {
    if n == 0 {
      assert ids == {};
    } else if top :| top in ids && s.rows[top].birth == n {
      AtMostOnePerCount(s, ids - {top}, n - 1);
    } else {
      AtMostOnePerCount(s, ids, n - 1);
    }
  }

  /** One user dispatch leads to at most `maxAttempts` further registered sessions. */
  lemma ChainIsBounded(c: Config, ss: seq<State>, i: nat, root: SessionId)
    requires Sound(c) && Behaviour(c, ss) && i < |ss|
    ensures |Descendants(ss[i], root)| <= c.maxAttempts
  {
    InvHolds(c, ss, i);
    var s := ss[i];
    var ids := Descendants(s, root);
    forall id | id in ids ensures 1 <= s.rows[id].birth <= c.maxAttempts {
      assert SessionOk(c, s, id);
    }
    forall a, b | a in ids && b in ids && s.rows[a].birth == s.rows[b].birth ensures a == b {
      assert Unlike(s, a, b);
    }
    AtMostOnePerCount(s, ids, c.maxAttempts);
  }

  // The session whose retry an event schedules, and the time the delay is counted from.
  function Schedules(s: State, e: Event): Option<(SessionId, Time)> {
    match e
    case Exit(id, _, now, _) => Some((id, now))
    case DispatchFailed(_, _) => if s.sweep.items != [] then Some((s.sweep.items[0].session, s.sweep.tick)) else None
    case _ => None
  }

  /** Whenever a retry is scheduled, it waits at least `base` and at most `max`. */
  lemma RetriesWait(c: Config, ss: seq<State>, i: nat, e: Event, id: SessionId)
    requires Sound(c) && Behaviour(c, ss) && i + 1 < |ss| && Step(c, ss[i], e) == Some(ss[i + 1])
    requires Paced(c)
    requires id in ss[i].rows && ss[i + 1].rows[id].retryAt != ss[i].rows[id].retryAt
        && ss[i + 1].rows[id].retryAt.Some?
    ensures Schedules(ss[i], e).Some? && Schedules(ss[i], e).value.0 == id
    ensures c.base <= ss[i + 1].rows[id].retryAt.value - Schedules(ss[i], e).value.1 <= c.max
  {
    InvHolds(c, ss, i);
    var s := ss[i];
    assert SessionOk(c, s, id) && ItemOk(s, 0);
    DelaysInRangeIff(c.base, c.max, c.maxAttempts + 1, c.overflow);
    assert InRange(c.base, c.max, s.rows[id].count + 1, c.overflow);
  }

  lemma DefaultsAreSound()
    ensures Sound(DEFAULT) && Paced(DEFAULT) && DEFAULT.maxAttempts == 3
    ensures DEFAULT.base == 10 * 1_000_000_000 && DEFAULT.max == 300 * 1_000_000_000
  {
    assert Pow2(3) == 2 * (2 * (2 * Pow2(0)));
  }

  // ----- how long a chain can get -----

  // Sessions 0 to n, each the retry of the one before, and the last of them running.
  ghost predicate Generations(s: State, n: nat) {
    && s.sweep.items == []
    && (forall id: SessionId :: id in s.rows <==> id <= n)
    && (forall id: SessionId :: id <= n ==> s.rows[id].registered && s.rows[id].root == 0)
    && Running(s, n) && s.rows[n].count == Clamp(n)
  }

  // A chain can get this long: while retries are left, or for ever with more than 100 attempts allowed.
  predicate CanReach(c: Config, n: nat) {
    n <= c.maxAttempts || !Sound(c)
  }

  /** The chain of a dispatch can reach the length it may have, whether the replies to its updates arrive or not. */
  lemma {:induction false} ChainReaches(c: Config, n: nat, reply: Reply) returns (s: State)
    requires CanReach(c, n) && reply != Failure
    ensures Reachable(c, s) && Generations(s, n)
  {
    if n == 0 {
      Runs.StartIsReachable(START, Steps(c));
      s := Step(c, START, UserDispatch(0, true)).value;
      assert s.rows == map[0 := Row(0, 0, None, false, 0, None, true)];
      Runs.Extend(START, Steps(c), START, UserDispatch(0, true), s);
    } else {
      s := ChainReaches(c, n - 1, reply);
      s := OneMore(c, s, n, reply);
    }
  }

  lemma FailsOnce(c: Config, s0: State, n: nat, reply: Reply) returns (s: State)
    requires n > 0 && CanReach(c, n) && reply != Failure && Reachable(c, s0) && Generations(s0, n - 1)
    ensures Reachable(c, s) && s.sweep == s0.sweep
    ensures s.rows == s0.rows[n - 1 :=
              s0.rows[n - 1].(ended := true, count := Clamp(n), retryAt := Some(Delay(c, Clamp(n - 1) + 1)))]
  {
    var exit := Exit(n - 1, true, 0, reply);
    s := Step(c, s0, exit).value;
    Runs.Extend(START, Steps(c), s0, exit, s);
  }

  lemma OneMore(c: Config, s0: State, n: nat, reply: Reply) returns (s: State)
    requires n > 0 && CanReach(c, n) && reply != Failure && Reachable(c, s0) && Generations(s0, n - 1)
    ensures Reachable(c, s) && Generations(s, n)
  {
    var s1 := FailsOnce(c, s0, n, reply);
    var s2 := IsClaimed(c, s1, Item(n - 1, Clamp(n)));
    s := Step(c, s2, Dispatched(n)).value;
    Runs.Extend(START, Steps(c), s2, Dispatched(n), s);
  }

  lemma IsClaimed(c: Config, s0: State, item: Item) returns (s: State)
    requires Reachable(c, s0) && s0.sweep.items == [] && item.session in s0.rows
    requires s0.rows[item.session].count == item.count && s0.rows[item.session].retryAt.Some?
    ensures Reachable(c, s) && s.sweep.items == [item] && s.sweep.phase == Claimed
    ensures s.rows == s0.rows[item.session := Scheduled(s0.rows[item.session], item.count, None)]
  {
    var list := List(s0.rows[item.session].retryAt.value, [item]);
    assert Due(s0, item, list.tick);
    var s1 := Step(c, s0, list).value;
    Runs.Extend(START, Steps(c), s0, list, s1);
    s := Step(c, s1, Claim(Success)).value;
    Runs.Extend(START, Steps(c), s1, Claim(Success), s);
  }

  ghost predicate ChainsBounded(c: Config) {
    forall s, root {:trigger Descendants(s, root)} :: Reachable(c, s) ==> |Descendants(s, root)| <= c.maxAttempts
  }

  lemma {:induction false} CountUpTo(n: nat, ids: set<SessionId>)
    requires forall id: SessionId :: id in ids <==> 1 <= id <= n
    ensures |ids| == n
  {
    if n > 0 {
      CountUpTo(n - 1, ids - {n});
    } else {
      assert ids == {};
    }
  }

  /** With more than 100 attempts allowed, the stored count sticks at 100, and every session is retried. */
  lemma ChainNeverEnds(c: Config, n: nat) returns (s: State)
    requires !Sound(c)
    ensures Reachable(c, s) && |Descendants(s, 0)| == n
  {
    s := ChainReaches(c, n, Success);
    CountUpTo(n, Descendants(s, 0));
  }

  /** The bound is tight: all `maxAttempts` retries can happen. */
  lemma AllRetriesCanHappen(c: Config, reply: Reply) returns (s: State)
    requires reply != Failure
    ensures Reachable(c, s) && |Descendants(s, 0)| == c.maxAttempts
  {
    s := ChainReaches(c, c.maxAttempts, reply);
    CountUpTo(c.maxAttempts, Descendants(s, 0));
  }

  /** The chain of every user dispatch is bounded by `maxAttempts` exactly if that is at most 100. */
  lemma ChainsBoundedIffCountable(c: Config)
    ensures ChainsBounded(c) <==> c.maxAttempts <= MAX_STORED_RETRIES
  {
    if Sound(c) {
      forall s, root | Reachable(c, s) ensures |Descendants(s, root)| <= c.maxAttempts {
        var ss :| Runs.Ends(START, Steps(c), ss, s);
        ChainIsBounded(c, ss, |ss| - 1, root);
      }
    } else {
      var s := ChainNeverEnds(c, c.maxAttempts + 1);
    }
  }
}
