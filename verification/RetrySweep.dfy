/** One tick of the retry sweep: every session whose retry is due is claimed, then dispatched again. */
module RetrySweep {
  import opened Domain
  import opened Postgres
  import opened Orchestrator
  import Retry
  import opened Worklist

  const BATCH: nat := 25

  // Which calls of one retry fail; a session without a prompt is skipped.
  datatype RetryFaults = RetryFaults(noPrompt: bool, claim: bool, dispatch: DispatchFaults, reschedule: bool) {
    predicate Skips() {
      noPrompt || claim
    }
  }

  predicate Due(row: Session, now: Time) {
    row.retryAt.Some? && row.retryAt.value <= now
  }

  function DueList(sessions: map<SessionId, Session>, now: Time): set<SessionId> {
    set s | s in sessions && Due(sessions[s], now)
  }

  function ByRetryTime(sessions: map<SessionId, Session>, created: SessionId -> Time): Order {
    Order((s: SessionId) => if s in sessions then sessions[s].retryAt else None, created)
  }

  // A retry that was claimed: the session is off the list, or back on it after the delay for its next attempt.
  predicate Settled(before: Session, after: Session, now: Time, delay: nat -> Time) {
    && after.retryAt in {None, Some(now + delay(before.retryCount + 1))}
    && after == before.(retryCount := Clamp(before.retryCount), retryAt := after.retryAt)
  }

  // All a retry does besides to its own session is to add rows that are not scheduled.
  ghost predicate OthersAsBefore(before: map<SessionId, Session>, after: map<SessionId, Session>, session: SessionId) {
    && (forall s :: s in before ==> s in after && (s != session ==> after[s] == before[s]))
    && (forall s :: s in after && s !in before ==> after[s].retryAt == None)
  }

  /**
   * One retry: the claim takes the session off the list, a dispatch that succeeds registers one new
   * session that counts as many retries, and one that fails puts the session back for later.
   */
  method RetrySession(o: Orchestrator, session: SessionId, now: Time, f: RetryFaults) returns (child: Option<SessionId>)
    requires o.Valid() && session in o.store.sessions
    modifies o, o.store
    ensures o.Valid()
    ensures OthersAsBefore(old(o.store.sessions), o.store.sessions, session)
    ensures f.Skips() ==>
              child.None? && o.store.sessions == old(o.store.sessions) && o.store.tasks == old(o.store.tasks)
    ensures !f.Skips() ==> Settled(old(o.store.sessions)[session], o.store.sessions[session], now, o.retryDelay)
    ensures child.Some? <==>
              && !f.Skips() && !f.dispatch.Primary()
              && old(o.store.sessions)[session].task in old(o.store.tasks)
              && old(o.store.tasks)[old(o.store.sessions)[session].task] == Backlog
    ensures child.Some? ==>
              var row := old(o.store.sessions)[session];
              && child.value !in old(o.store.sessions) && child.value in o.registered
              && o.store.sessions[child.value] == Session(row.task, SessionStatus.Running, Clamp(row.retryCount), None)
              && o.store.sessions[session].retryAt == None
              && o.store.tasks == old(o.store.tasks)[row.task := InProgress]
    ensures child.None? ==> o.registered == old(o.registered)
    ensures child.None? && !f.Skips() && !f.reschedule ==>
              o.store.sessions[session].retryAt ==
                Some(now + o.retryDelay(old(o.store.sessions)[session].retryCount + 1))
    ensures o.store.questions == old(o.store.questions)
  {
    if f.noPrompt { return None; }
    var row := o.store.sessions[session];
    var r := o.store.ScheduleRetry(session, row.retryCount, None, f.claim);
    if r != Ok { return None; }
    child := o.DispatchTask(row.task, None, row.retryCount, f.dispatch);
    if child.None? {
      var _ := o.store.ScheduleRetry(session, row.retryCount, Some(now + o.retryDelay(row.retryCount + 1)),
        f.reschedule);
    }
  }

  // The sweep with the first n sessions of its list behind it: exactly those were settled, but for skipped ones.
  ghost predicate Swept(s0: map<SessionId, Session>, s: map<SessionId, Session>, ids: seq<SessionId>, n: nat,
                        faults: SessionId -> RetryFaults, now: Time, delay: nat -> Time) {
    && n <= |ids|
    && (forall k :: k in s0 ==> k in s && (k !in ids[..n] ==> s[k] == s0[k]))
    && (forall i :: 0 <= i < n ==>
          && ids[i] in s0 && ids[i] in s
          && if faults(ids[i]).Skips() then s[ids[i]] == s0[ids[i]] else Settled(s0[ids[i]], s[ids[i]], now, delay))
    && (forall k :: k in s && k !in s0 ==> s[k].retryAt == None)
  }

  lemma OneSwept(s0: map<SessionId, Session>, s1: map<SessionId, Session>, s2: map<SessionId, Session>,
                 ids: seq<SessionId>, n: nat, faults: SessionId -> RetryFaults, now: Time, delay: nat -> Time)
    requires n < |ids| && ids[n] in s0 && Swept(s0, s1, ids, n, faults, now, delay)
    requires Distinct(ids) && OthersAsBefore(s1, s2, ids[n])
    requires if faults(ids[n]).Skips() then s2[ids[n]] == s1[ids[n]] else Settled(s1[ids[n]], s2[ids[n]], now, delay)
    ensures Swept(s0, s2, ids, n + 1, faults, now, delay)
  {
    assert ids[..n + 1] == ids[..n] + [ids[n]] && ids[n] !in ids[..n];
  }

  // All that is due fits the list, is not skipped, and would wait for its next attempt.
  ghost predicate AllRetriable(sessions: map<SessionId, Session>, faults: SessionId -> RetryFaults, now: Time,
      delay: nat -> Time) {
    && |DueList(sessions, now)| < BATCH
    && forall s :: s in DueList(sessions, now) ==> !faults(s).Skips() && delay(sessions[s].retryCount + 1) > 0
  }

  predicate Waits(sessions: map<SessionId, Session>, s: SessionId, now: Time) {
    s in sessions && sessions[s].retryAt.Some? && sessions[s].retryAt.value <= now
  }

  // Up to 25 sessions that wait, the longest waiting first, and those left out not longer than those listed.
  ghost predicate LongestDue(ids: seq<SessionId>, was: map<SessionId, Session>, now: Time) {
    && |ids| <= 25
    && (forall i :: 0 <= i < |ids| ==> Waits(was, ids[i], now))
    && (forall i, j :: 0 <= i < j < |ids| ==> was[ids[i]].retryAt.value <= was[ids[j]].retryAt.value)
    && (forall s :: s !in ids && Waits(was, s, now) ==>
         |ids| == 25 && forall i :: 0 <= i < |ids| ==> was[ids[i]].retryAt.value <= was[s].retryAt.value)
  }

  lemma DueListWaits(sessions: map<SessionId, Session>, now: Time)
    ensures (set s | s in sessions && Waits(sessions, s, now)) == DueList(sessions, now)
    ensures forall s :: s in DueList(sessions, now) <==> Waits(sessions, s, now)
  {
  }

  lemma LongestDueFirst(ids: seq<SessionId>, was: map<SessionId, Session>, now: Time, created: SessionId -> Time)
    requires Listed(ids, DueList(was, now), ByRetryTime(was, created), BATCH)
    ensures LongestDue(ids, was, now)
  {
    var o := ByRetryTime(was, created);
    forall i, j | 0 <= i < j < |ids| ensures was[ids[i]].retryAt.value <= was[ids[j]].retryAt.value {
      assert Precedes(o, ids[i], ids[j]);
    }
    forall s | s !in ids && Waits(was, s, now)
      ensures |ids| == 25 && forall i :: 0 <= i < |ids| ==> was[ids[i]].retryAt.value <= was[s].retryAt.value {
      assert s in DueList(was, now);
      forall i | 0 <= i < |ids| ensures was[ids[i]].retryAt.value <= was[s].retryAt.value {
        assert Precedes(o, ids[i], s);
      }
    }
  }

  /**
   * The whole tick: the earliest sessions that are due are retried. If all of them were on the list,
   * none was skipped, and the delays of their next attempts are positive, nothing is due afterwards,
   * whatever became of the dispatches.
   */
  method RetryReadySessions(o: Orchestrator, now: Time, created: SessionId -> Time, faults: SessionId -> RetryFaults)
      returns (ids: seq<SessionId>)
    requires o.Valid()
    modifies o, o.store
    ensures o.Valid() && o.store.questions == old(o.store.questions)
    ensures Listed(ids, DueList(old(o.store.sessions), now), ByRetryTime(old(o.store.sessions), created), BATCH)
    ensures Swept(old(o.store.sessions), o.store.sessions, ids, |ids|, faults, now, o.retryDelay)
    ensures AllRetriable(old(o.store.sessions), faults, now, o.retryDelay) ==> DueList(o.store.sessions, now) == {}
    // In terms of times alone: the list holds the longest due, what is not due stays as it was, and nothing due
    // remains if fewer than 25 were due, none is skipped, and each would wait for its next attempt.
    ensures LongestDue(ids, old(o.store.sessions), now)
    ensures forall s :: s in old(o.store.sessions) && !Waits(old(o.store.sessions), s, now) ==>
              s in o.store.sessions && o.store.sessions[s] == old(o.store.sessions)[s]
    ensures var was := old(o.store.sessions);
      && |set s | s in was && Waits(was, s, now)| < 25
      && (forall s :: s in was && Waits(was, s, now) ==>
           !faults(s).noPrompt && !faults(s).claim && o.retryDelay(was[s].retryCount + 1) > 0) ==>
        forall s :: s in o.store.sessions ==> !Waits(o.store.sessions, s, now)
  {
    var s0 := o.store.sessions;
    ids := Take(DueList(s0, now), ByRetryTime(s0, created), BATCH);
    for i := 0 to |ids|
      invariant o.Valid() && o.store.questions == old(o.store.questions)
      invariant Swept(s0, o.store.sessions, ids, i, faults, now, o.retryDelay)
    {
      ghost var s1 := o.store.sessions;
      var _ := RetrySession(o, ids[i], now, faults(ids[i]));
      OneSwept(s0, s1, o.store.sessions, ids, i, faults, now, o.retryDelay);
    }
    ListIsAll(ids, DueList(s0, now), ByRetryTime(s0, created), BATCH);
    DueListWaits(s0, now);
    LongestDueFirst(ids, s0, now, created);
    DueListWaits(o.store.sessions, now);
    NothingDueAfter(s0, o.store.sessions, ids, faults, now, o.retryDelay);
  }

  lemma NothingDueAfter(s0: map<SessionId, Session>, s: map<SessionId, Session>, ids: seq<SessionId>,
                        faults: SessionId -> RetryFaults, now: Time, delay: nat -> Time)
    requires Swept(s0, s, ids, |ids|, faults, now, delay)
    requires |DueList(s0, now)| < BATCH ==> Members(ids) == DueList(s0, now)
    ensures AllRetriable(s0, faults, now, delay) ==> DueList(s, now) == {}
  {
    forall k | k in s && AllRetriable(s0, faults, now, delay) ensures !Due(s[k], now) {
      if k in DueList(s0, now) {
        assert k in Members(ids);
        var i :| 0 <= i < |ids| && ids[i] == k;
      } else if k in s0 {
        assert k !in ids;
      }
    }
  }

  /** The scheduler's own delays are positive at every attempt a session can still make. */
  lemma DelaysArePositive(c: Retry.Config, count: nat)
    requires 0 < c.base <= c.max <= Retry.DURATION_MAX && Retry.Fits(c.base, c.maxAttempts + 1)
        && count <= c.maxAttempts
    ensures Retry.Delay(c, count + 1) > 0
  {
    Retry.DelaysInRangeIff(c.base, c.max, c.maxAttempts + 1, c.overflow);
    assert Retry.InRange(c.base, c.max, count + 1, c.overflow);
  }
}
