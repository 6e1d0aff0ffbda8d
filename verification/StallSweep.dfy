/** One check of the stall detector: every tracked session that was silent for too long is given up. */
module StallSweep {
  import opened Domain
  import opened Questions
  import opened Postgres
  import opened Orchestrator

  function Stalled(registered: map<SessionId, Tracked>, lastEventAt: SessionId -> Time, now: Time,
      timeout: Time): set<SessionId> {
    set s | s in registered && now - lastEventAt(s) > timeout
  }

  // What a stall makes of a session's row: a running one fails, a waiting one stays as it is.
  function GivenUp(row: Session, fault: bool): Session {
    if row.status == SessionStatus.Running && !fault then row.(status := SessionStatus.Failed) else row
  }

  // Exactly the sessions that are done with are gone, and nobody else's rows and questions have changed.
  ghost predicate OnlyThese(done: set<SessionId>, f: SessionId -> EndFaults,
                            r0: map<SessionId, Tracked>, s0: map<SessionId, Session>, q0: Table,
                            r: map<SessionId, Tracked>, s: map<SessionId, Session>, q: Table) {
    && r == r0 - done && s.Keys == s0.Keys && WithdrawnFor(q0, q, done, f)
    && forall k :: k in s0 ==> s[k] == if k in done then GivenUp(s0[k], f(k).status) else s0[k]
  }

  lemma OneGivenUp(done: set<SessionId>, k: SessionId, f: SessionId -> EndFaults,
                   r0: map<SessionId, Tracked>, s0: map<SessionId, Session>, q0: Table,
                   r: map<SessionId, Tracked>, s: map<SessionId, Session>, q: Table)
    requires OnlyThese(done, f, r0, s0, q0, r, s, q) && k in s && k !in done
    ensures OnlyThese(done + {k}, f, r0, s0, q0, r - {k}, s[k := GivenUp(s[k], f(k).status)],
        Cleared(q, k, f(k).questions))
  {
    assert r0 - done - {k} == r0 - (done + {k});
    OneMoreWithdrawn(q0, q, done, f, k);
  }

  // The sessions done with so far, against the state the check found.
  ghost predicate Done(done: set<SessionId>, f: SessionId -> EndFaults, o: Orchestrator,
                       r0: map<SessionId, Tracked>, s0: map<SessionId, Session>, q0: Table, t0: map<TaskId, TaskStatus>)
    reads o, o.store
  {
    && OnlyThese(done, f, r0, s0, q0, o.registered, o.store.sessions, o.store.questions)
    && TasksFreed(done, f, r0, t0, o.store.tasks)
  }

  method GiveUp(o: Orchestrator, s: SessionId, f: SessionId -> EndFaults, ghost done: set<SessionId>,
                ghost r0: map<SessionId, Tracked>, ghost s0: map<SessionId, Session>, ghost q0: Table,
                ghost t0: map<TaskId, TaskStatus>)
    requires o.Valid() && Done(done, f, o, r0, s0, q0, t0) && s in r0 && s !in done
    modifies o`registered, o`disposed, o`threads, o.store`tasks, o.store`sessions, o.store`questions
    ensures o.Valid() && Done(done + {s}, f, o, r0, s0, q0, t0)
  {
    OneGivenUp(done, s, f, r0, s0, q0, o.registered, o.store.sessions, o.store.questions);
    OneFreed(done, s, f, r0, t0, o.store.tasks);
    o.HandleStall(s, f(s));
    assert o.store.sessions == old(o.store.sessions)[s := GivenUp(old(o.store.sessions)[s], f(s).status)];
  }

  /** Who is stalled is decided once, before anybody is given up. */
  method CheckStalledSessions(o: Orchestrator, lastEventAt: SessionId -> Time, now: Time, timeout: Time,
      f: SessionId -> EndFaults)
    requires o.Valid()
    modifies o`registered, o`disposed, o`threads, o.store`tasks, o.store`sessions, o.store`questions
    ensures o.Valid()
    ensures OnlyThese(Stalled(old(o.registered), lastEventAt, now, timeout), f,
                      old(o.registered), old(o.store.sessions), old(o.store.questions),
                      o.registered, o.store.sessions, o.store.questions)
    ensures TasksFreed(Stalled(old(o.registered), lastEventAt, now, timeout), f, old(o.registered), old(o.store.tasks),
        o.store.tasks)
    // In terms of times alone: tracked stay those, and keep row and questions, that were heard of in time.
    ensures forall s :: s in o.registered <==> s in old(o.registered) && now - lastEventAt(s) <= timeout
    ensures forall s :: s in old(o.store.sessions) && (s in old(o.registered) ==> now - lastEventAt(s) <= timeout) ==>
              s in o.store.sessions && o.store.sessions[s] == old(o.store.sessions)[s]
    ensures forall s :: s in old(o.registered) && now - lastEventAt(s) > timeout && !f(s).status ==>
              s in o.store.sessions && s in old(o.store.sessions) && o.store.sessions[s].status ==
                if old(o.store.sessions)[s].status == SessionStatus.Running
                then SessionStatus.Failed else old(o.store.sessions)[s].status
    ensures forall id :: id in old(o.store.questions) ==>
              var q := old(o.store.questions)[id];
              id in o.store.questions && o.store.questions[id] ==
                if q.session in old(o.registered) && now - lastEventAt(q.session) > timeout
                   && !f(q.session).questions && (q.status == Open || q.status == Escalated)
                then q.(status := Withdrawn) else q
  {
    var stalled := Stalled(o.registered, lastEventAt, now, timeout);
    ghost var r0, s0, q0, t0 := o.registered, o.store.sessions, o.store.questions, o.store.tasks;
    var todo := stalled;
    while todo != {}
      invariant o.Valid() && todo <= stalled && Done(stalled - todo, f, o, r0, s0, q0, t0)
    {
      var s :| s in todo;
      GiveUp(o, s, f, stalled - todo, r0, s0, q0, t0);
      assert stalled - (todo - {s}) == (stalled - todo) + {s};
      todo := todo - {s};
    }
    assert stalled - todo == stalled;
  }
}
