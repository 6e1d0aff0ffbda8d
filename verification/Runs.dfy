/** Runs of a state machine: a start, and a step function that says which event leads where. */
module Runs {
  import opened Domain

  ghost predicate Next<S(!new), E(!new)>(step: (S, E) -> Option<S>, s: S, s': S) {
    exists e :: step(s, e) == Some(s')
  }

  ghost predicate StepAt<S(!new), E(!new)>(step: (S, E) -> Option<S>, ss: seq<S>, i: nat)
    requires 0 < i < |ss|
  {
    Next(step, ss[i - 1], ss[i])
  }

  /** The states of one run, each reached from the one before by one event. */
  ghost predicate Behaviour<S(!new), E(!new)>(start: S, step: (S, E) -> Option<S>, ss: seq<S>) {
    && |ss| > 0 && ss[0] == start
    && forall i {:trigger StepAt(step, ss, i)} :: 0 < i < |ss| ==> StepAt(step, ss, i)
  }

  ghost predicate Ends<S(!new), E(!new)>(start: S, step: (S, E) -> Option<S>, ss: seq<S>, s: S) {
    Behaviour(start, step, ss) && ss[|ss| - 1] == s
  }

  ghost predicate Reachable<S(!new), E(!new)>(start: S, step: (S, E) -> Option<S>, s: S) {
    exists ss :: Ends(start, step, ss, s)
  }

  lemma StartIsReachable<S(!new), E(!new)>(start: S, step: (S, E) -> Option<S>)
    ensures Reachable(start, step, start)
  {
    assert Ends(start, step, [start], start);
  }

  /** One event more. */
  lemma Extend<S(!new), E(!new)>(start: S, step: (S, E) -> Option<S>, s: S, e: E, s': S)
    requires Reachable(start, step, s) && step(s, e).Some? && step(s, e).value == s'
    ensures Reachable(start, step, s')
  {
    var ss :| Ends(start, step, ss, s);
    var more := ss + [s'];
    assert Next(step, s, s');
    forall i | 0 < i < |more| ensures StepAt(step, more, i) {
      assert i < |ss| ==> StepAt(step, ss, i);
    }
    assert Ends(start, step, more, s');
  }

  /** The event that led to a state of a run. */
  lemma EventAt<S(!new), E(!new)>(start: S, step: (S, E) -> Option<S>, ss: seq<S>, i: nat) returns (e: E)
    requires Behaviour(start, step, ss) && 0 < i < |ss|
    ensures step(ss[i - 1], e) == Some(ss[i])
  {
    assert StepAt(step, ss, i);
    e :| step(ss[i - 1], e) == Some(ss[i]);
  }

  /** Every state of a run is reachable. */
  lemma PassedIsReachable<S(!new), E(!new)>(start: S, step: (S, E) -> Option<S>, ss: seq<S>, i: nat)
    requires Behaviour(start, step, ss) && i < |ss|
    ensures Reachable(start, step, ss[i])
  {
    var some := ss[..i + 1];
    forall k | 0 < k < |some| ensures StepAt(step, some, k) {
      assert StepAt(step, ss, k);
    }
    assert Ends(start, step, some, ss[i]);
  }

  // The machine with some of its events held back in some of its states.
  function Under<S, E>(step: (S, E) -> Option<S>, guard: (S, E) -> bool): (S, E) -> Option<S> {
    (s, e) => if guard(s, e) then step(s, e) else None
  }

  ghost predicate Above(b: Id, ids: set<Id>) {
    forall id :: id in ids ==> id < b
  }

  lemma {:induction false} BoundExists(ids: set<Id>)
    ensures exists b :: Above(b, ids)
  {
    if ids == {} {
      assert Above(0, ids);
    } else {
      var x :| x in ids;
      BoundExists(ids - {x});
      var b :| Above(b, ids - {x});
      var c := if b <= x then x + 1 else b;
      forall id | id in ids ensures id < c {
        assert id == x || id in ids - {x};
      }
      assert Above(c, ids);
    }
  }

  /** There is always an id that was not used yet. */
  lemma FreshId(ids: set<Id>) returns (id: Id)
    ensures id !in ids
  {
    BoundExists(ids);
    id :| Above(id, ids);
  }
}
