/** The lists a sweep works through: matching rows, ordered by time, cut off at a limit. */
module Worklist {
  import opened Domain

  // Ascending times, with NULLs last.
  predicate Earlier(a: Option<Time>, b: Option<Time>) {
    a.Some? && (b.None? || a.value < b.value)
  }

  // What a list is ordered by; ids decide in the end.
  datatype Order = Order(at: Id -> Option<Time>, created: Id -> Time)

  predicate Precedes(o: Order, a: Id, b: Id) {
    || Earlier(o.at(a), o.at(b))
    || (o.at(a) == o.at(b) && (o.created(a) < o.created(b) || (o.created(a) == o.created(b) && a < b)))
  }

  predicate Distinct(ids: seq<Id>) {
    forall i, j :: 0 <= i < j < |ids| ==> ids[i] != ids[j]
  }

  /**
   * ORDER BY ... LIMIT: matching rows in order, as many as the limit allows, with every row that was left out
   * behind them.
   */
  ghost predicate Listed(ids: seq<Id>, matching: set<Id>, o: Order, limit: nat) {
    && (forall i :: 0 <= i < |ids| ==> ids[i] in matching)
    && Distinct(ids)
    && (forall i, j :: 0 <= i < j < |ids| ==> Precedes(o, ids[i], ids[j]))
    && |ids| == Least(|matching|, limit)
    && (|ids| < limit ==> forall id :: id in matching ==> id in ids)
    && (forall i, id :: 0 <= i < |ids| && id in matching && id !in ids ==> Precedes(o, ids[i], id))
  }

  predicate First(rest: set<Id>, o: Order, id: Id) {
    id in rest && forall x :: x in rest && x != id ==> Precedes(o, id, x)
  }

  lemma {:induction false} FirstExists(rest: set<Id>, o: Order)
    requires rest != {}
    ensures exists id :: First(rest, o, id)
  {
    var x :| x in rest;
    if rest == {x} {
      assert First(rest, o, x);
    } else {
      FirstExists(rest - {x}, o);
      var y :| First(rest - {x}, o, y);
      var first := if Precedes(o, x, y) then x else y;
      forall z | z in rest && z != first ensures Precedes(o, first, z) {
        assert z == x || z == y || Precedes(o, y, z);
      }
      assert First(rest, o, first);
    }
  }

  method Take(matching: set<Id>, o: Order, limit: nat) returns (ids: seq<Id>)
    ensures Listed(ids, matching, o, limit)
  {
    ids := [];
    var rest := matching;
    while rest != {} && |ids| < limit
      invariant rest <= matching
      invariant forall i :: 0 <= i < |ids| ==> ids[i] in matching && ids[i] !in rest
      invariant forall i, j :: 0 <= i < j < |ids| ==> ids[i] != ids[j] && Precedes(o, ids[i], ids[j])
      invariant forall i, id :: 0 <= i < |ids| && id in rest ==> Precedes(o, ids[i], id)
      invariant forall id :: id in matching ==> id in rest || id in ids
      invariant |ids| <= limit && |ids| + |rest| == |matching|
    {
      FirstExists(rest, o);
      var id :| id in rest && First(rest, o, id);
      ids := ids + [id];
      rest := rest - {id};
    }
  }

  // The earlier of two rows, said by its parts: NULLs last, then the older row, then the smaller id.
  predicate NotBehind(o: Order, a: Id, b: Id) {
    && (o.at(a).None? ==> o.at(b).None?)
    && (o.at(a).Some? && o.at(b).Some? ==> o.at(a).value <= o.at(b).value)
    && (o.at(a) == o.at(b) ==> o.created(a) <= o.created(b))
    && (o.at(a) == o.at(b) && o.created(a) == o.created(b) ==> a <= b)
  }

  /** The soonest first, among them the oldest; and what is left out is behind what is listed. */
  lemma SoonestFirst(ids: seq<Id>, matching: set<Id>, o: Order, limit: nat)
    requires Listed(ids, matching, o, limit)
    ensures forall i, j :: 0 <= i < j < |ids| ==> NotBehind(o, ids[i], ids[j])
    ensures forall id :: id in matching && id !in ids ==>
              |ids| == limit && forall i :: 0 <= i < |ids| ==> NotBehind(o, ids[i], id)
  {
    forall i, j | 0 <= i < j < |ids| ensures NotBehind(o, ids[i], ids[j]) {
      assert Precedes(o, ids[i], ids[j]);
    }
    forall id | id in matching && id !in ids
      ensures |ids| == limit && forall i :: 0 <= i < |ids| ==> NotBehind(o, ids[i], id) {
      forall i | 0 <= i < |ids| ensures NotBehind(o, ids[i], id) {
        assert Precedes(o, ids[i], id);
      }
    }
  }

  // ---------------------------------------------------------------------------
  // What a list tells about its rows
  // ---------------------------------------------------------------------------

  function Members(ids: seq<Id>): set<Id> {
    set id | id in ids
  }

  lemma {:induction false} MembersCount(ids: seq<Id>)
    requires Distinct(ids)
    ensures |Members(ids)| == |ids|
  {
    if ids != [] {
      var most, last := ids[..|ids| - 1], ids[|ids| - 1];
      MembersCount(most);
      assert ids == most + [last];
      assert last !in most;
      assert Members(ids) == Members(most) + {last};
    }
  }

  lemma {:induction false} SubsetSize(a: set<Id>, b: set<Id>)
    requires a <= b
    ensures |a| <= |b|
  {
    if x :| x in a {
      SubsetSize(a - {x}, b - {x});
    }
  }

  // The list holds the whole of a set, unless it is full.
  lemma ListIsAll(ids: seq<Id>, matching: set<Id>, o: Order, limit: nat)
    requires Listed(ids, matching, o, limit)
    ensures |ids| < limit <==> |matching| < limit
    ensures |ids| < limit ==> Members(ids) == matching
  {
  }

  /** Whatever precedes a listed row is listed, so fewer rows precede it than fit the list. */
  lemma FewPrecede(ids: seq<Id>, matching: set<Id>, o: Order, limit: nat, id: Id, ahead: set<Id>)
    requires Listed(ids, matching, o, limit) && id in ids
    requires forall x :: x in ahead ==> x in matching && Precedes(o, x, id)
    ensures |ahead| < limit
  {
    var i :| 0 <= i < |ids| && ids[i] == id;
    forall x | x in ahead ensures x in ids && x != id {
      assert x !in ids ==> Precedes(o, ids[i], x);
    }
    assert ahead + {id} <= Members(ids);
    SubsetSize(ahead + {id}, Members(ids));
    MembersCount(ids);
  }

  /** If a matching row is left out, the list is full of rows that precede it. */
  lemma LeftOutIsLate(ids: seq<Id>, matching: set<Id>, o: Order, limit: nat, id: Id)
    requires Listed(ids, matching, o, limit) && id in matching && id !in ids
    ensures |Members(ids)| == limit && forall x :: x in ids ==> x in matching && Precedes(o, x, id)
  {
    MembersCount(ids);
  }
}
