/** The ADR list, paged through while agents keep creating records. */
module AdrPages {
  import opened Domain
  import opened Adr
  import opened Keyset

  // ---------------------------------------------------------------------------
  // The records of one project
  // ---------------------------------------------------------------------------

  // In commit order.
  function Of(rows: seq<Row>, p: ProjectId): seq<Row> {
    if rows == [] then []
    else
      var before := Of(rows[..|rows| - 1], p);
      if rows[|rows| - 1].project == p then before + [rows[|rows| - 1]] else before
  }

  /** `all` are the records of project p, numbered 1, 2, ... in this order. */
  ghost predicate Records(rows: seq<Row>, p: ProjectId, all: seq<Row>) {
    && (forall i :: 0 <= i < |all| ==> all[i] in rows && all[i].project == p && all[i].sequence == i + 1)
    && (forall r :: r in rows && r.project == p ==> r in all)
  }

  lemma {:induction false} OfIsNumbered(rows: seq<Row>, p: ProjectId)
    ensures |Of(rows, p)| == |Numbers(rows, p)|
    ensures forall i :: 0 <= i < |Of(rows, p)| ==> Of(rows, p)[i].sequence == Numbers(rows, p)[i]
    ensures forall r :: r in Of(rows, p) <==> r in rows && r.project == p
  {
    if rows != [] {
      OfIsNumbered(rows[..|rows| - 1], p);
      assert rows == rows[..|rows| - 1] + [rows[|rows| - 1]];
    }
  }

  lemma OfIsRecords(rows: seq<Row>, p: ProjectId)
    requires Numbered(rows)
    ensures Records(rows, p, Of(rows, p))
  {
    OfIsNumbered(rows, p);
    assert Counts(Numbers(rows, p));
    assert forall i :: 0 <= i < |Of(rows, p)| ==> Of(rows, p)[i] in Of(rows, p);
  }

  function KeyOf(r: Row): Key {
    Key(r.sequence, r.id, 0)
  }

  function RowOf(p: ProjectId, k: Key): Row {
    Row(if k.b >= 0 then k.b else 0, p, if k.a >= 0 then k.a else 0)
  }

  function KeysOf(s: seq<Row>): seq<Key> {
    seq(|s|, i requires 0 <= i < |s| => KeyOf(s[i]))
  }

  function RowsOf(p: ProjectId, ks: seq<Key>): seq<Row> {
    seq(|ks|, i requires 0 <= i < |ks| => RowOf(p, ks[i]))
  }

  function Keys(rows: seq<Row>, p: ProjectId): set<Key> {
    set r | r in rows && r.project == p :: KeyOf(r)
  }

  // The keyset condition of the second statement.
  predicate AfterCursor(r: Row, cursor: Row) {
    r.sequence > cursor.sequence || (r.sequence == cursor.sequence && r.id > cursor.id)
  }

  function KeysAfter(rows: seq<Row>, p: ProjectId, cursor: Row): set<Key> {
    set r | r in rows && r.project == p && AfterCursor(r, cursor) :: KeyOf(r)
  }

  lemma CursorIsAPosition(rows: seq<Row>, p: ProjectId, cursor: Row)
    ensures KeysAfter(rows, p, cursor) == After(Keys(rows, p), Some(KeyOf(cursor)))
  {
  }

  // ---------------------------------------------------------------------------
  // One call
  // ---------------------------------------------------------------------------

  function Find(rows: seq<Row>, id: AdrId): Option<Row> {
    if rows == [] then None else if rows[0].id == id then Some(rows[0]) else Find(rows[1..], id)
  }

  ghost function Respond(p: ProjectId, page: seq<Key>, limit: int): Response<Row> {
    var items := RowsOf(p, page);
    Items(items, if |items| == limit && |items| > 0 then Some(items[|items| - 1].id) else None)
  }

  ghost function List(rows: seq<Row>, p: ProjectId, limit: int, cursor: Option<AdrId>): Response<Row> {
    match cursor
    case None => Respond(p, Page(Keys(rows, p), None, ListLimit(limit)), limit)
    case Some(id) =>
      match Find(rows, id)
      case None => NotFound
      case Some(row) =>
        if row.project != p then Response.InvalidInput
        else Respond(p, Page(KeysAfter(rows, p, row), None, ListLimit(limit)), limit)
  }

  lemma {:induction false} FindsTheRow(rows: seq<Row>, i: nat)
    requires Distinct(rows) && i < |rows|
    ensures Find(rows, rows[i].id) == Some(rows[i])
  {
    if i > 0 {
      assert rows[0].id != rows[i].id;
      FindsTheRow(rows[1..], i - 1);
    }
  }

  // ---------------------------------------------------------------------------
  // A page of a numbered table
  // ---------------------------------------------------------------------------

  // The cursor of a walk that has met the first s records, and where it stands.
  function CursorAt(all: seq<Row>, s: nat): Option<AdrId>
    requires s <= |all|
  {
    if s == 0 then None else Some(all[s - 1].id)
  }

  function PositionAt(all: seq<Row>, s: nat): Option<Key>
    requires s <= |all|
  {
    if s == 0 then None else Some(KeyOf(all[s - 1]))
  }

  lemma KeysHold(all: seq<Row>, s: nat, k: Key)
    requires s <= |all|
    ensures k in KeysOf(all[s..]) <==> exists i :: s <= i < |all| && k == KeyOf(all[i])
  {
    var keys := KeysOf(all[s..]);
    if k in keys {
      var i :| 0 <= i < |keys| && keys[i] == k;
      assert k == KeyOf(all[s + i]);
    }
    forall i | s <= i < |all| && k == KeyOf(all[i]) ensures k in keys {
      assert keys[i - s] == k;
    }
  }

  // Behind the record numbered s come the records numbered s + 1, s + 2, ...
  lemma BehindIsLater(rows: seq<Row>, p: ProjectId, all: seq<Row>, s: nat, k: Key)
    requires Records(rows, p, all) && s <= |all|
    ensures k in After(Keys(rows, p), PositionAt(all, s)) <==> k in KeysOf(all[s..])
  {
    KeysHold(all, s, k);
    if k in Keys(rows, p) {
      var r: Row :| r in rows && r.project == p && k == KeyOf(r);
      var i :| 0 <= i < |all| && all[i] == r;
      assert k == KeyOf(all[i]);
    }
  }

  lemma OrderIsCommitOrder(rows: seq<Row>, p: ProjectId, all: seq<Row>, s: nat)
    requires Records(rows, p, all) && s <= |all|
    ensures Ordered(After(Keys(rows, p), PositionAt(all, s))) == KeysOf(all[s..])
  {
    forall i, j | 0 <= i < j < |all| - s ensures Ascends(KeysOf(all[s..]), i, j) {
      assert all[s + i].sequence < all[s + j].sequence;
    }
    forall k ensures k in Ordered(After(Keys(rows, p), PositionAt(all, s))) <==> k in KeysOf(all[s..]) {
      BehindIsLater(rows, p, all, s, k);
    }
    OrderIsUnique(Ordered(After(Keys(rows, p), PositionAt(all, s))), KeysOf(all[s..]));
  }

  lemma RowsBack(p: ProjectId, s: seq<Row>)
    requires forall i :: 0 <= i < |s| ==> s[i].project == p
    ensures RowsOf(p, KeysOf(s)) == s
  {
  }

  lemma PageAt(rows: seq<Row>, p: ProjectId, all: seq<Row>, limit: nat, s: nat)
    requires Records(rows, p, all) && s <= |all|
    ensures Page(Keys(rows, p), PositionAt(all, s), limit) == KeysOf(all[s..Least(s + limit, |all|)])
  {
    OrderIsCommitOrder(rows, p, all, s);
    OrderedLength(After(Keys(rows, p), PositionAt(all, s)), KeysOf(all[s..]));
    if limit < |all| - s {
      assert KeysOf(all[s..])[..limit] == KeysOf(all[s..s + limit]);
    } else {
      assert all[s..] == all[s..|all|];
    }
  }

  lemma ListFromPosition(rows: seq<Row>, p: ProjectId, all: seq<Row>, limit: int, s: nat)
    requires Distinct(rows) && Records(rows, p, all) && GoodLimit(limit) && s <= |all|
    ensures List(rows, p, limit, CursorAt(all, s)) == Respond(p, Page(Keys(rows, p), PositionAt(all, s), limit), limit)
  {
    if s > 0 {
      var last := all[s - 1];
      var i :| 0 <= i < |rows| && rows[i] == last;
      FindsTheRow(rows, i);
      CursorIsAPosition(rows, p, last);
      PageOfRest(Keys(rows, p), Some(KeyOf(last)), limit);
    }
  }

  lemma RespondIs(p: ProjectId, items: seq<Row>, limit: int)
    requires forall i :: 0 <= i < |items| ==> items[i].project == p
    ensures Respond(p, KeysOf(items), limit).items == items
    ensures Respond(p, KeysOf(items), limit).next == if |items| == limit && |items| > 0
        then Some(items[|items| - 1].id) else None
  {
    RowsBack(p, items);
  }

  /** After the first s records a page holds the next ones... */
  lemma PageHoldsNext(rows: seq<Row>, p: ProjectId, all: seq<Row>, limit: int, s: nat)
    requires Distinct(rows) && Records(rows, p, all) && GoodLimit(limit) && s <= |all|
    ensures List(rows, p, limit, CursorAt(all, s)).Items?
    ensures List(rows, p, limit, CursorAt(all, s)).items == all[s..Least(s + limit, |all|)]
  {
    PageAt(rows, p, all, limit, s);
    ListFromPosition(rows, p, all, limit, s);
    RespondIs(p, all[s..Least(s + limit, |all|)], limit);
  }

  /** ... and points at its last record if it is full. */
  lemma FullPagePoints(rows: seq<Row>, p: ProjectId, all: seq<Row>, limit: int, s: nat)
    requires Distinct(rows) && Records(rows, p, all) && GoodLimit(limit) && s <= |all|
    requires List(rows, p, limit, CursorAt(all, s)).Items?
    ensures List(rows, p, limit, CursorAt(all, s)).next == if s + limit <= |all| then CursorAt(all, s + limit) else None
  {
    var page := all[s..Least(s + limit, |all|)];
    PageAt(rows, p, all, limit, s);
    ListFromPosition(rows, p, all, limit, s);
    RespondIs(p, page, limit);
    if s + limit <= |all| {
      assert |page| == limit && page[limit - 1] == all[s + limit - 1];
    }
  }

  // ---------------------------------------------------------------------------
  // Walks over a growing table
  // ---------------------------------------------------------------------------

  ghost function Follow(tables: seq<seq<Row>>, p: ProjectId, limit: int, cursor: Option<AdrId>): Walk<Row> {
    if tables == [] then Unfinished
    else
      match List(tables[0], p, limit, cursor)
      case Items(items, None) => Finished(items)
      case Items(items, Some(next)) =>
        (match Follow(tables[1..], p, limit, Some(next))
         case Finished(rest) => Finished(items + rest)
         case w => w)
      case _ => Refused
  }

  lemma {:induction false} OfPrefix(rows: seq<Row>, n: nat, p: ProjectId)
    requires n <= |rows|
    ensures Of(rows[..n], p) <= Of(rows, p)
  {
    if n < |rows| {
      OfPrefix(rows[..|rows| - 1], n, p);
      assert rows[..|rows| - 1][..n] == rows[..n];
    } else {
      assert rows[..n] == rows;
    }
  }

  // Tables of successive moments, and the records of one project in each: rows are only ever added.
  ghost predicate Growing(tables: seq<seq<Row>>, p: ProjectId, alls: seq<seq<Row>>) {
    && |tables| == |alls|
    && (forall i {:trigger MomentOk(tables, p, alls, i)} :: 0 <= i < |tables| ==> MomentOk(tables, p, alls, i))
    && (forall i, j {:trigger Grew(alls, i, j)} :: 0 <= i <= j < |alls| ==> Grew(alls, i, j))
  }

  ghost predicate MomentOk(tables: seq<seq<Row>>, p: ProjectId, alls: seq<seq<Row>>, i: nat)
    requires i < |tables| == |alls|
  {
    Distinct(tables[i]) && Records(tables[i], p, alls[i])
  }

  predicate Grew(alls: seq<seq<Row>>, i: nat, j: nat)
    requires i <= j < |alls|
  {
    alls[i] <= alls[j]
  }

  lemma LaterMoments(tables: seq<seq<Row>>, p: ProjectId, alls: seq<seq<Row>>)
    requires tables != [] && Growing(tables, p, alls)
    ensures Growing(tables[1..], p, alls[1..])
  {
    forall i | 0 <= i < |tables[1..]| ensures MomentOk(tables[1..], p, alls[1..], i) {
      assert MomentOk(tables, p, alls, i + 1);
    }
    forall i, j | 0 <= i <= j < |alls[1..]| ensures Grew(alls[1..], i, j) {
      assert Grew(alls, i + 1, j + 1);
    }
  }

  lemma Splice(x: seq<Row>, y: seq<Row>, s: nat, m: nat)
    requires x <= y && s <= m <= |x|
    ensures y[s..] == x[s..m] + y[m..] && CursorAt(x, m) == CursorAt(y, m)
  {
  }

  // A walk that had met the first s records before adds the others.
  predicate MeetsRest(w: Walk<Row>, all: seq<Row>, s: nat) {
    match w
    case Finished(items) => s <= |all| && items == all[s..]
    case Unfinished => true
    case Refused => false
  }

  lemma EndsHere(tables: seq<seq<Row>>, p: ProjectId, all: seq<Row>, limit: int, s: nat)
    requires tables != [] && Distinct(tables[0]) && Records(tables[0], p, all) && GoodLimit(limit)
        && s <= |all| < s + limit
    ensures MeetsRest(Follow(tables, p, limit, CursorAt(all, s)), all, s)
    ensures Follow(tables, p, limit, CursorAt(all, s)).Finished?
  {
    PageHoldsNext(tables[0], p, all, limit, s);
    FullPagePoints(tables[0], p, all, limit, s);
    assert all[s..|all|] == all[s..];
  }

  lemma GoesOn(tables: seq<seq<Row>>, p: ProjectId, all: seq<Row>, later: seq<Row>, limit: int, s: nat)
    requires tables != [] && Distinct(tables[0]) && Records(tables[0], p, all) && GoodLimit(limit) && s + limit <= |all|
    requires all <= later && MeetsRest(Follow(tables[1..], p, limit, CursorAt(all, s + limit)), later, s + limit)
    ensures MeetsRest(Follow(tables, p, limit, CursorAt(all, s)), later, s)
    ensures Follow(tables[1..], p, limit, CursorAt(all, s + limit)).Finished? ==>
              Follow(tables, p, limit, CursorAt(all, s)).Finished?
  {
    PageHoldsNext(tables[0], p, all, limit, s);
    FullPagePoints(tables[0], p, all, limit, s);
    Splice(all, later, s, s + limit);
  }

  // A page, and then what the walk from the next moment on comes to.
  lemma OnePageOn(tables: seq<seq<Row>>, p: ProjectId, alls: seq<seq<Row>>, limit: int, s: nat, j: nat)
    requires |tables| > 1 && Growing(tables, p, alls) && GoodLimit(limit) && 0 < j < |alls|
    requires s + limit <= |alls[0]| <= |alls[1]|
    requires Follow(tables[1..], p, limit, CursorAt(alls[1], s + limit)).Finished?
        || |tables| - 1 <= |alls[|alls| - 1]| - s - limit
    requires MeetsRest(Follow(tables[1..], p, limit, CursorAt(alls[1], s + limit)), alls[j], s + limit)
    ensures MeetsRest(Follow(tables, p, limit, CursorAt(alls[0], s)), alls[j], s)
    ensures Follow(tables, p, limit, CursorAt(alls[0], s)).Finished? || |tables| <= |alls[|alls| - 1]| - s
  {
    assert MomentOk(tables, p, alls, 0) && Grew(alls, 0, 1) && Grew(alls, 0, j);
    Splice(alls[0], alls[1], s, s + limit);
    GoesOn(tables, p, alls[0], alls[j], limit, s);
  }

  // A walk is never refused, and ends with all records of some later moment.
  lemma {:induction false} WalkFrom(tables: seq<seq<Row>>, p: ProjectId, alls: seq<seq<Row>>, limit: int, s: nat)
      returns (j: nat)
    requires tables != [] && Growing(tables, p, alls) && GoodLimit(limit) && s <= |alls[0]|
    ensures j < |alls| && MeetsRest(Follow(tables, p, limit, CursorAt(alls[0], s)), alls[j], s)
    ensures |tables| > |alls[|alls| - 1]| - s ==> Follow(tables, p, limit, CursorAt(alls[0], s)).Finished?
  {
    assert MomentOk(tables, p, alls, 0) && Grew(alls, 0, |alls| - 1);
    j := 0;
    if s + limit > |alls[0]| {
      EndsHere(tables, p, alls[0], limit, s);
    } else if |tables| == 1 {
      GoesOn(tables, p, alls[0], alls[0], limit, s);
    } else {
      assert Grew(alls, 0, 1);
      LaterMoments(tables, p, alls);
      var k := WalkFrom(tables[1..], p, alls[1..], limit, s + limit);
      OnePageOn(tables, p, alls, limit, s, k + 1);
      j := k + 1;
    }
  }

  // The tables from which the pages of a walk are served, at moments of a run of the creating transactions.
  function Moments(ss: seq<State>, times: seq<nat>): seq<seq<Row>>
    requires forall i :: 0 <= i < |times| ==> times[i] < |ss|
  {
    seq(|times|, i requires 0 <= i < |times| => ss[times[i]].rows)
  }

  predicate InTime(times: seq<nat>, bound: nat) {
    && (forall i :: 0 <= i < |times| ==> times[i] < bound)
    && (forall i, j :: 0 <= i <= j < |times| ==> times[i] <= times[j])
  }

  lemma MomentsGrow(ss: seq<State>, times: seq<nat>, p: ProjectId, alls: seq<seq<Row>>)
    requires Behaviour(DEPLOYED, ss) && InTime(times, |ss|)
    requires |alls| == |times| && forall i :: 0 <= i < |times| ==> alls[i] == Of(ss[times[i]].rows, p)
    ensures Growing(Moments(ss, times), p, alls)
  {
    var tables := Moments(ss, times);
    forall i | 0 <= i < |tables| ensures MomentOk(tables, p, alls, i) {
      GapFree(ss, times[i]);
      OfIsRecords(tables[i], p);
    }
    forall i, j | 0 <= i <= j < |alls| ensures Grew(alls, i, j) {
      RowsGrow(DEPLOYED, ss, times[i], times[j]);
      assert tables[i] == tables[j][..|tables[i]|];
      OfPrefix(tables[j], |tables[i]|, p);
    }
  }

  /**
   * A walk through a project's records while any number of transactions create more is never refused,
   * and when it finishes it has met the numbers 1, 2, ..., k in order, with k at least the count when
   * it began. It finishes within one page more than there are records.
   */
  lemma WalkDuringCreation(ss: seq<State>, times: seq<nat>, p: ProjectId, limit: int)
    requires Behaviour(DEPLOYED, ss) && times != [] && InTime(times, |ss|) && GoodLimit(limit)
    ensures match Follow(Moments(ss, times), p, limit, None)
            case Finished(items) =>
              && |items| >= |Numbers(ss[times[0]].rows, p)|
              && (exists j :: 0 <= j < |times| && items == Of(ss[times[j]].rows, p))
              && forall i :: 0 <= i < |items| ==> items[i].project == p && items[i].sequence == i + 1
            case Unfinished => |times| <= |Numbers(ss[times[|times| - 1]].rows, p)|
            case Refused => false
  {
    var alls := seq(|times|, i requires 0 <= i < |times| => Of(ss[times[i]].rows, p));
    MomentsGrow(ss, times, p, alls);
    var j := WalkFrom(Moments(ss, times), p, alls, limit, 0);
    assert MomentOk(Moments(ss, times), p, alls, j) && Grew(alls, 0, j);
    OfIsNumbered(ss[times[0]].rows, p);
    OfIsNumbered(ss[times[|times| - 1]].rows, p);
    assert alls[j][0..] == alls[j] == Of(ss[times[j]].rows, p);
  }
}
