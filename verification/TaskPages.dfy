/** The task list: its queries, its cursor checks, and walks along next_cursor over tables that change. */
module TaskPages {
  import opened Domain
  import opened Keyset

  datatype Task = Task(project: ProjectId, status: TaskStatus, priority: nat, createdAt: Time)

  type Table = map<TaskId, Task>

  datatype Filter = Filter(status: Option<TaskStatus>, priority: Option<nat>)

  // What a list call asks for; the cursor apart.
  datatype Query = Query(project: ProjectId, filter: Filter, limit: int)

  // ---------------------------------------------------------------------------
  // The two statements
  // ---------------------------------------------------------------------------

  predicate MatchesFilter(t: Task, f: Filter) {
    && (f.status.Some? ==> t.status == f.status.value)
    && (f.priority.Some? ==> t.priority == f.priority.value)
  }

  predicate Selects(t: Task, q: Query) {
    t.project == q.project && MatchesFilter(t, q.filter)
  }

  // The keyset condition of the second statement.
  predicate AfterCursor(id: TaskId, t: Task, cursorId: TaskId, cursor: Task) {
    || t.priority > cursor.priority
    || (t.priority == cursor.priority && t.createdAt < cursor.createdAt)
    || (t.priority == cursor.priority && t.createdAt == cursor.createdAt && id < cursorId)
  }

  // priority ASC, created_at DESC, id DESC
  function KeyOf(id: TaskId, t: Task): Key {
    Key(t.priority, -t.createdAt, -(id as int))
  }

  lemma KeyTellsId(id: TaskId, t: Task, id': TaskId, t': Task)
    requires KeyOf(id, t) == KeyOf(id', t')
    ensures id == id'
  {
    assert KeyOf(id, t).c == -(id as int) && KeyOf(id', t').c == -(id' as int);
  }

  function IdOf(k: Key): TaskId {
    if k.c <= 0 then -k.c else 0
  }

  lemma IdOfKey(id: TaskId, t: Task)
    ensures IdOf(KeyOf(id, t)) == id
  {
  }

  function Ids(keys: seq<Key>): seq<TaskId> {
    seq(|keys|, i requires 0 <= i < |keys| => IdOf(keys[i]))
  }

  function Keys(table: Table, q: Query): set<Key> {
    set id | id in table && Selects(table[id], q) :: KeyOf(id, table[id])
  }

  function KeysAfter(table: Table, q: Query, cursorId: TaskId, cursor: Task): set<Key> {
    set id | id in table && Selects(table[id], q) && AfterCursor(id, table[id], cursorId, cursor) ::
      KeyOf(id, table[id])
  }

  // ---------------------------------------------------------------------------
  // One call
  // ---------------------------------------------------------------------------

  // A page as long as the limit that was asked for hands out its last row as the cursor.
  function NextCursor(items: seq<TaskId>, limit: int): Option<TaskId> {
    if |items| == limit && |items| > 0 then Some(items[|items| - 1]) else None
  }

  ghost function Respond(page: seq<Key>, limit: int): Response<TaskId> {
    Items(Ids(page), NextCursor(Ids(page), limit))
  }

  ghost function List(table: Table, q: Query, cursor: Option<TaskId>): Response<TaskId> {
    match cursor
    case None => Respond(Page(Keys(table, q), None, ListLimit(q.limit)), q.limit)
    case Some(id) =>
      if id !in table then NotFound
      else if !Selects(table[id], q) then InvalidInput
      else Respond(Page(KeysAfter(table, q, id, table[id]), None, ListLimit(q.limit)), q.limit)
  }

  // What a statement returns, row by row.
  method SelectPage(ks: set<Key>, n: nat) returns (page: seq<Key>)
    ensures page == Page(ks, None, n)
  {
    page := [];
    var rest := ks;
    while rest != {} && |page| < n
      invariant rest <= ks && |page| <= n && Increasing(page)
      invariant forall k :: k in ks <==> k in page || k in rest
      invariant forall i, k :: 0 <= i < |page| && k in rest ==> Less(page[i], k)
    {
      LeastExists(rest);
      var k :| k in rest && IsLeast(rest, k);
      ghost var before := page;
      page := page + [k];
      rest := rest - {k};
      forall i, j | 0 <= i < j < |page| ensures Ascends(page, i, j) {
        assert j < |before| ==> Ascends(before, i, j);
      }
    }
    PrefixIsPage(ks, page, rest, n);
  }

  // An increasing sequence with everything else behind it is the page, if it is full or nothing else is left.
  lemma PrefixIsPage(ks: set<Key>, page: seq<Key>, rest: set<Key>, n: nat)
    requires Increasing(page) && |page| <= n && (|page| == n || rest == {})
    requires forall k :: k in ks <==> k in page || k in rest
    requires forall i, k :: 0 <= i < |page| && k in rest ==> Less(page[i], k)
    ensures page == Page(ks, None, n)
  {
    var tail, all := Ordered(rest), page + Ordered(rest);
    forall i, j | 0 <= i < j < |all| ensures Ascends(all, i, j) {
      if j < |page| {
        assert Ascends(page, i, j);
      } else if i < |page| {
        assert tail[j - |page|] in rest;
      } else {
        assert Ascends(tail, i - |page|, j - |page|);
      }
    }
    assert After(ks, None) == ks;
    OrderIsUnique(all, Ordered(ks));
    OrderedLength(ks, all);
    OrderedLength(rest, tail);
    assert all[..|page|] == page;
  }

  /** The statement with a cursor asks for the keys beyond the cursor's. */
  lemma CursorIsAPosition(table: Table, q: Query, cursorId: TaskId, cursor: Task)
    ensures KeysAfter(table, q, cursorId, cursor) == After(Keys(table, q), Some(KeyOf(cursorId, cursor)))
  {
    forall k ensures k in KeysAfter(table, q, cursorId, cursor) <==>
      k in After(Keys(table, q), Some(KeyOf(cursorId, cursor))) {
      if k in Keys(table, q) {
        var id: TaskId :| id in table && Selects(table[id], q) && k == KeyOf(id, table[id]);
        assert AfterCursor(id, table[id], cursorId, cursor) <==> Less(KeyOf(cursorId, cursor), k);
        if k in KeysAfter(table, q, cursorId, cursor) {
          var id': TaskId :| id' in table && AfterCursor(id', table[id'], cursorId, cursor)
            && k == KeyOf(id', table[id']);
          KeyTellsId(id, table[id], id', table[id']);
        }
      }
    }
  }

  // A page from a position.
  ghost function Served(table: Table, q: Query, pos: Option<Key>): seq<Key> {
    Page(Keys(table, q), pos, ListLimit(q.limit))
  }

  // Where the cursor stands in the table.
  function Position(table: Table, cursor: Option<TaskId>): Option<Key> {
    if cursor.Some? && cursor.value in table then Some(KeyOf(cursor.value, table[cursor.value])) else None
  }

  lemma ListServes(table: Table, q: Query, cursor: Option<TaskId>)
    requires List(table, q, cursor).Items?
    ensures List(table, q, cursor) == Respond(Served(table, q, Position(table, cursor)), q.limit)
  {
    if cursor.Some? {
      CursorIsAPosition(table, q, cursor.value, table[cursor.value]);
      PageOfRest(Keys(table, q), Position(table, cursor), ListLimit(q.limit));
    }
  }

  // ---------------------------------------------------------------------------
  // What a caller gets, in terms of the columns
  // ---------------------------------------------------------------------------

  predicate AskedFor(t: Task, q: Query) {
    && t.project == q.project
    && (q.filter.status == None || q.filter.status == Some(t.status))
    && (q.filter.priority == None || q.filter.priority == Some(t.priority))
  }

  // The smaller priority comes first, then what was created later, then the greater id.
  predicate ComesBefore(table: Table, a: TaskId, b: TaskId)
    requires a in table && b in table
  {
    var x, y := table[a], table[b];
    || x.priority < y.priority
    || (x.priority == y.priority && (x.createdAt > y.createdAt || (x.createdAt == y.createdAt && a > b)))
  }

  // What is asked for, from the cursor on.
  predicate Due(table: Table, q: Query, cursor: Option<TaskId>, id: TaskId)
    requires id in table && (cursor.Some? ==> cursor.value in table)
  {
    AskedFor(table[id], q) && (cursor.Some? ==> ComesBefore(table, cursor.value, id))
  }

  /**
   * A cursor that is gone, or not among what is asked for, is refused. Otherwise the answer holds rows that are
   * asked for, in order and behind the cursor, as many as the page allows, and whatever is left out comes later.
   */
  ghost predicate Answers(table: Table, q: Query, cursor: Option<TaskId>, r: Response<TaskId>) {
    if cursor.Some? && cursor.value !in table then r == NotFound
    else if cursor.Some? && !AskedFor(table[cursor.value], q) then r == InvalidInput
    else
      var size := if q.limit <= 0 then 50 else if q.limit > 200 then 200 else q.limit;
      && r.Items? && |r.items| <= size
      && (forall id :: id in r.items ==> id in table && Due(table, q, cursor, id))
      && (forall i, j :: 0 <= i < j < |r.items| ==> ComesBefore(table, r.items[i], r.items[j]))
      && (forall id :: id in table && Due(table, q, cursor, id) && id !in r.items ==>
           |r.items| == size && ComesBefore(table, r.items[size - 1], id))
      && r.next == (if r.items != [] && |r.items| == q.limit then Some(r.items[|r.items| - 1]) else None)
  }

  lemma KeysCompare(table: Table, a: TaskId, b: TaskId)
    requires a in table && b in table
    ensures Less(KeyOf(a, table[a]), KeyOf(b, table[b])) <==> ComesBefore(table, a, b)
  {
  }

  // The rows of a page are those its keys come from.
  lemma PageRows(table: Table, q: Query, pos: Option<Key>, n: nat, i: nat)
    requires i < |Page(Keys(table, q), pos, n)|
    ensures var page := Page(Keys(table, q), pos, n);
            var id := Ids(page)[i];
            id in table && AskedFor(table[id], q) && KeyOf(id, table[id]) == page[i]
  {
    var page := Page(Keys(table, q), pos, n);
    assert page[i] in page;
    var id: TaskId :| id in table && Selects(table[id], q) && page[i] == KeyOf(id, table[id]);
    IdOfKey(id, table[id]);
  }

  // A row that is asked for is on the page, or the page is full of earlier ones.
  lemma LeftOutComesLater(table: Table, q: Query, pos: Option<Key>, n: nat, id: TaskId)
    requires n > 0 && id in table && AskedFor(table[id], q) && Beyond(pos, KeyOf(id, table[id]))
    ensures var page := Page(Keys(table, q), pos, n);
            id in Ids(page) || (|page| == n && Less(page[n - 1], KeyOf(id, table[id])))
  {
    var page, k := Page(Keys(table, q), pos, n), KeyOf(id, table[id]);
    assert k in Keys(table, q);
    PageReaches(Keys(table, q), pos, n, k);
    if k in page {
      var i :| 0 <= i < |page| && page[i] == k;
      IdOfKey(id, table[id]);
      assert Ids(page)[i] == id;
    }
  }

  lemma PageAnswers(table: Table, q: Query, pos: Option<Key>, n: nat)
    requires n > 0
    ensures var items := Ids(Page(Keys(table, q), pos, n));
      && |items| <= n
      && (forall id :: id in items ==> id in table && AskedFor(table[id], q) && Beyond(pos, KeyOf(id, table[id])))
      && (forall i, j :: 0 <= i < j < |items| ==> ComesBefore(table, items[i], items[j]))
      && (forall id :: id in table && AskedFor(table[id], q) && Beyond(pos, KeyOf(id, table[id])) && id !in items ==>
           |items| == n && ComesBefore(table, items[n - 1], id))
  {
    var page := Page(Keys(table, q), pos, n);
    var items := Ids(page);
    forall i | 0 <= i < |items|
      ensures items[i] in table && AskedFor(table[items[i]], q) && KeyOf(items[i], table[items[i]]) == page[i]
      ensures Beyond(pos, page[i])
    {
      PageRows(table, q, pos, n, i);
      assert page[i] in page;
    }
    forall i, j | 0 <= i < j < |items| ensures ComesBefore(table, items[i], items[j]) {
      assert Ascends(page, i, j);
      KeysCompare(table, items[i], items[j]);
    }
    forall id | id in table && AskedFor(table[id], q) && Beyond(pos, KeyOf(id, table[id])) && id !in items
      ensures |items| == n && ComesBefore(table, items[n - 1], id)
    {
      LeftOutComesLater(table, q, pos, n, id);
      KeysCompare(table, items[n - 1], id);
    }
  }

  lemma PositionCompares(table: Table, cursor: Option<TaskId>, id: TaskId)
    requires id in table && (cursor.Some? ==> cursor.value in table)
    ensures Beyond(Position(table, cursor), KeyOf(id, table[id])) <==>
            (cursor.Some? ==> ComesBefore(table, cursor.value, id))
  {
    if cursor.Some? {
      KeysCompare(table, cursor.value, id);
    }
  }

  lemma ListAnswers(table: Table, q: Query, cursor: Option<TaskId>)
    ensures Answers(table, q, cursor, List(table, q, cursor))
  {
    if List(table, q, cursor).Items? {
      ListServes(table, q, cursor);
      PageAnswers(table, q, Position(table, cursor), ListLimit(q.limit));
      forall id | id in table
        ensures Due(table, q, cursor, id) <==>
                AskedFor(table[id], q) && Beyond(Position(table, cursor), KeyOf(id, table[id]))
      {
        PositionCompares(table, cursor, id);
      }
    }
  }

  /** The repository's checks and statements, and the handler's copy of the rows with their cursor, come to `List`. */
  method ListTasks(table: Table, q: Query, cursor: Option<TaskId>) returns (r: Response<TaskId>)
    ensures r == List(table, q, cursor)
    ensures Answers(table, q, cursor, r)
  {
    ListAnswers(table, q, cursor);
    var keys := Keys(table, q);
    if cursor.Some? {
      if cursor.value !in table { return NotFound; }
      if !Selects(table[cursor.value], q) { return InvalidInput; }
      keys := KeysAfter(table, q, cursor.value, table[cursor.value]);
    }
    var page := SelectPage(keys, ListLimit(q.limit));
    var items, next := [], None;
    for i := 0 to |page|
      invariant items == Ids(page)[..i]
    {
      items := items + [IdOf(page[i])];
    }
    if |items| == q.limit && |items| > 0 {
      next := Some(items[|items| - 1]);
    }
    r := Items(items, next);
  }

  // ---------------------------------------------------------------------------
  // Walks: each page is served from the table of its moment
  // ---------------------------------------------------------------------------

  ghost function Follow(tables: seq<Table>, q: Query, cursor: Option<TaskId>): Walk<TaskId> {
    if tables == [] then Unfinished
    else
      match List(tables[0], q, cursor)
      case Items(items, None) => Finished(items)
      case Items(items, Some(next)) =>
        (match Follow(tables[1..], q, Some(next))
         case Finished(rest) => Finished(items + rest)
         case w => w)
      case _ => Refused
  }

  predicate Present(table: Table, q: Query, id: TaskId, k: Key) {
    id in table && Selects(table[id], q) && KeyOf(id, table[id]) == k
  }

  predicate SamePlace(id: TaskId, now: Table, later: Table) {
    id in now && id in later ==> KeyOf(id, now[id]) == KeyOf(id, later[id])
  }

  // No row has another key when it is used as a cursor than when it was handed out as one.
  ghost predicate CursorsStay(tables: seq<Table>, q: Query, cursor: Option<TaskId>) {
    |tables| >= 2 && List(tables[0], q, cursor).Items? && List(tables[0], q, cursor).next.Some? ==>
      && SamePlace(List(tables[0], q, cursor).next.value, tables[0], tables[1])
      && CursorsStay(tables[1..], q, List(tables[0], q, cursor).next)
  }

  // Keys of a table and ids of its rows are the same thing.
  lemma {:induction false} IdsCount(page: seq<Key>, table: Table, q: Query, id: TaskId)
    requires forall k :: k in page ==> k in Keys(table, q)
    ensures multiset(Ids(page))[id] == if id in table then multiset(page)[KeyOf(id, table[id])] else 0
  {
    if page != [] {
      IdsCount(page[1..], table, q, id);
      assert page == [page[0]] + page[1..] && page[0] in page;
      assert Ids(page) == [IdOf(page[0])] + Ids(page[1..]);
      var id': TaskId :| id' in table && page[0] == KeyOf(id', table[id']);
      IdOfKey(id', table[id']);
      if id in table && page[0] == KeyOf(id, table[id]) {
        KeyTellsId(id, table[id], id', table[id']);
      }
    }
  }

  // The cursor that a page hands out stands at the last key of the page.
  lemma NextStands(table: Table, q: Query, page: seq<Key>)
    requires page != [] && forall k :: k in page ==> k in Keys(table, q)
    ensures Ids(page)[|page| - 1] in table && Position(table, Some(Ids(page)[|page| - 1])) == Some(page[|page| - 1])
  {
    var k := page[|page| - 1];
    assert k in page;
    var id: TaskId :| id in table && k == KeyOf(id, table[id]);
    IdOfKey(id, table[id]);
  }

  function One(b: bool): nat {
    if b then 1 else 0
  }

  // A page meets a row that lies between its start and the cursor it hands out.
  lemma PageMeets(table: Table, q: Query, cursor: Option<TaskId>, id: TaskId, k: Key)
    requires GoodLimit(q.limit) && List(table, q, cursor).Items? && Present(table, q, id, k)
    ensures match List(table, q, cursor)
            case Items(items, None) => multiset(items)[id] == One(Beyond(Position(table, cursor), k))
            case Items(items, Some(next)) =>
              && next in table
              && multiset(items)[id] + One(Beyond(Position(table, Some(next)), k)) ==
                   One(Beyond(Position(table, cursor), k))
            case _ => true
  {
    var pos := Position(table, cursor);
    var page := Served(table, q, pos);
    ListServes(table, q, cursor);
    assert k in Keys(table, q);
    PageReaches(Keys(table, q), pos, q.limit, k);
    OnceEach(page, k);
    IdsCount(page, table, q, id);
    if |page| == q.limit {
      NextStands(table, q, page);
      LastIsBeyond(page, pos, k);
    }
  }

  lemma LastIsBeyond(page: seq<Key>, pos: Option<Key>, k: Key)
    requires page != [] && forall x :: x in page ==> Beyond(pos, x)
    ensures Less(page[|page| - 1], k) ==> Beyond(pos, k)
  {
    assert page[|page| - 1] in page;
  }

  // How often the key k changes sides because a cursor's row moves between the page that hands it out and the
  // page that starts from it: up for a cursor that falls back before k, down for one that leaps over it.
  ghost function Jumps(tables: seq<Table>, q: Query, cursor: Option<TaskId>, k: Key): int {
    if |tables| < 2 || !List(tables[0], q, cursor).Items? || List(tables[0], q, cursor).next.None? then 0
    else
      var next := List(tables[0], q, cursor).next;
      One(Beyond(Position(tables[1], next), k)) - One(Beyond(Position(tables[0], next), k))
        + Jumps(tables[1..], q, next, k)
  }

  ghost predicate Stays(tables: seq<Table>, q: Query, id: TaskId, k: Key) {
    forall i {:trigger tables[i]} :: 0 <= i < |tables| ==> Present(tables[i], q, id, k)
  }

  /** How often a finished walk meets a row that stays, with an unchanged key and matching the filter. */
  lemma {:induction false} TimesMet(tables: seq<Table>, q: Query, cursor: Option<TaskId>, id: TaskId, k: Key)
    requires GoodLimit(q.limit) && Follow(tables, q, cursor).Finished? && Stays(tables, q, id, k)
    ensures multiset(Follow(tables, q, cursor).items)[id] ==
            One(Beyond(Position(tables[0], cursor), k)) + Jumps(tables, q, cursor, k)
  {
    assert Present(tables[0], q, id, k);
    PageMeets(tables[0], q, cursor, id, k);
    var next := List(tables[0], q, cursor).next;
    if next.Some? {
      var rest := tables[1..];
      assert rest != [] && List(rest[0], q, next).Items?;
      assert forall i {:trigger rest[i]} :: 0 <= i < |rest| ==> rest[i] == tables[i + 1];
      TimesMet(rest, q, next, id, k);
    }
  }

  /**
   * Over tables that change between pages, such a row is met exactly once iff cursors leap over it and
   * fall back equally often.
   */
  lemma MetOnceIff(tables: seq<Table>, q: Query, id: TaskId, k: Key)
    requires GoodLimit(q.limit) && Follow(tables, q, None).Finished? && Stays(tables, q, id, k)
    ensures multiset(Follow(tables, q, None).items)[id] == 1 <==> Jumps(tables, q, None, k) == 0
  {
    TimesMet(tables, q, None, id, k);
  }

  lemma {:induction false} NoJumps(tables: seq<Table>, q: Query, cursor: Option<TaskId>, k: Key)
    requires Follow(tables, q, cursor).Finished? && CursorsStay(tables, q, cursor)
    ensures Jumps(tables, q, cursor, k) == 0
  {
    var next := List(tables[0], q, cursor).next;
    if next.Some? {
      ListServes(tables[0], q, cursor);
      NextStands(tables[0], q, Served(tables[0], q, Position(tables[0], cursor)));
      NoJumps(tables[1..], q, next, k);
    }
  }

  /** So it is met exactly once if no row changes its key between being handed out as a cursor and being used as one. */
  lemma MetOnce(tables: seq<Table>, q: Query, id: TaskId, k: Key)
    requires GoodLimit(q.limit) && Follow(tables, q, None).Finished? && Stays(tables, q, id, k)
    requires CursorsStay(tables, q, None)
    ensures multiset(Follow(tables, q, None).items)[id] == 1
  {
    MetOnceIff(tables, q, id, k);
    NoJumps(tables, q, None, k);
  }

  /** Whatever a walk returns was what is asked for when its page was served. */
  lemma {:induction false} MetWhereServed(tables: seq<Table>, q: Query, cursor: Option<TaskId>, id: TaskId)
    requires Follow(tables, q, cursor).Finished? && id in Follow(tables, q, cursor).items
    ensures exists i :: 0 <= i < |tables| && id in tables[i] && AskedFor(tables[i][id], q)
  {
    ListServes(tables[0], q, cursor);
    var page := Served(tables[0], q, Position(tables[0], cursor));
    var items := List(tables[0], q, cursor).items;
    if id in items {
      var i :| 0 <= i < |items| && items[i] == id;
      assert page[i] in page;
      var id': TaskId :| id' in tables[0] && Selects(tables[0][id'], q) && page[i] == KeyOf(id', tables[0][id']);
      IdOfKey(id', tables[0][id']);
    } else {
      var next := List(tables[0], q, cursor).next;
      MetWhereServed(tables[1..], q, next, id);
      var i :| 0 <= i < |tables[1..]| && id in tables[1..][i] && AskedFor(tables[1..][i][id], q);
      assert tables[i + 1] == tables[1..][i];
    }
  }

  // ---------------------------------------------------------------------------
  // A table that stays as it is
  // ---------------------------------------------------------------------------

  function Same(table: Table, n: nat): seq<Table> {
    seq(n, _ => table)
  }

  // All rows the filter selects, by priority, then newest first, then by id.
  ghost function InOrder(table: Table, q: Query, pos: Option<Key>): seq<TaskId> {
    Ids(Ordered(After(Keys(table, q), pos)))
  }

  lemma IdsConcat(s: seq<Key>, t: seq<Key>)
    ensures Ids(s + t) == Ids(s) + Ids(t)
  {
    forall i | 0 <= i < |s + t| ensures Ids(s + t)[i] == (Ids(s) + Ids(t))[i] {
      assert (s + t)[i] == if i < |s| then s[i] else t[i - |s|];
    }
  }

  // A page and what its cursor leads to are all that was left.
  lemma PageAndRest(table: Table, q: Query, cursor: Option<TaskId>) returns (items: seq<TaskId>, next: Option<TaskId>)
    requires GoodLimit(q.limit) && List(table, q, cursor).Items?
    ensures List(table, q, cursor) == Items(items, next)
    ensures next.None? ==> items == InOrder(table, q, Position(table, cursor))
    ensures next.Some? ==>
              && List(table, q, next).Items?
              && items + InOrder(table, q, Position(table, next)) == InOrder(table, q, Position(table, cursor))
              && |After(Keys(table, q), Position(table, next))| < |After(Keys(table, q), Position(table, cursor))|
  {
    var ks, pos := Keys(table, q), Position(table, cursor);
    var page := Served(table, q, pos);
    ListServes(table, q, cursor);
    items, next := List(table, q, cursor).items, List(table, q, cursor).next;
    if |page| == q.limit {
      NextStands(table, q, page);
      SelectedNext(table, q, page);
      PageThenRest(ks, pos, q.limit);
      IdsConcat(page, Ordered(After(ks, Some(page[|page| - 1]))));
    }
  }

  predicate Usable(table: Table, q: Query, cursor: Option<TaskId>) {
    cursor.Some? ==> cursor.value in table && Selects(table[cursor.value], q)
  }

  ghost predicate WalksTheRest(table: Table, q: Query, cursor: Option<TaskId>, n: nat) {
    Follow(Same(table, n), q, cursor) == Finished(InOrder(table, q, Position(table, cursor)))
  }

  // One page ahead of a walk.
  lemma OnePageMore(table: Table, q: Query, cursor: Option<TaskId>, n: nat) returns (next: Option<TaskId>)
    requires GoodLimit(q.limit) && Usable(table, q, cursor) && n > 0
    ensures next.None? ==> WalksTheRest(table, q, cursor, n)
    ensures next.Some? ==>
              && Usable(table, q, next)
              && |After(Keys(table, q), Position(table, next))| < |After(Keys(table, q), Position(table, cursor))|
              && (WalksTheRest(table, q, next, n - 1) ==> WalksTheRest(table, q, cursor, n))
  {
    var items;
    items, next := PageAndRest(table, q, cursor);
    assert Same(table, n)[0] == table && Same(table, n)[1..] == Same(table, n - 1);
  }

  // More pages than there are rows left are enough.
  lemma {:induction false} WalkIsTheRest(table: Table, q: Query, cursor: Option<TaskId>, n: nat)
    requires GoodLimit(q.limit) && Usable(table, q, cursor) && n > |After(Keys(table, q), Position(table, cursor))|
    ensures WalksTheRest(table, q, cursor, n)
    decreases n
  {
    var next := OnePageMore(table, q, cursor, n);
    if next.Some? {
      WalkIsTheRest(table, q, next, n - 1);
    }
  }

  lemma SelectedNext(table: Table, q: Query, page: seq<Key>)
    requires page != [] && forall k :: k in page ==> k in Keys(table, q)
    ensures List(table, q, Some(Ids(page)[|page| - 1])).Items?
  {
    var k := page[|page| - 1];
    assert k in page;
    var id: TaskId :| id in table && Selects(table[id], q) && k == KeyOf(id, table[id]);
    IdOfKey(id, table[id]);
  }

  ghost predicate Complete(table: Table, q: Query) {
    exists n: nat :: Follow(Same(table, n), q, None) == Finished(InOrder(table, q, None))
  }

  /**
   * Following next_cursor until it is absent ends and adds up to the whole sorted list exactly if the
   * limit is between 1 and 200, or all rows fit the page served instead, which never has a cursor.
   */
  lemma CompleteIff(table: Table, q: Query)
    ensures Complete(table, q) <==> GoodLimit(q.limit) || |Keys(table, q)| <= ListLimit(q.limit)
  {
    var ks := Keys(table, q);
    assert After(ks, None) == ks;
    ListServes(table, q, None);
    if GoodLimit(q.limit) {
      WalkIsTheRest(table, q, None, |ks| + 1);
    } else {
      var page := Served(table, q, None);
      OrderedLength(ks, Ordered(ks));
      if |ks| <= ListLimit(q.limit) {
        assert Follow(Same(table, 1), q, None) == Finished(Ids(page));
      }
      forall n: nat | Follow(Same(table, n), q, None) == Finished(InOrder(table, q, None))
        ensures |ks| <= ListLimit(q.limit) {
        assert Same(table, n)[0] == table;
        assert Ids(page) == InOrder(table, q, None);
      }
    }
  }

  // ---------------------------------------------------------------------------
  // A cursor row that moves
  // ---------------------------------------------------------------------------

  lemma PageOfOne(table: Table, q: Query, pos: Option<Key>, k: Key)
    requires k in After(Keys(table, q), pos) && ListLimit(q.limit) == 1
    requires forall x :: x in After(Keys(table, q), pos) && x != k ==> Less(k, x)
    ensures Served(table, q, pos) == [k]
  {
    var page := Served(table, q, pos);
    PageReaches(Keys(table, q), pos, 1, k);
    assert k in After(Keys(table, q), pos);
    assert page == [page[0]] && page[0] in page;
    assert page[0] in After(Keys(table, q), pos);
  }

  lemma KeyOfTwo(table: Table, q: Query, a: TaskId, b: TaskId, x: Key)
    requires table.Keys == {a, b} && x in Keys(table, q)
    ensures x == KeyOf(a, table[a]) || x == KeyOf(b, table[b])
  {
    var id: TaskId :| id in table && Selects(table[id], q) && x == KeyOf(id, table[id]);
    assert id in table.Keys;
  }

  lemma FirstOfTwo(table: Table, q: Query, a: TaskId, b: TaskId)
    requires q.limit == 1 && table.Keys == {a, b} && Selects(table[a], q)
    requires Less(KeyOf(a, table[a]), KeyOf(b, table[b]))
    ensures List(table, q, None) == Items([a], Some(a))
  {
    var k := KeyOf(a, table[a]);
    assert k in Keys(table, q);
    forall x | x in Keys(table, q) && x != k ensures Less(k, x) {
      KeyOfTwo(table, q, a, b, x);
    }
    PageOfOne(table, q, None, k);
    ListServes(table, q, None);
    IdOfKey(a, table[a]);
  }

  lemma NothingBeyond(table: Table, q: Query, a: TaskId, b: TaskId)
    requires table.Keys == {a, b} && Selects(table[a], q)
    requires Less(KeyOf(b, table[b]), KeyOf(a, table[a]))
    ensures List(table, q, Some(a)) == Items([], None)
  {
    forall x | x in Keys(table, q) ensures !Less(KeyOf(a, table[a]), x) {
      KeyOfTwo(table, q, a, b, x);
    }
    assert After(Keys(table, q), Position(table, Some(a))) == {};
    ListServes(table, q, Some(a));
  }

  // A row b that never changes is missed if the cursor row a moves from before it to behind it.
  lemma OvertakenIsMissed(before: Table, after: Table, q: Query, a: TaskId, b: TaskId)
    requires q.limit == 1 && before.Keys == after.Keys == {a, b}
    requires Selects(before[a], q) && Selects(after[a], q) && before[b] == after[b]
    requires Less(KeyOf(a, before[a]), KeyOf(b, before[b])) && Less(KeyOf(b, after[b]), KeyOf(a, after[a]))
    ensures Follow([before, after], q, None) == Finished([a])
  {
    FirstOfTwo(before, q, a, b);
    NothingBeyond(after, q, a, b);
    var tables := [before, after];
    assert tables[1..] == [after] && Follow([after], q, Some(a)) == Finished([]);
  }

  /** If the cursor's priority is edited between two pages, a row that never changed is missed. */
  lemma EditedCursorSkips() returns (before: Table, after: Table, q: Query)
    ensures before == map[1 := Task(0, Backlog, 0, 0), 2 := Task(0, Backlog, 1, 0)]
    ensures after == before[1 := before[1].(priority := 5)]
    ensures q.limit == 1 && Follow([before, after], q, None) == Finished([1])
    ensures Present(before, q, 2, KeyOf(2, before[2])) && Present(after, q, 2, KeyOf(2, before[2]))
  {
    before := map[1 := Task(0, Backlog, 0, 0), 2 := Task(0, Backlog, 1, 0)];
    after, q := before[1 := before[1].(priority := 5)], Query(0, Filter(None, None), 1);
    assert before.Keys == {1, 2} && after.Keys == {1, 2};
    OvertakenIsMissed(before, after, q, 1, 2);
  }
}
