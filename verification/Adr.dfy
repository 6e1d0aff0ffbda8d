/**
 * Numbering of architecture decision records: one transaction on its own, and any number of them
 * interleaved statement by statement.
 */
module Adr {
  import opened Domain
  import Runs

  type AdrId = Id

  datatype Row = Row(id: AdrId, project: ProjectId, sequence: nat)

  // ---------------------------------------------------------------------------
  // The table, in commit order
  // ---------------------------------------------------------------------------

  // The numbers of one project, in commit order.
  function Numbers(rows: seq<Row>, p: ProjectId): seq<nat> {
    if rows == [] then []
    else
      var last := rows[|rows| - 1];
      var before := Numbers(rows[..|rows| - 1], p);
      if last.project == p then before + [last.sequence] else before
  }

  function Max(numbers: seq<nat>): nat {
    if numbers == [] then 0
    else
      var before := Max(numbers[..|numbers| - 1]);
      if numbers[|numbers| - 1] > before then numbers[|numbers| - 1] else before
  }

  // COALESCE(MAX(sequence), 0) + 1
  function NextSequence(rows: seq<Row>, p: ProjectId): nat {
    Max(Numbers(rows, p)) + 1
  }

  // 1, 2, ..., n
  predicate Counts(numbers: seq<nat>) {
    forall i {:trigger numbers[i]} :: 0 <= i < |numbers| ==> numbers[i] == i + 1
  }

  /** The numbers of every project are 1 to n, given out in that order. */
  ghost predicate Numbered(rows: seq<Row>) {
    forall p: ProjectId {:trigger Numbers(rows, p)} :: Counts(Numbers(rows, p))
  }

  lemma {:induction false} MaxOfCount(numbers: seq<nat>)
    requires Counts(numbers)
    ensures Max(numbers) == |numbers|
  {
    if numbers != [] {
      MaxOfCount(numbers[..|numbers| - 1]);
    }
  }

  lemma NumbersAppend(rows: seq<Row>, row: Row, p: ProjectId)
    ensures Numbers(rows + [row], p) == if row.project == p then Numbers(rows, p) + [row.sequence] else Numbers(rows, p)
  {
    assert (rows + [row])[..|rows|] == rows;
  }

  lemma {:induction false} NumbersOfPrefix(rows: seq<Row>, n: nat, p: ProjectId)
    requires n <= |rows|
    ensures Numbers(rows[..n], p) <= Numbers(rows, p)
  {
    if n < |rows| {
      NumbersOfPrefix(rows[..|rows| - 1], n, p);
      assert rows[..|rows| - 1][..n] == rows[..n];
    } else {
      assert rows[..n] == rows;
    }
  }

  // A row whose number is the next one keeps the numbering; no other number does.
  lemma AppendKeepsNumbering(rows: seq<Row>, row: Row)
    requires Numbered(rows)
    ensures Numbered(rows + [row]) <==> row.sequence == |Numbers(rows, row.project)| + 1
  {
    NumbersAppend(rows, row, row.project);
    forall p: ProjectId | row.sequence == |Numbers(rows, row.project)| + 1 ensures Counts(Numbers(rows + [row], p)) {
      NumbersAppend(rows, row, p);
      assert Counts(Numbers(rows, p));
    }
    if Numbered(rows + [row]) {
      var numbers := Numbers(rows + [row], row.project);
      assert Counts(numbers) && numbers[|numbers| - 1] == row.sequence;
    }
  }

  // ---------------------------------------------------------------------------
  // One transaction on its own
  // ---------------------------------------------------------------------------

  datatype Result = Ok | InvalidInput | TxFailed(rollbackFailed: bool)

  // Which statements of the transaction fail.
  datatype Faults = Faults(begin: bool, lock: bool, insert: bool, mapping: bool, commit: bool, rollback: bool)
  {
    predicate Primary() { begin || lock || insert || mapping || commit }
  }

  // The caller's record; a zero sequence is unset.
  class Record {
    const project: ProjectId
    var sequence: nat
    var id: Option<AdrId>

    constructor (project: ProjectId)
      ensures this.project == project && sequence == 0 && id == None
    {
      this.project, sequence, id := project, 0, None;
    }
  }

  class Repository {
    var rows: seq<Row>
    var nextId: AdrId

    constructor ()
      ensures rows == [] && Numbered(rows)
    {
      rows, nextId := [], 0;
      new;
      assert forall p :: Numbers(rows, p) == [];
    }

    // Runs the body and commits; without a commit everything is rolled back.
    method WithinTx(project: ProjectId, f: Faults) returns (r: Result, created: Row)
      modifies this
      ensures r == Ok <==> !f.Primary()
      ensures r == Ok ==>
          rows == old(rows) + [created] && created == Row(old(nextId), project, NextSequence(old(rows), project))
      ensures r != Ok ==> rows == old(rows) && r == TxFailed(f.rollback && !f.begin)
    {
      created := Row(nextId, project, 0);
      if f.begin { return TxFailed(false), created; }
      var snapshot := rows;
      var committed := false;
      r := Ok;
      if f.lock {
        r := TxFailed(false);
      } else {
        nextId := nextId + 1;
        created := created.(sequence := NextSequence(rows, project));
        rows := rows + [created];
        if f.insert || f.mapping || f.commit {
          r := TxFailed(false);
        } else {
          committed := true;
        }
      }
      if !committed {
        rows := snapshot;
        if f.rollback {
          r := TxFailed(true);
        }
      }
    }

    /** The record is written to only by a commit, and then carries the number that was stored. */
    method CreateWithNextSequence(record: Record, valid: bool, f: Faults) returns (r: Result)
      requires Numbered(rows)
      modifies this, record
      ensures Numbered(rows)
      ensures r == Ok <==> old(record.sequence) == 0 && valid && !f.Primary()
      ensures r == InvalidInput <==> old(record.sequence) != 0 || !valid
      ensures r == Ok ==> record.sequence == |Numbers(old(rows), record.project)| + 1 && record.id == Some(old(nextId))
      ensures r == Ok ==> rows == old(rows) + [Row(old(nextId), record.project, record.sequence)]
      ensures r != Ok ==> rows == old(rows) && record.sequence == old(record.sequence) && record.id == old(record.id)
    {
      if record.sequence != 0 || !valid {
        return InvalidInput;
      }
      var created;
      r, created := WithinTx(record.project, f);
      if r == Ok {
        record.sequence, record.id := created.sequence, Some(created.id);
        MaxOfCount(Numbers(old(rows), record.project));
        AppendKeepsNumbering(old(rows), created);
      }
    }
  }

  // ---------------------------------------------------------------------------
  // Transactions interleaved
  // ---------------------------------------------------------------------------

  /**
   * What guards the numbers. `lock`: the project row is locked before the insert. `serializable`: a
   * commit is refused when the project's rows are not what the transaction has read. `unique`: a
   * commit is refused when the number is taken.
   */
  datatype Rules = Rules(lock: bool, serializable: bool, unique: bool)

  const DEPLOYED := Rules(true, true, true)

  // A transaction; its snapshot is taken by its first statement, before the lock is granted.
  datatype Tx =
    | Begun(project: ProjectId)
    | Waiting(project: ProjectId, snapshot: seq<Row>)
    | Holding(project: ProjectId, snapshot: seq<Row>)
    | Inserted(project: ProjectId, snapshot: seq<Row>, number: nat)
    | Returned(project: ProjectId, number: nat)  // the caller's record carries the number
    | Gone                                       // rolled back, or committed without the caller knowing

  // A transaction is named by the id of the row it inserts.
  datatype State = State(rows: seq<Row>, txs: map<AdrId, Tx>)

  const START := State([], map[])

  datatype Event =
    | Begin(t: AdrId, project: ProjectId)
    | AskLock(t: AdrId)
    | Lock(t: AdrId)
    | Insert(t: AdrId)
    | Commit(t: AdrId, replyLost: bool)
    | Abort(t: AdrId)

  predicate HasLock(tx: Tx, p: ProjectId) {
    (tx.Holding? || tx.Inserted?) && tx.project == p
  }

  predicate Free(s: State, p: ProjectId) {
    forall t :: t in s.txs ==> !HasLock(s.txs[t], p)
  }

  predicate MayCommit(rules: Rules, rows: seq<Row>, tx: Tx)
    requires tx.Inserted?
  {
    && (rules.serializable ==> Numbers(tx.snapshot, tx.project) == Numbers(rows, tx.project))
    && (rules.unique ==> tx.number !in Numbers(rows, tx.project))
  }

  function StepTx(rules: Rules, s: State, tx: Tx, e: Event): Option<State> {
    match (e, tx)
    case (AskLock(t), Begun(p)) => Some(s.(txs := s.txs[t := Waiting(p, s.rows)]))
    case (Lock(t), Waiting(p, snapshot)) =>
      if rules.lock ==> Free(s, p) then Some(s.(txs := s.txs[t := Holding(p, snapshot)])) else None
    case (Insert(t), Holding(p, snapshot)) =>
      Some(s.(txs := s.txs[t := Inserted(p, snapshot, NextSequence(snapshot, p))]))
    case (Commit(t, replyLost), Inserted(p, _, number)) =>
      if MayCommit(rules, s.rows, tx)
      then Some(State(s.rows + [Row(t, p, number)], s.txs[t := if replyLost then Gone else Returned(p, number)]))
        else None
    case (Abort(t), _) => if tx.Returned? then None else Some(s.(txs := s.txs[t := Gone]))
    case _ => None
  }

  function Step(rules: Rules, s: State, e: Event): Option<State> {
    if e.Begin? then
      if e.t in s.txs then None else Some(s.(txs := s.txs[e.t := Begun(e.project)]))
    else if e.t in s.txs then StepTx(rules, s, s.txs[e.t], e)
    else None
  }

  function Steps(rules: Rules): (State, Event) -> Option<State> {
    (s, e) => Step(rules, s, e)
  }

  ghost predicate Behaviour(rules: Rules, ss: seq<State>) {
    Runs.Behaviour(START, Steps(rules), ss)
  }

  ghost predicate Reachable(rules: Rules, s: State) {
    Runs.Reachable(START, Steps(rules), s)
  }

  // ---------------------------------------------------------------------------
  // Invariant
  // ---------------------------------------------------------------------------

  predicate Guarded(rules: Rules) {
    rules.serializable || rules.unique
  }

  predicate TxOk(s: State, t: AdrId) {
    t in s.txs ==>
      match s.txs[t]
      case Waiting(_, snapshot) => snapshot <= s.rows
      case Holding(_, snapshot) => snapshot <= s.rows
      case Inserted(p, snapshot, number) => snapshot <= s.rows && number == NextSequence(snapshot, p)
      case Returned(p, number) => Row(t, p, number) in s.rows
      case _ => true
  }

  predicate Distinct(rows: seq<Row>) {
    forall i, j :: 0 <= i < j < |rows| ==> rows[i].id != rows[j].id
  }

  // Every row was committed by its transaction, once.
  predicate RowOk(s: State, i: nat) {
    i < |s.rows| ==> s.rows[i].id in s.txs && (s.txs[s.rows[i].id].Returned? || s.txs[s.rows[i].id].Gone?)
  }

  ghost predicate Inv(s: State) {
    && Numbered(s.rows) && Distinct(s.rows)
    && (forall t {:trigger TxOk(s, t)} :: TxOk(s, t))
    && (forall i {:trigger RowOk(s, i)} :: RowOk(s, i))
  }

  lemma CountHolds(numbers: seq<nat>, x: nat)
    requires Counts(numbers)
    ensures x in numbers <==> 1 <= x <= |numbers|
  {
    if 1 <= x <= |numbers| {
      assert numbers[x - 1] == x;
    }
  }

  // A commit that passes either guard appends the next number.
  lemma CommitIsNext(rules: Rules, rows: seq<Row>, tx: Tx)
    requires Guarded(rules) && Numbered(rows) && tx.Inserted? && MayCommit(rules, rows, tx)
    requires tx.snapshot <= rows && tx.number == NextSequence(tx.snapshot, tx.project)
    ensures tx.number == |Numbers(rows, tx.project)| + 1
  {
    var seen, now := Numbers(tx.snapshot, tx.project), Numbers(rows, tx.project);
    assert tx.snapshot == rows[..|tx.snapshot|];
    NumbersOfPrefix(rows, |tx.snapshot|, tx.project);
    assert Counts(now) && seen == now[..|seen|];
    MaxOfCount(seen);
    CountHolds(now, tx.number);
  }

  lemma StepKeepsInv(rules: Rules, s: State, e: Event, s': State)
    requires Guarded(rules) && Inv(s) && Step(rules, s, e) == Some(s')
    ensures Inv(s')
  {
    assert TxOk(s, e.t);
    if e.Commit? {
      CommitIsNext(rules, s.rows, s.txs[e.t]);
      AppendKeepsNumbering(s.rows, Row(e.t, s.txs[e.t].project, s.txs[e.t].number));
    }
    forall t ensures TxOk(s', t) {
      assert TxOk(s, t);
    }
    forall i: nat ensures RowOk(s', i) && (i < |s.rows| && e.Commit? ==> s.rows[i].id != e.t) {
      assert RowOk(s, i);
    }
  }

  lemma {:induction false} InvHolds(rules: Rules, ss: seq<State>, i: nat)
    requires Guarded(rules) && Behaviour(rules, ss) && i < |ss|
    ensures Inv(ss[i])
  {
    if i > 0 {
      InvHolds(rules, ss, i - 1);
      var e := Runs.EventAt(START, Steps(rules), ss, i);
      StepKeepsInv(rules, ss[i - 1], e, ss[i]);
    }
  }

  // ---------------------------------------------------------------------------
  // Results
  // ---------------------------------------------------------------------------

  /** After every run each project's committed numbers are 1 to n, and callers hold the numbers they were given. */
  lemma GapFree(ss: seq<State>, i: nat)
    requires Behaviour(DEPLOYED, ss) && i < |ss|
    ensures Numbered(ss[i].rows) && Distinct(ss[i].rows)
    ensures forall t :: t in ss[i].txs && ss[i].txs[t].Returned? ==>
        Row(t, ss[i].txs[t].project, ss[i].txs[t].number) in ss[i].rows
  {
    InvHolds(DEPLOYED, ss, i);
    forall t | t in ss[i].txs && ss[i].txs[t].Returned?
      ensures Row(t, ss[i].txs[t].project, ss[i].txs[t].number) in ss[i].rows
    {
      assert TxOk(ss[i], t);
    }
  }

  /** Committed rows stay, and new ones come last. */
  lemma {:induction false} RowsGrow(rules: Rules, ss: seq<State>, i: nat, j: nat)
    requires Behaviour(rules, ss) && i <= j < |ss|
    ensures ss[i].rows <= ss[j].rows
  {
    if i < j {
      RowsGrow(rules, ss, i, j - 1);
      var e := Runs.EventAt(START, Steps(rules), ss, j);
    }
  }

  // Both have locked the project and not ended.
  predicate BothHold(s: State, a: AdrId, b: AdrId) {
    && a in s.txs && b in s.txs && (s.txs[a].Holding? || s.txs[a].Inserted?)
    && (s.txs[b].Holding? || s.txs[b].Inserted?) && s.txs[a].project == s.txs[b].project
  }

  /** Under the lock one transaction at a time numbers records of a project, and others have to wait. */
  lemma {:induction false} OneHolder(rules: Rules, ss: seq<State>, i: nat, a: AdrId, b: AdrId)
    requires rules.lock && Behaviour(rules, ss) && i < |ss| && BothHold(ss[i], a, b)
    ensures a == b
  {
    var s := ss[i - 1];
    var e := Runs.EventAt(START, Steps(rules), ss, i);
    if BothHold(s, a, b) {
      OneHolder(rules, ss, i - 1, a, b);
    } else if a != b {
      assert HasLock(s.txs[if e.t == a then b else a], ss[i].txs[a].project);
    }
  }

  /** What a caller was told stays true. */
  lemma {:induction false} ReturnedStays(rules: Rules, ss: seq<State>, i: nat, j: nat, t: AdrId)
    requires Behaviour(rules, ss) && i <= j < |ss| && t in ss[i].txs && ss[i].txs[t].Returned?
    ensures t in ss[j].txs && ss[j].txs[t] == ss[i].txs[t]
  {
    if i < j {
      ReturnedStays(rules, ss, i, j - 1, t);
      var e := Runs.EventAt(START, Steps(rules), ss, j);
    }
  }

  /** A transaction that gives up lets one that waits in, and leaves no row. */
  lemma GivingUpLetsTheNextIn(rules: Rules, s: State, t: AdrId, u: AdrId) returns (gone: State, next: State)
    requires t in s.txs && !s.txs[t].Returned? && u in s.txs && u != t && s.txs[u].Waiting?
    requires forall x :: x in s.txs && (s.txs[x].Holding? || s.txs[x].Inserted?) && x != t ==>
               s.txs[x].project != s.txs[u].project
    ensures Step(rules, s, Abort(t)) == Some(gone) && Step(rules, gone, Lock(u)) == Some(next)
    ensures next.rows == s.rows && next.txs == s.txs[t := Gone][u := Holding(s.txs[u].project, s.txs[u].snapshot)]
  {
    gone := Step(rules, s, Abort(t)).value;
    next := Step(rules, gone, Lock(u)).value;
  }

  ghost predicate AlwaysNumbered(rules: Rules) {
    forall s {:trigger Reachable(rules, s)} :: Reachable(rules, s) ==> Numbered(s.rows)
  }

  lemma Extend(rules: Rules, s: State, e: Event, s': State)
    requires Reachable(rules, s) && Step(rules, s, e).Some? && Step(rules, s, e).value == s'
    ensures Reachable(rules, s')
  {
    Runs.Extend(START, Steps(rules), s, e, s');
  }

  // Two transactions of project 0; the second takes its snapshot while the first is under way.
  function Pair(rows: seq<Row>, a: Tx, b: Tx): State {
    State(rows, map[0 := a, 1 := b])
  }

  lemma TwoAsk(rules: Rules)
    ensures Reachable(rules, Pair([], Waiting(0, []), Waiting(0, [])))
  {
    var s1 := State([], map[0 := Begun(0)]);
    var s2 := Pair([], Begun(0), Begun(0));
    var s3 := Pair([], Waiting(0, []), Begun(0));
    Runs.StartIsReachable(START, Steps(rules));
    Extend(rules, START, Begin(0, 0), s1);
    Extend(rules, s1, Begin(1, 0), s2);
    Extend(rules, s2, AskLock(0), s3);
    Extend(rules, s3, AskLock(1), Pair([], Waiting(0, []), Waiting(0, [])));
  }

  lemma FirstCommits(rules: Rules)
    ensures Reachable(rules, Pair([Row(0, 0, 1)], Returned(0, 1), Waiting(0, [])))
  {
    TwoAsk(rules);
    var s0 := Pair([], Waiting(0, []), Waiting(0, []));
    var s1 := Pair([], Holding(0, []), Waiting(0, []));
    var s2 := Pair([], Inserted(0, [], 1), Waiting(0, []));
    Extend(rules, s0, Lock(0), s1);
    Extend(rules, s1, Insert(0), s2);
    Extend(rules, s2, Commit(0, false), Pair([Row(0, 0, 1)], Returned(0, 1), Waiting(0, [])));
  }

  /** The lock alone does not keep the numbers apart: a snapshot can be older than the lock. */
  lemma LockAloneRepeats(rules: Rules)
    requires !Guarded(rules)
    ensures !AlwaysNumbered(rules)
  {
    FirstCommits(rules);
    var s0 := Pair([Row(0, 0, 1)], Returned(0, 1), Waiting(0, []));
    var s1 := Pair([Row(0, 0, 1)], Returned(0, 1), Holding(0, []));
    var s2 := Pair([Row(0, 0, 1)], Returned(0, 1), Inserted(0, [], 1));
    var s3 := Pair([Row(0, 0, 1), Row(1, 0, 1)], Returned(0, 1), Returned(0, 1));
    Extend(rules, s0, Lock(1), s1);
    Extend(rules, s1, Insert(1), s2);
    Extend(rules, s2, Commit(1, false), s3);
    NumbersAppend([], Row(0, 0, 1), 0);
    NumbersAppend([Row(0, 0, 1)], Row(1, 0, 1), 0);
    assert Numbers(s3.rows, 0)[1] == 1;
  }

  /** Numbers are gap-free in every run exactly if serializable isolation or the unique key refuses stale commits. */
  lemma NumberedIffGuarded(rules: Rules)
    ensures AlwaysNumbered(rules) <==> rules.serializable || rules.unique
  {
    if Guarded(rules) {
      forall s | Reachable(rules, s) ensures Numbered(s.rows) {
        var ss :| Runs.Ends(START, Steps(rules), ss, s);
        InvHolds(rules, ss, |ss| - 1);
      }
    } else {
      LockAloneRepeats(rules);
    }
  }
}
