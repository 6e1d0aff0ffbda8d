/** Keyset pagination over any set of sort keys: pages, and what following the cursors adds up to. */
module Keyset {
  import opened Domain

  const DEFAULT_LIST_LIMIT: nat := 50
  const MAX_LIST_LIMIT: nat := 200

  function ListLimit(limit: int): nat {
    if limit <= 0 then DEFAULT_LIST_LIMIT else if limit > MAX_LIST_LIMIT then MAX_LIST_LIMIT else limit
  }

  // A limit that is served as asked for.
  predicate GoodLimit(limit: int) {
    1 <= limit <= MAX_LIST_LIMIT
  }

  // What a list call answers: rows with a cursor for the next page, or an error about the cursor it was given.
  datatype Response<T> = Items(items: seq<T>, next: Option<Id>) | NotFound | InvalidInput

  // What following the cursors comes to: all rows met, an error, or more pages to go.
  datatype Walk<T> = Finished(items: seq<T>) | Refused | Unfinished

  // Sort keys compare lexicographically; a descending column is negated.
  datatype Key = Key(a: int, b: int, c: int)

  predicate Less(x: Key, y: Key) {
    x.a < y.a || (x.a == y.a && (x.b < y.b || (x.b == y.b && x.c < y.c)))
  }

  predicate Beyond(pos: Option<Key>, k: Key) {
    pos.Some? ==> Less(pos.value, k)
  }

  predicate Ascends(s: seq<Key>, i: nat, j: nat)
    requires i < j < |s|
  {
    Less(s[i], s[j])
  }

  predicate Increasing(s: seq<Key>) {
    forall i, j {:trigger Ascends(s, i, j)} :: 0 <= i < j < |s| ==> Ascends(s, i, j)
  }

  // The first key is the least, and the rest increases too.
  lemma FirstAndRest(s: seq<Key>)
    requires Increasing(s) && s != []
    ensures Increasing(s[1..]) && s == [s[0]] + s[1..]
    ensures forall k :: k in s[1..] <==> k in s && k != s[0]
    ensures forall k :: k in s && k != s[0] ==> Less(s[0], k)
  {
    forall i, j | 0 <= i < j < |s[1..]| ensures Ascends(s[1..], i, j) {
      assert Ascends(s, i + 1, j + 1);
    }
    forall i | 0 < i < |s| ensures Less(s[0], s[i]) && s[i] in s[1..] {
      assert Ascends(s, 0, i) && s[1..][i - 1] == s[i];
    }
  }

  predicate IsLeast(ks: set<Key>, m: Key) {
    m in ks && forall k :: k in ks && k != m ==> Less(m, k)
  }

  lemma {:induction false} LeastExists(ks: set<Key>)
    requires ks != {}
    ensures exists m :: IsLeast(ks, m)
  {
    var k :| k in ks;
    if ks == {k} {
      assert IsLeast(ks, k);
    } else {
      LeastExists(ks - {k});
      var m :| IsLeast(ks - {k}, m);
      var least := if Less(k, m) then k else m;
      forall x | x in ks && x != least ensures Less(least, x) {
        assert x == k || x == m || Less(m, x);
      }
      assert IsLeast(ks, least);
    }
  }

  ghost predicate IsOrder(ks: set<Key>, s: seq<Key>) {
    Increasing(s) && forall k :: k in s <==> k in ks
  }

  lemma {:induction false} OrderExists(ks: set<Key>)
    ensures exists s :: IsOrder(ks, s)
  {
    if ks == {} {
      assert IsOrder(ks, []);
    } else {
      LeastExists(ks);
      var m :| IsLeast(ks, m);
      OrderExists(ks - {m});
      var s :| IsOrder(ks - {m}, s);
      var all := [m] + s;
      forall i, j | 0 <= i < j < |all| ensures Ascends(all, i, j) {
        assert all[j] in s && (i > 0 ==> Ascends(s, i - 1, j - 1));
      }
      assert IsOrder(ks, all);
    }
  }

  /** ORDER BY: the keys, each once, in increasing order. */
  ghost function Ordered(ks: set<Key>): (s: seq<Key>)
    ensures IsOrder(ks, s)
  {
    OrderExists(ks);
    var s :| IsOrder(ks, s);
    s
  }

  lemma {:induction false} OrderedLength(ks: set<Key>, s: seq<Key>)
    requires IsOrder(ks, s)
    ensures |s| == |ks|
  {
    if s == [] {
      assert ks == {};
    } else {
      FirstAndRest(s);
      assert s[0] in s && IsOrder(ks - {s[0]}, s[1..]);
      OrderedLength(ks - {s[0]}, s[1..]);
    }
  }

  // There is only one such order.
  lemma {:induction false} OrderIsUnique(s: seq<Key>, t: seq<Key>)
    requires Increasing(s) && Increasing(t) && forall k :: k in s <==> k in t
    ensures s == t
  {
    assert (s != [] ==> s[0] in t) && (t != [] ==> t[0] in s);
    if s != [] && t != [] {
      FirstAndRest(s);
      FirstAndRest(t);
      assert s[0] == t[0];
      OrderIsUnique(s[1..], t[1..]);
    }
  }

  function After(ks: set<Key>, pos: Option<Key>): set<Key> {
    set k | k in ks && Beyond(pos, k)
  }

  // ORDER BY ... LIMIT n
  ghost function Page(ks: set<Key>, pos: Option<Key>, n: nat): (page: seq<Key>)
    ensures Increasing(page) && |page| == if |After(ks, pos)| < n then |After(ks, pos)| else n
    ensures forall k :: k in page ==> k in ks && Beyond(pos, k)
  {
    var all := Ordered(After(ks, pos));
    OrderedLength(After(ks, pos), all);
    assert forall i :: 0 <= i < |all| ==> all[i] in all;
    assert forall i, j :: 0 <= i < j < |all| ==> Ascends(all, i, j);
    if |all| <= n then all else
    var page := all[..n];
    assert forall i, j :: 0 <= i < j < |page| ==> Ascends(page, i, j) == Ascends(all, i, j);
    page
  }

  lemma PageOfRest(ks: set<Key>, pos: Option<Key>, n: nat)
    ensures Page(After(ks, pos), None, n) == Page(ks, pos, n)
  {
    assert After(After(ks, pos), None) == After(ks, pos);
  }

  // What a prefix of an increasing sequence holds is told by the order.
  lemma PrefixHolds(s: seq<Key>, n: nat, i: nat)
    requires Increasing(s) && i < |s| && 0 < n <= |s|
    ensures s[i] in s[..n] <==> i < n
    ensures i < n <==> !Less(s[n - 1], s[i])
  {
    if i < n {
      assert s[..n][i] == s[i];
      assert i < n - 1 ==> Ascends(s, i, n - 1);
    } else {
      assert Ascends(s, n - 1, i);
      forall j | 0 <= j < n ensures s[j] != s[i] {
        assert Ascends(s, j, i);
      }
    }
  }

  // A page reaches from the position up to its last key, or to the end.
  lemma PageReaches(ks: set<Key>, pos: Option<Key>, n: nat, k: Key)
    requires k in ks
    ensures |Page(ks, pos, n)| < n ==> (k in Page(ks, pos, n) <==> Beyond(pos, k))
    ensures 0 < n == |Page(ks, pos, n)| ==>
        (k in Page(ks, pos, n) <==> Beyond(pos, k) && !Less(Page(ks, pos, n)[n - 1], k))
  {
    var all := Ordered(After(ks, pos));
    assert k in all <==> Beyond(pos, k);
    if k in all && 0 < n <= |all| {
      var i :| 0 <= i < |all| && all[i] == k;
      PrefixHolds(all, n, i);
      assert |all| == n ==> all[..n] == all;
    }
  }

  // A page and the rest, in order, are all that is left.
  lemma PageThenRest(ks: set<Key>, pos: Option<Key>, n: nat)
    requires 0 < n == |Page(ks, pos, n)|
    ensures Ordered(After(ks, pos)) == Page(ks, pos, n) + Ordered(After(ks, Some(Page(ks, pos, n)[n - 1])))
    ensures |After(ks, Some(Page(ks, pos, n)[n - 1]))| < |After(ks, pos)|
  {
    var all, page := Ordered(After(ks, pos)), Page(ks, pos, n);
    assert page == all[..n];
    var rest := Ordered(After(ks, Some(page[n - 1])));
    forall k ensures k in all[n..] <==> k in rest {
      SuffixHolds(all, n, k);
      if k in rest {
        assert Less(all[n - 1], k) && all[n - 1] in all;
      }
    }
    SuffixIncreases(all, n);
    OrderIsUnique(all[n..], rest);
    assert all == all[..n] + all[n..];
    OrderedLength(After(ks, pos), all);
    OrderedLength(After(ks, Some(page[n - 1])), rest);
  }

  lemma SuffixIncreases(s: seq<Key>, n: nat)
    requires Increasing(s) && n <= |s|
    ensures Increasing(s[n..])
  {
    forall i, j | 0 <= i < j < |s[n..]| ensures Ascends(s[n..], i, j) {
      assert Ascends(s, n + i, n + j);
    }
  }

  lemma SuffixHolds(s: seq<Key>, n: nat, k: Key)
    requires Increasing(s) && 0 < n <= |s|
    ensures k in s[n..] <==> k in s && Less(s[n - 1], k)
  {
    forall j | n <= j < |s| ensures Less(s[n - 1], s[j]) && s[j] in s[n..] {
      assert Ascends(s, n - 1, j) && s[n..][j - n] == s[j];
    }
    if k in s {
      var i :| 0 <= i < |s| && s[i] == k;
      PrefixHolds(s, n, i);
    }
  }

  /** An increasing sequence holds each of its keys once. */
  lemma {:induction false} OnceEach(s: seq<Key>, k: Key)
    requires Increasing(s)
    ensures multiset(s)[k] == if k in s then 1 else 0
  {
    if s != [] {
      FirstAndRest(s);
      OnceEach(s[1..], k);
    }
  }
}
