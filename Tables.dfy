/**
  Generic operations on the in-memory tables of the store: each table is a
  sequence of rows kept in insertion order, which is ascending primary-key
  order. The queries the views issue (filter, count, order by, get by id,
  max) are defined here once, with the facts about them that the store's
  invariant and the views' contracts rely on.
 */
module Tables {

  datatype Maybe<T> = None | Some(value: T)

  /** The rows of `s` that `keep` accepts, in their original order (a WHERE clause). */
  function Filter<T(==,!new)>(s: seq<T>, keep: T -> bool): (r: seq<T>)
    ensures |r| <= |s|
    ensures forall x :: x in r <==> x in s && keep(x)
    decreases |s|
  {
    if s == [] then []
    else if keep(s[0]) then [s[0]] + Filter(s[1..], keep)
    else Filter(s[1..], keep)
  }

  /** `f` applied to every row, in order (an UPDATE that touches every row). */
  function MapRows<T>(s: seq<T>, f: T -> T): (r: seq<T>)
    ensures |r| == |s|
    ensures forall i :: 0 <= i < |s| ==> r[i] == f(s[i])
  {
    seq(|s|, i requires 0 <= i < |s| => f(s[i]))
  }

  /** The set of values of column `key` over the table. */
  function Ids<T(==,!new)>(s: seq<T>, key: T -> int): set<int>
  {
    set x | x in s :: key(x)
  }

  /** Column `key` strictly increases along the table. */
  predicate IncreasingBy<T>(s: seq<T>, key: T -> int)
  {
    forall i, j :: 0 <= i < j < |s| ==> key(s[i]) < key(s[j])
  }

  /** Column `key` does not decrease along the table. */
  predicate SortedBy<T>(s: seq<T>, key: T -> int)
  {
    forall i, j :: 0 <= i < j < |s| ==> key(s[i]) <= key(s[j])
  }

  /** No two rows of the table agree on column `key` (a UNIQUE constraint). */
  predicate UniqueBy<T(==,!new), K(==)>(s: seq<T>, key: T -> K)
  {
    forall x, y :: x in s && y in s && key(x) == key(y) ==> x == y
  }

  /** An auto-increment primary key: ascending along the table and below the next id to hand out. */
  predicate Keyed<T(==,!new)>(s: seq<T>, id: T -> int, next: int)
  {
    IncreasingBy(s, id) && forall x :: x in s ==> id(x) < next
  }

  /** Every row's foreign key `ref` names a row of the parent table (whose keys are `ids`). */
  predicate RefsIn<T(==,!new)>(s: seq<T>, ref: T -> int, ids: set<int>)
  {
    forall x :: x in s ==> ref(x) in ids
  }

  /** Every row's nullable foreign key `ref` is null or names a row of the parent table. */
  predicate NullableRefsIn<T(==,!new)>(s: seq<T>, ref: T -> Maybe<int>, ids: set<int>)
  {
    forall x :: x in s ==> ref(x).None? || ref(x).value in ids
  }

  /** The largest value of column `key` (an aggregate Max), or None on an empty table. */
  function MaxBy<T>(s: seq<T>, key: T -> int): (r: Maybe<int>)
    ensures r.None? <==> s == []
    ensures r.Some? ==> forall i :: 0 <= i < |s| ==> key(s[i]) <= r.value
    ensures r.Some? ==> exists i :: 0 <= i < |s| && key(s[i]) == r.value
    decreases |s|
  {
    if s == [] then None
    else
      match MaxBy(s[1..], key)
      case None => Some(key(s[0]))
      case Some(m) =>
        if key(s[0]) >= m then Some(key(s[0]))
        else
          assert exists i :: 0 <= i < |s[1..]| && key(s[1..][i]) == m;
          var j :| 0 <= j < |s[1..]| && key(s[1..][j]) == m;
          assert key(s[j + 1]) == m;
          Some(m)
  }

  /** Position of the row whose key is `k` (a lookup by primary key). */
  function Find<T(==,!new)>(s: seq<T>, id: T -> int, k: int): (r: Maybe<nat>)
    ensures r.Some? ==> r.value < |s| && id(s[r.value]) == k
    ensures r.None? <==> k !in Ids(s, id)
  {
    if s == [] then None
    else if id(s[0]) == k then Some(0)
    else
      match Find(s[1..], id, k)
      case None =>
        assert s == [s[0]] + s[1..];
        None
      case Some(i) => Some(i + 1)
  }

  /** Inserting one row into a table sorted by `key`. */
  function Insert<T(==,!new)>(x: T, s: seq<T>, key: T -> int): (r: seq<T>)
    requires SortedBy(s, key)
    ensures SortedBy(r, key)
    ensures multiset(r) == multiset(s) + multiset{x}
    ensures forall y :: y in r <==> y == x || y in s
    decreases |s|
  {
    if s == [] then [x]
    else if key(x) <= key(s[0]) then
      ConsSorted(x, s, key);
      [x] + s
    else
      assert s == [s[0]] + s[1..];
      TailSorted(s, key);
      var rest := Insert(x, s[1..], key);
      ConsSorted(s[0], rest, key);
      [s[0]] + rest
  }

  /** Dropping the first row keeps a table sorted; that row is below all the others. */
  lemma TailSorted<T(!new)>(s: seq<T>, key: T -> int)
    requires SortedBy(s, key) && s != []
    ensures SortedBy(s[1..], key)
    ensures forall y :: y in s[1..] ==> key(s[0]) <= key(y)
  {
    var t := s[1..];
    forall i, j | 0 <= i < j < |t| ensures key(t[i]) <= key(t[j]) {
      assert t[i] == s[i + 1] && t[j] == s[j + 1];
    }
    forall y | y in t ensures key(s[0]) <= key(y) {
      var k :| 0 <= k < |t| && t[k] == y;
      assert s[k + 1] == y;
    }
  }

  /** A row below every row of a sorted table can go in front of it. */
  lemma ConsSorted<T(!new)>(h: T, s: seq<T>, key: T -> int)
    requires SortedBy(s, key)
    requires forall y :: y in s ==> key(h) <= key(y)
    ensures SortedBy([h] + s, key)
  {
    var r := [h] + s;
    forall i, j | 0 <= i < j < |r| ensures key(r[i]) <= key(r[j]) {
      assert r[j] == s[j - 1] && s[j - 1] in s;
      if i > 0 { assert r[i] == s[i - 1]; }
    }
  }

  /** The table ordered by `key` (an ORDER BY): a sorted permutation of it. */
  function SortBy<T(==,!new)>(s: seq<T>, key: T -> int): (r: seq<T>)
    ensures SortedBy(r, key)
    ensures multiset(r) == multiset(s)
    ensures |r| == |s|
    ensures forall x :: x in r <==> x in s
    decreases |s|
  {
    if s == [] then []
    else
      assert s == [s[0]] + s[1..];
      var r := Insert(s[0], SortBy(s[1..], key), key);
      assert forall x :: x in r <==> x in multiset(r);
      r
  }

  // ----- facts about Filter -----

  /** A filter that keeps every row returns the table itself. */
  lemma {:induction false} FilterKeepsAll<T(!new)>(s: seq<T>, keep: T -> bool)
    requires forall x :: x in s ==> keep(x)
    ensures Filter(s, keep) == s
    decreases |s|
  {
    if s != [] {
      FilterKeepsAll(s[1..], keep);
      assert s == [s[0]] + s[1..];
    }
  }

  /** Filtering a table that ends in `y` filters the prefix and then decides `y`. */
  lemma {:induction false} FilterAppend<T(!new)>(s: seq<T>, y: T, keep: T -> bool)
    ensures Filter(s + [y], keep) == Filter(s, keep) + (if keep(y) then [y] else [])
    decreases |s|
  {
    if s == [] {
      assert [] + [y] == [y];
      assert [y][1..] == [];
    } else {
      assert (s + [y])[0] == s[0];
      assert (s + [y])[1..] == s[1..] + [y];
      FilterAppend(s[1..], y, keep);
    }
  }

  /** Filtering a concatenation filters each part. */
  lemma {:induction false} FilterConcat<T(!new)>(s: seq<T>, t: seq<T>, keep: T -> bool)
    ensures Filter(s + t, keep) == Filter(s, keep) + Filter(t, keep)
    decreases |s|
  {
    if s == [] {
      assert [] + t == t;
    } else {
      assert (s + t)[0] == s[0];
      assert (s + t)[1..] == s[1..] + t;
      FilterConcat(s[1..], t, keep);
    }
  }

  /** Two filters that agree on every row of the table give the same rows. */
  lemma {:induction false} FilterAgree<T(!new)>(s: seq<T>, p: T -> bool, q: T -> bool)
    requires forall x :: x in s ==> (p(x) <==> q(x))
    ensures Filter(s, p) == Filter(s, q)
    decreases |s|
  {
    if s != [] {
      assert s == [s[0]] + s[1..];
      FilterAgree(s[1..], p, q);
    }
  }

  /** A filter that rejects every row returns the empty table. */
  lemma FilterKeepsNone<T(!new)>(s: seq<T>, keep: T -> bool)
    requires forall x :: x in s ==> !keep(x)
    ensures Filter(s, keep) == []
  {
  }

  /** A filter that rejects exactly the row at position `i` removes that row and no other. */
  lemma {:induction false} FilterDropsOne<T(!new)>(s: seq<T>, keep: T -> bool, i: nat)
    requires i < |s| && !keep(s[i])
    requires forall j :: 0 <= j < |s| && j != i ==> keep(s[j])
    ensures Filter(s, keep) == s[..i] + s[i + 1..]
    decreases |s|
  {
    if i == 0 {
      assert forall j :: 0 <= j < |s[1..]| ==> s[1..][j] == s[j + 1];
      FilterKeepsAll(s[1..], keep);
    } else {
      var t := s[1..];
      forall j | 0 <= j < |t| && j != i - 1 ensures keep(t[j]) {
        assert t[j] == s[j + 1];
      }
      FilterDropsOne(t, keep, i - 1);
      assert s[..i] == [s[0]] + t[..i - 1];
      assert s[i + 1..] == t[i..];
    }
  }

  /** Filtering by `p` and then by `q` is filtering once by their conjunction. */
  lemma {:induction false} FilterTwice<T(!new)>(s: seq<T>, p: T -> bool, q: T -> bool, both: T -> bool)
    requires forall x :: x in s ==> (both(x) <==> p(x) && q(x))
    ensures Filter(Filter(s, p), q) == Filter(s, both)
    decreases |s|
  {
    if s != [] {
      assert s == [s[0]] + s[1..];
      FilterTwice(s[1..], p, q, both);
      if p(s[0]) {
        var f := Filter(s, p);
        assert f == [s[0]] + Filter(s[1..], p);
        assert f[0] == s[0] && f[1..] == Filter(s[1..], p);
      }
    }
  }

  /** Filtering keeps a strictly ascending column strictly ascending. */
  lemma {:induction false} FilterIncreasing<T(!new)>(s: seq<T>, keep: T -> bool, key: T -> int)
    requires IncreasingBy(s, key)
    ensures IncreasingBy(Filter(s, keep), key)
    decreases |s|
  {
    if s != [] {
      TailIncreasing(s, key);
      FilterIncreasing(s[1..], keep, key);
      if keep(s[0]) {
        ConsIncreasing(s[0], Filter(s[1..], keep), key);
      }
    }
  }

  /** Dropping the first row keeps a column ascending; that row is below all the others. */
  lemma TailIncreasing<T(!new)>(s: seq<T>, key: T -> int)
    requires IncreasingBy(s, key) && s != []
    ensures IncreasingBy(s[1..], key)
    ensures forall y :: y in s[1..] ==> key(s[0]) < key(y)
  {
    var t := s[1..];
    forall i, j | 0 <= i < j < |t| ensures key(t[i]) < key(t[j]) {
      assert t[i] == s[i + 1] && t[j] == s[j + 1];
    }
    forall y | y in t ensures key(s[0]) < key(y) {
      var k :| 0 <= k < |t| && t[k] == y;
      assert s[k + 1] == y;
    }
  }

  /** A row strictly below every row of an ascending table can go in front of it. */
  lemma ConsIncreasing<T(!new)>(h: T, s: seq<T>, key: T -> int)
    requires IncreasingBy(s, key)
    requires forall y :: y in s ==> key(h) < key(y)
    ensures IncreasingBy([h] + s, key)
  {
    var r := [h] + s;
    forall i, j | 0 <= i < j < |r| ensures key(r[i]) < key(r[j]) {
      assert r[j] == s[j - 1] && s[j - 1] in s;
      if i > 0 { assert r[i] == s[i - 1]; }
    }
  }

  /** Keyed tables stay keyed under filtering. */
  lemma FilterKeyed<T(!new)>(s: seq<T>, keep: T -> bool, id: T -> int, next: int)
    requires Keyed(s, id, next)
    ensures Keyed(Filter(s, keep), id, next)
  {
    FilterIncreasing(s, keep, id);
  }

  /** Appending a row carrying the next id keeps a table keyed, with the counter advanced. */
  lemma AppendKeyed<T(!new)>(s: seq<T>, y: T, id: T -> int, next: int)
    requires Keyed(s, id, next)
    requires id(y) == next
    ensures Keyed(s + [y], id, next + 1)
    ensures Ids(s + [y], id) == Ids(s, id) + {next}
  {
    var t := s + [y];
    forall i, j | 0 <= i < j < |t| ensures id(t[i]) < id(t[j]) {
      if j == |s| {
        assert t[i] == s[i] && s[i] in s;
      } else {
        assert t[i] == s[i] && t[j] == s[j];
      }
    }
    forall x | x in t ensures id(x) < next + 1 {
      if x != y { assert x in s; }
    }
    forall k | k in Ids(t, id) ensures k in Ids(s, id) + {next} {
      var x :| x in t && id(x) == k;
      if x != y { assert x in s; }
    }
    forall k | k in Ids(s, id) + {next} ensures k in Ids(t, id) {
      if k == next {
        assert y in t;
      } else {
        var x :| x in s && id(x) == k;
        assert x in t;
      }
    }
  }

  /** Replacing one row by a row with the same key keeps a table keyed and its key set. */
  lemma UpdateKeyed<T(!new)>(s: seq<T>, i: nat, y: T, id: T -> int, next: int)
    requires Keyed(s, id, next)
    requires i < |s| && id(y) == id(s[i])
    ensures Keyed(s[i := y], id, next)
    ensures Ids(s[i := y], id) == Ids(s, id)
    ensures s[i] in s && forall x :: x in s[i := y] ==> x == y || x in s
  {
    var t := s[i := y];
    forall x | x in t ensures id(x) < next {
      var k :| 0 <= k < |t| && t[k] == x;
      assert id(x) == id(s[k]) && s[k] in s;
    }
    forall k | k in Ids(t, id) ensures k in Ids(s, id) {
      var x :| x in t && id(x) == k;
      var p :| 0 <= p < |t| && t[p] == x;
      assert s[p] in s && id(s[p]) == k;
    }
    forall k | k in Ids(s, id) ensures k in Ids(t, id) {
      var x :| x in s && id(x) == k;
      var p :| 0 <= p < |s| && s[p] == x;
      assert t[p] in t && id(t[p]) == k;
    }
  }

  /**
    Deleting parent rows keeps a child table's foreign keys valid when every
    child that survives points only at parents that survive (the guarantee
    CASCADE gives).
   */
  lemma RefsAfterDelete<P(!new), C(!new)>(parents: seq<P>, pid: P -> int, keepP: P -> bool,
                                      children: seq<C>, ref: C -> int, keepC: C -> bool)
    requires RefsIn(children, ref, Ids(parents, pid))
    requires forall c, p :: c in children && p in parents && keepC(c) && pid(p) == ref(c) ==> keepP(p)
    ensures RefsIn(Filter(children, keepC), ref, Ids(Filter(parents, keepP), pid))
  {
    forall c | c in Filter(children, keepC) ensures ref(c) in Ids(Filter(parents, keepP), pid) {
      var p :| p in parents && pid(p) == ref(c);
      assert p in Filter(parents, keepP);
    }
  }

  /** Filtering never adds keys. */
  lemma IdsOfFilter<T(!new)>(s: seq<T>, keep: T -> bool, id: T -> int)
    ensures Ids(Filter(s, keep), id) <= Ids(s, id)
  {
  }

  /** Appending a row whose `key` no row has keeps the column unique. */
  lemma AppendUnique<T(!new), K>(s: seq<T>, y: T, key: T -> K)
    requires UniqueBy(s, key)
    requires forall x :: x in s ==> key(x) != key(y)
    ensures UniqueBy(s + [y], key)
  {
  }

  /** Rewriting every row with a key-preserving `f` keeps a table keyed and its key set. */
  lemma MapKeyed<T(!new)>(s: seq<T>, f: T -> T, id: T -> int, next: int)
    requires Keyed(s, id, next)
    requires forall x :: id(f(x)) == id(x)
    ensures Keyed(MapRows(s, f), id, next)
    ensures Ids(MapRows(s, f), id) == Ids(s, id)
  {
    var t := MapRows(s, f);
    forall x | x in t ensures id(x) < next {
      var k :| 0 <= k < |t| && t[k] == x;
      assert s[k] in s;
    }
    forall k | k in Ids(t, id) ensures k in Ids(s, id) {
      var x :| x in t && id(x) == k;
      var p :| 0 <= p < |t| && t[p] == x;
      assert s[p] in s && id(s[p]) == k;
    }
    forall k | k in Ids(s, id) ensures k in Ids(t, id) {
      var x :| x in s && id(x) == k;
      var p :| 0 <= p < |s| && s[p] == x;
      assert t[p] in t && id(t[p]) == k;
    }
  }

  /** Rewriting every row with `f` that leaves column `ref` alone keeps its foreign keys valid. */
  lemma MapRefs<T(!new)>(s: seq<T>, f: T -> T, ref: T -> int, ids: set<int>)
    requires RefsIn(s, ref, ids)
    requires forall x :: ref(f(x)) == ref(x)
    ensures RefsIn(MapRows(s, f), ref, ids)
  {
    var t := MapRows(s, f);
    forall x | x in t ensures ref(x) in ids {
      var k :| 0 <= k < |t| && t[k] == x;
      assert s[k] in s;
    }
  }

  /**
    SET_NULL: rewriting every row with `f` that nulls the nullable foreign key
    `ref` where it named `gone` and leaves it alone elsewhere keeps it valid
    once the parent `gone` is deleted.
   */
  lemma MapNullsRefs<T(!new)>(s: seq<T>, f: T -> T, ref: T -> Maybe<int>, ids: set<int>, gone: int)
    requires NullableRefsIn(s, ref, ids)
    requires forall x :: ref(f(x)) == (if ref(x) == Some(gone) then None else ref(x))
    ensures NullableRefsIn(MapRows(s, f), ref, ids - {gone})
  {
    var t := MapRows(s, f);
    forall x | x in t ensures ref(x).None? || ref(x).value in ids - {gone} {
      var k :| 0 <= k < |t| && t[k] == x;
      assert s[k] in s;
    }
  }

  /** Rewriting every row with a key-preserving `f` keeps a column ascending. */
  lemma MapIncreasing<T>(s: seq<T>, f: T -> T, id: T -> int)
    requires IncreasingBy(s, id)
    requires forall x :: id(f(x)) == id(x)
    ensures IncreasingBy(MapRows(s, f), id)
  {
  }

  /** A strictly ascending column identifies its rows. */
  lemma IncreasingUnique<T(!new)>(s: seq<T>, key: T -> int)
    requires IncreasingBy(s, key)
    ensures UniqueBy(s, key)
  {
    forall x, y | x in s && y in s && key(x) == key(y) ensures x == y {
      var i :| 0 <= i < |s| && s[i] == x;
      var j :| 0 <= j < |s| && s[j] == y;
      assert !(i < j) && !(j < i);
    }
  }
}
