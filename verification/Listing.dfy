/** A table read in key order from some key on: what one page takes of it and
    what is left for the next. */
module Listing {
  import opened Results
  import opened Orders

  datatype Row<K, T> = Row(key: K, data: T)

  function ByKey<K(!new), T(!new)>(le: (K, K) -> bool): (Row<K, T>, Row<K, T>) -> bool {
    (a: Row<K, T>, b: Row<K, T>) => le(a.key, b.key)
  }

  // The rows that qualify and come strictly after `from`.
  function Past<K(!new), T(!new)>(le: (K, K) -> bool, p: T -> bool, from: Option<K>): Row<K, T> -> bool {
    (r: Row<K, T>) => p(r.data) && (from.None? || !le(r.key, from.value))
  }

  // The simple list: filter, then sort.
  function Listed<K(!new), T(!new)>(table: seq<Row<K, T>>, le: (K, K) -> bool, p: T -> bool, from: Option<K>)
    : seq<Row<K, T>>
  {
    Sort(Filter(table, Past(le, p, from)), ByKey(le))
  }

  ghost predicate UniqueKeys<K(!new), T(!new)>(table: seq<Row<K, T>>) {
    forall i, j :: 0 <= i < j < |table| ==> table[i].key != table[j].key
  }

  ghost predicate Ascending<K(!new), T(!new)>(s: seq<Row<K, T>>, le: (K, K) -> bool) {
    forall i, j :: 0 <= i < j < |s| ==> le(s[i].key, s[j].key) && s[i].key != s[j].key
  }

  lemma ByKeyIsPreorder<K(!new), T(!new)>(le: (K, K) -> bool)
    requires TotalOrder(le)
    ensures Preorder(ByKey<K, T>(le))
  {
    forall a: Row<K, T>, b: Row<K, T> ensures ByKey(le)(a, b) || ByKey(le)(b, a) {
      assert le(a.key, b.key) || le(b.key, a.key);
    }
    forall a: Row<K, T>, b: Row<K, T>, c: Row<K, T> | ByKey(le)(a, b) && ByKey(le)(b, c) ensures ByKey(le)(a, c) {
      assert le(a.key, b.key) && le(b.key, c.key);
    }
  }

  // One key, one row: an element of the table is counted once.
  lemma {:induction false} UniqueCounts<K(!new), T(!new)>(table: seq<Row<K, T>>, r: Row<K, T>)
    requires UniqueKeys(table)
    ensures multiset(table)[r] == if r in table then 1 else 0
  {
    if table != [] {
      UniqueCounts(table[1..], r);
      assert table == [table[0]] + table[1..];
    }
  }

  lemma SameKeySameRow<K(!new), T(!new)>(table: seq<Row<K, T>>, a: Row<K, T>, b: Row<K, T>)
    requires UniqueKeys(table) && a in table && b in table && a.key == b.key
    ensures a == b
  {
    var i :| 0 <= i < |table| && table[i] == a;
    var j :| 0 <= j < |table| && table[j] == b;
    assert i == j;
  }

  lemma ListedMembers<K(!new), T(!new)>(table: seq<Row<K, T>>, le: (K, K) -> bool, p: T -> bool, from: Option<K>)
    ensures forall r :: r in Listed(table, le, p, from) <==> r in table && Past(le, p, from)(r)
  {
    SortPermutes(Filter(table, Past(le, p, from)), ByKey(le));
    forall r: Row<K, T> ensures r in Listed(table, le, p, from) <==> r in table && Past(le, p, from)(r) {
      FilterCount(table, Past(le, p, from), r);
      assert r in Listed(table, le, p, from) <==> multiset(Listed(table, le, p, from))[r] > 0;
      assert r in table <==> multiset(table)[r] > 0;
    }
  }

  // A row of this key that qualifies is in the table.
  ghost predicate Present<K(!new), T(!new)>(table: seq<Row<K, T>>, p: T -> bool, k: K) {
    exists r :: r in table && r.key == k && p(r.data)
  }

  lemma ListedAt<K(!new), T(!new)>(table: seq<Row<K, T>>, le: (K, K) -> bool, p: T -> bool, from: Option<K>, k: K)
    returns (i: nat)
    requires Present(table, p, k) && (from.Some? ==> !le(k, from.value))
    ensures i < |Listed(table, le, p, from)| && Listed(table, le, p, from)[i].key == k
  {
    var r :| r in table && r.key == k && p(r.data);
    ListedMembers(table, le, p, from);
    assert Past(le, p, from)(r);
    i :| 0 <= i < |Listed(table, le, p, from)| && Listed(table, le, p, from)[i] == r;
  }

  lemma ListedOnce<K(!new), T(!new)>(table: seq<Row<K, T>>, le: (K, K) -> bool, p: T -> bool, from: Option<K>,
                                     r: Row<K, T>)
    requires UniqueKeys(table)
    ensures multiset(Listed(table, le, p, from))[r] == if r in table && Past(le, p, from)(r) then 1 else 0
  {
    UniqueCounts(table, r);
    FilterCount(table, Past(le, p, from), r);
    SortPermutes(Filter(table, Past(le, p, from)), ByKey(le));
  }

  lemma CountedOnce<T(!new)>(s: seq<T>, i: nat, j: nat)
    requires i < j < |s| && multiset(s)[s[i]] <= 1
    ensures s[i] != s[j]
  {
    assert s == s[..j] + s[j..];
    assert s[i] in s[..j] by { assert s[..j][i] == s[i]; }
    assert s[j..][0] == s[j];
    assert multiset(s) == multiset(s[..j]) + multiset(s[j..]);
    assert multiset(s[..j])[s[i]] >= 1 && multiset(s[j..])[s[j]] >= 1;
  }

  lemma ListedAscends<K(!new), T(!new)>(table: seq<Row<K, T>>, le: (K, K) -> bool, p: T -> bool, from: Option<K>)
    requires TotalOrder(le) && UniqueKeys(table)
    ensures Ascending(Listed(table, le, p, from), le)
  {
    var s := Listed(table, le, p, from);
    ByKeyIsPreorder<K, T>(le);
    SortSorts(Filter(table, Past(le, p, from)), ByKey(le));
    ListedMembers(table, le, p, from);
    forall i, j | 0 <= i < j < |s| ensures le(s[i].key, s[j].key) && s[i].key != s[j].key {
      assert ByKey(le)(s[i], s[j]);
      ListedOnce(table, le, p, from, s[i]);
      CountedOnce(s, i, j);
      if s[i].key == s[j].key { SameKeySameRow(table, s[i], s[j]); }
    }
  }

  // Reading on from the last row of a page gives the rest of the list.
  lemma RestIsListed<K(!new), T(!new)>(table: seq<Row<K, T>>, le: (K, K) -> bool, p: T -> bool, from: Option<K>, n: nat)
    requires TotalOrder(le) && UniqueKeys(table)
    requires 0 < n <= |Listed(table, le, p, from)|
    ensures Listed(table, le, p, Some(Listed(table, le, p, from)[n - 1].key)) == Listed(table, le, p, from)[n..]
  {
    var s := Listed(table, le, p, from);
    var pivot := s[n - 1].key;
    var rest := Listed(table, le, p, Some(pivot));
    ListedAscends(table, le, p, from);
    ListedAscends(table, le, p, Some(pivot));
    forall r ensures multiset(rest)[r] == multiset(s[n..])[r] {
      RestCounts(table, le, p, from, n, r);
    }
    SameCounts(multiset(rest), multiset(s[n..]));
    AscendingUnique(rest, s[n..], le);
  }

  // A row of an ascending list is in the rest exactly when it comes after.
  lemma InRest<K(!new), T(!new)>(s: seq<Row<K, T>>, le: (K, K) -> bool, n: nat, r: Row<K, T>)
    requires TotalOrder(le) && Ascending(s, le) && 0 < n <= |s|
    ensures r in s[n..] <==> r in s && !le(r.key, s[n - 1].key)
  {
    if r in s {
      var i :| 0 <= i < |s| && s[i] == r;
      if i < n {
        assert i == n - 1 || le(s[i].key, s[n - 1].key);
        forall j | n <= j < |s| ensures s[j] != r {
          assert s[i].key != s[j].key;
        }
      } else {
        assert s[n..][i - n] == r;
        assert le(s[n - 1].key, r.key) && s[n - 1].key != r.key;
      }
    }
  }

  lemma RestCounts<K(!new), T(!new)>(table: seq<Row<K, T>>, le: (K, K) -> bool, p: T -> bool, from: Option<K>, n: nat,
                                     r: Row<K, T>)
    requires TotalOrder(le) && UniqueKeys(table)
    requires 0 < n <= |Listed(table, le, p, from)|
    ensures multiset(Listed(table, le, p, Some(Listed(table, le, p, from)[n - 1].key)))[r]
         == multiset(Listed(table, le, p, from)[n..])[r]
  {
    var s := Listed(table, le, p, from);
    var pivot := s[n - 1].key;
    ListedOnce(table, le, p, Some(pivot), r);
    ListedMembers(table, le, p, from);
    ListedAscends(table, le, p, from);
    InRest(s, le, n, r);
    UniqueCounts(s[n..], r);
    assert s[n - 1] in s;
    if from.Some? {
      assert le(from.value, pivot);
    }
  }

  lemma AscendingUnique<K(!new), T(!new)>(a: seq<Row<K, T>>, b: seq<Row<K, T>>, le: (K, K) -> bool)
    requires TotalOrder(le) && Ascending(a, le) && Ascending(b, le) && multiset(a) == multiset(b)
    ensures a == b
  {
    ByKeyIsPreorder<K, T>(le);
    forall x, y | x in a && y in a && ByKey(le)(x, y) && ByKey(le)(y, x) ensures x == y {
      var i :| 0 <= i < |a| && a[i] == x;
      var j :| 0 <= j < |a| && a[j] == y;
      assert i == j;
    }
    SortedUnique(a, b, ByKey(le));
  }
}
