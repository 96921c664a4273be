/** `sort_values` on the total column of a grouped table, and `head(k)` of the
    result. */
module Ranking {
  import opened Grouping

  /** `a` may stand before `b`: totals non-decreasing when `ascending`,
      non-increasing otherwise. */
  predicate Before<K>(a: (K, nat), b: (K, nat), ascending: bool) {
    if ascending then a.1 <= b.1 else a.1 >= b.1
  }

  predicate SortedBy<K>(s: seq<(K, nat)>, ascending: bool) {
    forall i, j :: 0 <= i < j < |s| ==> Before(s[i], s[j], ascending)
  }

  /** Inserts `x` in front of the first entry it may stand before. */
  function Insert<K(==)>(x: (K, nat), s: seq<(K, nat)>, ascending: bool): (r: seq<(K, nat)>)
    requires SortedBy(s, ascending)
    ensures |r| == |s| + 1 && (r[0] == x || (s != [] && r[0] == s[0]))
    ensures SortedBy(r, ascending)
    ensures multiset(r) == multiset(s) + multiset{x}
  {
    if s == [] then [x]
    else if Before(x, s[0], ascending) then [x] + s
    else
      var rest := Insert(x, s[1..], ascending);
      assert s == [s[0]] + s[1..];
      assert Before(s[0], rest[0], ascending);
      [s[0]] + rest
  }

  /** `sort_values(by=total, ascending=ascending)`: the entries reordered by
      total. Entries with equal totals keep their relative order. */
  function SortByTotal<K(==)>(s: seq<(K, nat)>, ascending: bool): (r: seq<(K, nat)>)
    ensures |r| == |s|
    ensures SortedBy(r, ascending)
    ensures multiset(r) == multiset(s)
  {
    if s == [] then []
    else
      assert s == [s[0]] + s[1..];
      Insert(s[0], SortByTotal(s[1..], ascending), ascending)
  }

  /** `head(k)`: the first `k` entries, or all of them when there are fewer. */
  function Take<T>(s: seq<T>, k: nat): (r: seq<T>)
    ensures |r| == if k < |s| then k else |s|
    ensures r == s[..|r|]
  {
    if k < |s| then s[..k] else s
  }

  /** `sort_values(...).head(k)`: the `k` best entries in ranking order. */
  function TopK<K(==)>(s: seq<(K, nat)>, k: nat, ascending: bool): (r: seq<(K, nat)>)
    ensures |r| == if k < |s| then k else |s|
    ensures SortedBy(r, ascending)
    ensures multiset(r) <= multiset(s)
    ensures forall x, y :: x in r && y in multiset(s) - multiset(r) ==> Before(x, y, ascending)
  {
    var t := SortByTotal(s, ascending);
    var r := Take(t, k);
    PrefixFirst(t, |r|, ascending);
    r
  }

  /** In a sorted table, every entry of a prefix may stand before every entry
      after it, and the entries after it are what the prefix leaves over. */
  lemma PrefixFirst<K>(t: seq<(K, nat)>, m: nat, ascending: bool)
    requires SortedBy(t, ascending) && m <= |t|
    ensures multiset(t) - multiset(t[..m]) == multiset(t[m..])
    ensures forall x, y :: x in t[..m] && y in multiset(t) - multiset(t[..m]) ==> Before(x, y, ascending)
  {
    assert t == t[..m] + t[m..];
    forall x, y | x in t[..m] && y in multiset(t[m..]) ensures Before(x, y, ascending) {
      var i :| 0 <= i < m && t[..m][i] == x;
      var j :| 0 <= j < |t[m..]| && t[m..][j] == y;
      assert t[i] == x && t[m + j] == y;
    }
  }

  /** Ranking a table with distinct keys, or keeping part of it, cannot
      repeat a key. */
  lemma DistinctKept<K>(s: seq<(K, nat)>, r: seq<(K, nat)>)
    requires DistinctKeys(s) && multiset(r) <= multiset(s)
    ensures DistinctKeys(r)
  {
    forall i, j | 0 <= i < j < |r| ensures r[i].0 != r[j].0 {
      if r[i].0 == r[j].0 {
        assert r[i] in multiset(s) && r[j] in multiset(s);
        var a :| 0 <= a < |s| && s[a] == r[i];
        var b :| 0 <= b < |s| && s[b] == r[j];
        assert a == b;
        OnceInDistinct(s, a);
        TwiceIn(r, i, j);
        assert false;
      }
    }
  }

  /** An entry of a table with distinct keys occurs in it once. */
  lemma {:induction false} OnceInDistinct<K>(s: seq<(K, nat)>, a: nat)
    requires DistinctKeys(s) && a < |s|
    ensures multiset(s)[s[a]] == 1
  {
    var n := |s| - 1;
    assert s == s[..n] + [s[n]];
    assert DistinctKeys(s[..n]);
    if a < n {
      OnceInDistinct(s[..n], a);
    } else {
      assert s[n] !in s[..n];
    }
  }

  /** An entry at two positions occurs at least twice. */
  lemma TwiceIn<K>(r: seq<(K, nat)>, i: nat, j: nat)
    requires i < j < |r| && r[i] == r[j]
    ensures multiset(r)[r[i]] >= 2
  {
    assert r == r[..j] + [r[j]] + r[j + 1..];
    assert r[i] in r[..j];
  }

  /** Entries kept from a grouped table, in any order, still have one entry
      per key and each total is the sum over the rows with that key. */
  lemma KeptGroups<R, K>(rows: seq<R>, key: R -> K, val: R -> nat, r: seq<(K, nat)>)
    requires multiset(r) <= multiset(GroupSum(rows, key, val))
    ensures DistinctKeys(r)
    ensures forall i :: 0 <= i < |r| ==> r[i].1 == SumWhere(rows, key, val, r[i].0)
  {
    var g := GroupSum(rows, key, val);
    DistinctKept(g, r);
    GroupSumEntries(rows, key, val);
    forall i | 0 <= i < |r| ensures r[i].1 == SumWhere(rows, key, val, r[i].0) {
      assert r[i] in multiset(g);
      var a :| 0 <= a < |g| && g[a] == r[i];
    }
  }

  /** The best `k` entries of a grouped table: one per key, each total the
      sum over its key's rows. */
  lemma TopGroups<R, K>(rows: seq<R>, key: R -> K, val: R -> nat, k: nat, ascending: bool)
    ensures var r := TopK(GroupSum(rows, key, val), k, ascending);
      && DistinctKeys(r)
      && forall i :: 0 <= i < |r| ==> r[i].1 == SumWhere(rows, key, val, r[i].0)
  {
    KeptGroups(rows, key, val, TopK(GroupSum(rows, key, val), k, ascending));
  }
}
