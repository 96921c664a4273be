/** `table.groupby(key)[val].sum()`: one (key, total) entry per distinct key,
    the total being the sum of `val` over the rows with that key. */
module Grouping {

  /** `table[val].sum()`: the sum of `val` over all rows, 0 for no rows. */
  function SumOf<R>(rows: seq<R>, val: R -> nat): (r: nat)
    ensures forall i :: 0 <= i < |rows| ==> val(rows[i]) <= r
    decreases |rows|
  {
    if rows == [] then 0 else SumOf(rows[..|rows| - 1], val) + val(rows[|rows| - 1])
  }

  lemma {:induction false} SumOfConcat<R>(a: seq<R>, b: seq<R>, val: R -> nat)
    ensures SumOf(a + b, val) == SumOf(a, val) + SumOf(b, val)
    decreases |b|
  {
    if b == [] {
      assert a + b == a;
    } else {
      var n := |b| - 1;
      assert (a + b)[..|a + b| - 1] == a + b[..n];
      assert (a + b)[|a + b| - 1] == b[n];
      SumOfConcat(a, b[..n], val);
    }
  }

  /** The sum of `val` over the rows whose key is `k`. */
  function SumWhere<R, K(==)>(rows: seq<R>, key: R -> K, val: R -> nat, k: K): (r: nat)
    ensures r <= SumOf(rows, val)
    ensures (forall i :: 0 <= i < |rows| ==> key(rows[i]) != k) ==> r == 0
    decreases |rows|
  {
    if rows == [] then 0
    else
      var n := |rows| - 1;
      SumWhere(rows[..n], key, val, k) + (if key(rows[n]) == k then val(rows[n]) else 0)
  }

  /** No key occurs in two entries. */
  predicate DistinctKeys<K(==)>(g: seq<(K, nat)>) {
    forall i, j :: 0 <= i < j < |g| ==> g[i].0 != g[j].0
  }

  /** The keys of a grouped table. */
  ghost function KeySet<K>(g: seq<(K, nat)>): set<K> {
    if g == [] then {} else {g[0].0} + KeySet(g[1..])
  }

  lemma {:induction false} KeySetMember<K>(g: seq<(K, nat)>, i: nat)
    requires i < |g|
    ensures g[i].0 in KeySet(g)
  {
    if i > 0 {
      assert g[1..][i - 1] == g[i];
      KeySetMember(g[1..], i - 1);
    }
  }

  /** The total recorded for `k`, 0 when `k` has no entry. */
  function Lookup<K(==)>(g: seq<(K, nat)>, k: K): (r: nat)
    ensures r <= Totals(g)
    ensures (forall i :: 0 <= i < |g| ==> g[i].0 != k) ==> r == 0
  {
    if g == [] then 0 else if g[0].0 == k then g[0].1 else Lookup(g[1..], k)
  }

  /** The sum of all recorded totals. */
  function Totals<K>(g: seq<(K, nat)>): (r: nat)
    ensures forall i :: 0 <= i < |g| ==> g[i].1 <= r
  {
    if g == [] then 0 else g[0].1 + Totals(g[1..])
  }

  /** Adds `v` to the entry of `k`, appending a new entry when there is none. */
  function AddTo<K(==)>(g: seq<(K, nat)>, k: K, v: nat): (r: seq<(K, nat)>)
    ensures |r| == if k in KeySet(g) then |g| else |g| + 1
    ensures KeySet(r) == KeySet(g) + {k}
    ensures DistinctKeys(g) ==> DistinctKeys(r)
    ensures Totals(r) == Totals(g) + v
  {
    if g == [] then [(k, v)]
    else if g[0].0 == k then [(k, g[0].1 + v)] + g[1..]
    else
      var rest := AddTo(g[1..], k, v);
      assert ([g[0]] + rest)[1..] == rest;
      DistinctCons(g);
      DistinctCons([g[0]] + rest);
      [g[0]] + rest
  }

  /** Adding to `k` changes the total of `k` and of no other key. */
  lemma {:induction false} AddToLookup<K>(g: seq<(K, nat)>, k: K, v: nat, k': K)
    ensures Lookup(AddTo(g, k, v), k') == Lookup(g, k') + (if k' == k then v else 0)
  {
    if g != [] && g[0].0 != k {
      AddToLookup(g[1..], k, v, k');
    }
  }

  /** `rows.groupby(key)[val].sum()`. Entries appear in the order in which
      their keys first occur in `rows`. */
  function GroupSum<R, K(==)>(rows: seq<R>, key: R -> K, val: R -> nat): (r: seq<(K, nat)>)
    ensures DistinctKeys(r)
    ensures |r| <= |rows|
    decreases |rows|
  {
    if rows == [] then []
    else
      var n := |rows| - 1;
      AddTo(GroupSum(rows[..n], key, val), key(rows[n]), val(rows[n]))
  }

  /** The keys of the grouped table are exactly the keys occurring in the rows. */
  lemma {:induction false} GroupSumKeys<R, K>(rows: seq<R>, key: R -> K, val: R -> nat)
    ensures KeySet(GroupSum(rows, key, val)) == set i | 0 <= i < |rows| :: key(rows[i])
    decreases |rows|
  {
    if rows != [] {
      var n := |rows| - 1;
      GroupSumKeys(rows[..n], key, val);
      var before := set i | 0 <= i < n :: key(rows[..n][i]);
      var all := set i | 0 <= i < |rows| :: key(rows[i]);
      assert all == before + {key(rows[n])} by {
        forall x | x in all ensures x in before + {key(rows[n])} {
          var i :| 0 <= i < |rows| && key(rows[i]) == x;
          if i < n { assert key(rows[..n][i]) == x; }
        }
        forall x | x in before ensures x in all {
          var i :| 0 <= i < n && key(rows[..n][i]) == x;
          assert key(rows[i]) == x;
        }
      }
    }
  }

  /** The total of every key is the sum of `val` over the rows with that key
      (0 for a key that occurs in no row). */
  lemma {:induction false} GroupSumTotals<R, K>(rows: seq<R>, key: R -> K, val: R -> nat, k: K)
    ensures Lookup(GroupSum(rows, key, val), k) == SumWhere(rows, key, val, k)
    decreases |rows|
  {
    if rows != [] {
      var n := |rows| - 1;
      GroupSumTotals(rows[..n], key, val, k);
      AddToLookup(GroupSum(rows[..n], key, val), key(rows[n]), val(rows[n]), k);
    }
  }

  /** With distinct keys, `Lookup` finds the total of an entry. */
  lemma {:induction false} LookupEntry<K>(g: seq<(K, nat)>, i: nat)
    requires DistinctKeys(g) && i < |g|
    ensures Lookup(g, g[i].0) == g[i].1
  {
    if i > 0 {
      assert g[1..][i - 1] == g[i];
      LookupEntry(g[1..], i - 1);
    }
  }

  /** Each entry's total is the sum of `val` over the rows with its key. */
  lemma GroupSumEntries<R, K>(rows: seq<R>, key: R -> K, val: R -> nat)
    ensures forall i :: 0 <= i < |GroupSum(rows, key, val)| ==>
      GroupSum(rows, key, val)[i].1 == SumWhere(rows, key, val, GroupSum(rows, key, val)[i].0)
  {
    var g := GroupSum(rows, key, val);
    forall i | 0 <= i < |g| ensures g[i].1 == SumWhere(rows, key, val, g[i].0) {
      LookupEntry(g, i);
      GroupSumTotals(rows, key, val, g[i].0);
    }
  }

  /** Conservation: grouping neither loses nor invents any amount. */
  lemma {:induction false} GroupSumConserves<R, K>(rows: seq<R>, key: R -> K, val: R -> nat)
    ensures Totals(GroupSum(rows, key, val)) == SumOf(rows, val)
    decreases |rows|
  {
    if rows != [] {
      GroupSumConserves(rows[..|rows| - 1], key, val);
    }
  }

  /** When no key repeats, grouping is a pass-through: one entry per row, in
      row order. */
  lemma {:induction false} GroupSumPassThrough<R, K>(rows: seq<R>, key: R -> K, val: R -> nat)
    requires forall i, j :: 0 <= i < j < |rows| ==> key(rows[i]) != key(rows[j])
    ensures |GroupSum(rows, key, val)| == |rows|
    ensures forall i :: 0 <= i < |rows| ==> GroupSum(rows, key, val)[i] == (key(rows[i]), val(rows[i]))
    decreases |rows|
  {
    if rows != [] {
      var n := |rows| - 1;
      var prev := GroupSum(rows[..n], key, val);
      GroupSumPassThrough(rows[..n], key, val);
      GroupSumKeys(rows[..n], key, val);
      assert key(rows[n]) !in KeySet(prev) by {
        assert forall i :: 0 <= i < n ==> key(rows[..n][i]) != key(rows[n]);
      }
      AppendFresh(prev, key(rows[n]), val(rows[n]));
      var g := GroupSum(rows, key, val);
      assert g == prev + [(key(rows[n]), val(rows[n]))];
      forall i | 0 <= i < |rows| ensures g[i] == (key(rows[i]), val(rows[i])) {
        if i < n {
          assert g[i] == prev[i] && rows[..n][i] == rows[i];
        }
      }
    }
  }

  /** A key with no entry yet is appended at the end. */
  lemma {:induction false} AppendFresh<K>(g: seq<(K, nat)>, k: K, v: nat)
    requires k !in KeySet(g)
    ensures AddTo(g, k, v) == g + [(k, v)]
  {
    if g != [] {
      AppendFresh(g[1..], k, v);
      assert [g[0]] + (g[1..] + [(k, v)]) == g + [(k, v)];
    }
  }

  /** A table with distinct keys has as many entries as keys. */
  lemma {:induction false} DistinctKeyCount<K>(g: seq<(K, nat)>)
    requires DistinctKeys(g)
    ensures |KeySet(g)| == |g|
  {
    if g != [] {
      DistinctCons(g);
      DistinctKeyCount(g[1..]);
    }
  }

  /** Keys are distinct when the first is not among the rest and the rest are distinct. */
  lemma DistinctCons<K>(g: seq<(K, nat)>)
    requires g != []
    ensures DistinctKeys(g) <==> g[0].0 !in KeySet(g[1..]) && DistinctKeys(g[1..])
  {
    var tail := g[1..];
    assert forall i :: 0 <= i < |tail| ==> tail[i] == g[i + 1];
    if g[0].0 in KeySet(tail) {
      KeySetIndex(tail, g[0].0);
    }
    forall i | 0 <= i < |tail| {
      KeySetMember(tail, i);
    }
  }

  /** Every key of the table is the key of one of its entries. */
  lemma {:induction false} KeySetIndex<K>(g: seq<(K, nat)>, k: K)
    requires k in KeySet(g)
    ensures exists i :: 0 <= i < |g| && g[i].0 == k
  {
    if g[0].0 != k {
      KeySetIndex(g[1..], k);
      var i :| 0 <= i < |g[1..]| && g[1..][i].0 == k;
      assert g[i + 1].0 == k;
    }
  }

  /** The numbers 0 .. n-1. */
  function Below(n: nat): (r: set<nat>)
    ensures |r| == n
    ensures forall h: nat :: h in r <==> h < n
  {
    if n == 0 then {} else Below(n - 1) + {n - 1}
  }

  /** Grouping on a key below `n` yields at most `n` entries. */
  lemma GroupSumBounded<R>(rows: seq<R>, key: R -> nat, val: R -> nat, n: nat)
    requires forall i :: 0 <= i < |rows| ==> key(rows[i]) < n
    ensures |GroupSum(rows, key, val)| <= n
  {
    var g := GroupSum(rows, key, val);
    GroupSumKeys(rows, key, val);
    DistinctKeyCount(g);
    assert KeySet(g) <= Below(n);
    SubsetCard(KeySet(g), Below(n));
  }

  lemma {:induction false} SubsetCard<T>(a: set<T>, b: set<T>)
    requires a <= b
    ensures |a| <= |b|
    decreases |a|
  {
    if a != {} {
      var x :| x in a;
      SubsetCard(a - {x}, b - {x});
    }
  }
}
