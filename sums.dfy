/** Totals and selections over the rows of a table, kept in insertion order. The stock
    ledger balance is a sum over the receipt, dispatch and request tables; every listing
    is a selection. */
module Sums {
  import opened Base

  /** The total of `w` over the rows of `s`. */
  function Sum<T>(s: seq<T>, w: T -> int): int {
    if s == [] then 0 else Sum(s[..|s| - 1], w) + w(s[|s| - 1])
  }

  /** Inserting a row adds its weight. */
  lemma SumAppend<T>(s: seq<T>, x: T, w: T -> int)
    ensures Sum(s + [x], w) == Sum(s, w) + w(x)
  {
    assert (s + [x])[..|s|] == s;
  }

  /** A table whose every row weighs nothing totals zero. */
  lemma {:induction false} SumOfZeros<T>(s: seq<T>, w: T -> int)
    requires forall k :: 0 <= k < |s| ==> w(s[k]) == 0
    ensures Sum(s, w) == 0
  {
    if s != [] {
      SumOfZeros(s[..|s| - 1], w);
    }
  }

  /** Deleting the row at `k` takes away exactly its weight. */
  lemma {:induction false} SumRemove<T>(s: seq<T>, k: nat, w: T -> int)
    requires k < |s|
    ensures Sum(s[..k] + s[k + 1..], w) == Sum(s, w) - w(s[k])
  {
    var n := |s| - 1;
    if k == n {
      assert s[..k] + s[k + 1..] == s[..n];
    } else {
      var t := s[..n];
      assert s[..k] + s[k + 1..] == (t[..k] + t[k + 1..]) + [s[n]];
      SumAppend(t[..k] + t[k + 1..], s[n], w);
      SumRemove(t, k, w);
    }
  }

  /** Rewriting the row at `k` changes the total by the difference of the weights. */
  lemma {:induction false} SumUpdate<T>(s: seq<T>, k: nat, x: T, w: T -> int)
    requires k < |s|
    ensures Sum(s[k := x], w) == Sum(s, w) - w(s[k]) + w(x)
  {
    var n := |s| - 1;
    if k == n {
      assert s[k := x][..n] == s[..n];
    } else {
      assert s[k := x][..n] == s[..n][k := x];
      SumUpdate(s[..n], k, x, w);
    }
  }

  /** The rows of `s` that satisfy `p`, in their original order. */
  function Filter<T(!new)>(s: seq<T>, p: T -> bool): (r: seq<T>)
    ensures |r| <= |s|
    ensures forall x :: x in r <==> x in s && p(x)
  {
    if s == [] then []
    else
      var n := |s| - 1;
      assert s == s[..n] + [s[n]];
      var r := Filter(s[..n], p);
      if p(s[n]) then r + [s[n]] else r
  }

  /** A selection that every row passes is the whole table. */
  lemma {:induction false} FilterAll<T(!new)>(s: seq<T>, p: T -> bool)
    requires forall x :: x in s ==> p(x)
    ensures Filter(s, p) == s
  {
    if s != [] {
      var n := |s| - 1;
      assert s == s[..n] + [s[n]];
      FilterAll(s[..n], p);
    }
  }

  /** Two conditions that agree on every row select the same rows. */
  lemma {:induction false} FilterCongruent<T(!new)>(s: seq<T>, p: T -> bool, q: T -> bool)
    requires forall x :: x in s ==> p(x) == q(x)
    ensures Filter(s, p) == Filter(s, q)
  {
    if s != [] {
      var n := |s| - 1;
      assert s == s[..n] + [s[n]];
      FilterCongruent(s[..n], p, q);
    }
  }

  /** The position of the row whose key is `id`, if there is one: a lookup by primary key. */
  function Find<T>(s: seq<T>, key: T -> nat, id: nat): (r: Option<nat>)
    ensures r.Some? ==> r.value < |s| && key(s[r.value]) == id
    ensures r.None? <==> forall k :: 0 <= k < |s| ==> key(s[k]) != id
  {
    if s == [] then None
    else if key(s[0]) == id then Some(0)
    else
      match Find(s[1..], key, id)
      case None => None
      case Some(k) => Some(k + 1)
  }

  /** No two rows share a key. */
  ghost predicate UniqueKeys<T>(s: seq<T>, key: T -> nat) {
    forall k, l :: 0 <= k < l < |s| ==> key(s[k]) != key(s[l])
  }

  /** Every key is below `bound`, the next key to hand out. */
  ghost predicate KeysBelow<T>(s: seq<T>, key: T -> nat, bound: nat) {
    forall k :: 0 <= k < |s| ==> key(s[k]) < bound
  }

  /** The table without its row at `k`. */
  function Without<T>(s: seq<T>, k: nat): (r: seq<T>)
    requires k < |s|
    ensures |r| == |s| - 1
    ensures forall j :: 0 <= j < |r| ==> r[j] == s[if j < k then j else j + 1]
  {
    s[..k] + s[k + 1..]
  }

  /** Handing out the next key keeps keys unique and below the new bound. */
  lemma AppendFreshKey<T>(s: seq<T>, key: T -> nat, bound: nat, x: T)
    requires UniqueKeys(s, key) && KeysBelow(s, key, bound) && key(x) == bound
    ensures UniqueKeys(s + [x], key) && KeysBelow(s + [x], key, bound + 1)
  {
  }

  /** Deleting a row keeps keys unique and removes its key from the table. */
  lemma WithoutKeys<T>(s: seq<T>, key: T -> nat, bound: nat, k: nat)
    requires k < |s| && UniqueKeys(s, key) && KeysBelow(s, key, bound)
    ensures UniqueKeys(Without(s, k), key) && KeysBelow(Without(s, k), key, bound)
    ensures forall j :: 0 <= j < |s| - 1 ==> key(Without(s, k)[j]) != key(s[k])
  {
    var r := Without(s, k);
    forall a, b | 0 <= a < b < |r| ensures key(r[a]) != key(r[b]) {
      var a', b' := if a < k then a else a + 1, if b < k then b else b + 1;
      assert a' < b' && r[a] == s[a'] && r[b] == s[b'];
    }
  }

  /** Once a row is deleted, looking its key up finds nothing. */
  lemma FindWithout<T>(s: seq<T>, key: T -> nat, k: nat)
    requires k < |s| && UniqueKeys(s, key)
    ensures Find(Without(s, k), key, key(s[k])).None?
  {
    var r := Without(s, k);
    forall j | 0 <= j < |r| ensures key(r[j]) != key(s[k]) {
      assert r[j] == s[if j < k then j else j + 1];
    }
  }

  /** With unique keys, the lookup of a row's key finds that row. */
  lemma FindUnique<T>(s: seq<T>, key: T -> nat, k: nat)
    requires k < |s| && UniqueKeys(s, key)
    ensures Find(s, key, key(s[k])) == Some(k)
  {
  }

  /** Deleting the row just appended gives back the rows before it. */
  lemma WithoutAppended<T>(s: seq<T>, x: T)
    ensures Without(s + [x], |s|) == s
  {
  }
}
