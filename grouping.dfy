/** Grouping a list of rows by a key and summing a weight per group: the shape
    shared by the weekly timesheet summary and the per-status task counts. */
module Grouping {
  import opened Seqs

  /** The sum of `w` over the rows (a `reduce((sum, x) => sum + w(x), 0)`). */
  function Total<T>(xs: seq<T>, w: T -> nat): nat {
    if xs == [] then 0 else Total(xs[..|xs| - 1], w) + w(xs[|xs| - 1])
  }

  /** The rows whose key is `k`, in order. */
  function Only<T, K(==)>(xs: seq<T>, key: T -> K, k: K): seq<T> {
    Filter(xs, x => key(x) == k)
  }

  /** The distinct keys of the rows, in order of first occurrence (the key order
      of a JavaScript object filled by a `forEach`). */
  function KeysOf<T, K(==)>(xs: seq<T>, key: T -> K): (ks: seq<K>)
    ensures Distinct(ks)
  {
    if xs == [] then []
    else
      var ks := KeysOf(xs[..|xs| - 1], key);
      if key(xs[|xs| - 1]) in ks then ks else ks + [key(xs[|xs| - 1])]
  }

  /** The keys are exactly the keys of the rows. */
  lemma {:induction false} KeysOfMembers<T, K(!new)>(xs: seq<T>, key: T -> K)
    ensures forall k :: k in KeysOf(xs, key) <==> exists i :: 0 <= i < |xs| && key(xs[i]) == k
  {
    if xs != [] {
      var init := xs[..|xs| - 1];
      KeysOfMembers(init, key);
      assert forall i :: 0 <= i < |init| ==> init[i] == xs[i];
      forall k | exists i :: 0 <= i < |xs| && key(xs[i]) == k
        ensures k in KeysOf(xs, key)
      {
        var i :| 0 <= i < |xs| && key(xs[i]) == k;
        if i < |init| {
          assert key(init[i]) == k;
        }
      }
    }
  }

  /** The sum of the group totals over the keys `ks`. */
  function SumGroups<T, K(==)>(xs: seq<T>, key: T -> K, ks: seq<K>, w: T -> nat): nat {
    if ks == [] then 0 else Total(Only(xs, key, ks[0]), w) + SumGroups(xs, key, ks[1..], w)
  }

  lemma TotalSnoc<T>(xs: seq<T>, x: T, w: T -> nat)
    ensures Total(xs + [x], w) == Total(xs, w) + w(x)
  {
    assert (xs + [x])[..|xs + [x]| - 1] == xs;
  }

  lemma OnlySnoc<T, K>(xs: seq<T>, x: T, key: T -> K, k: K)
    ensures Only(xs + [x], key, k) == Only(xs, key, k) + (if key(x) == k then [x] else [])
  {
    assert (xs + [x])[..|xs + [x]| - 1] == xs;
  }

  lemma KeysOfSnoc<T, K>(xs: seq<T>, x: T, key: T -> K)
    ensures KeysOf(xs + [x], key) ==
      (if key(x) in KeysOf(xs, key) then KeysOf(xs, key) else KeysOf(xs, key) + [key(x)])
  {
    assert (xs + [x])[..|xs + [x]| - 1] == xs;
  }

  lemma {:induction false} SumGroupsSnoc<T, K>(xs: seq<T>, x: T, key: T -> K, ks: seq<K>, w: T -> nat)
    requires Distinct(ks)
    ensures SumGroups(xs + [x], key, ks, w) == SumGroups(xs, key, ks, w) + (if key(x) in ks then w(x) else 0)
  {
    if ks != [] {
      OnlySnoc(xs, x, key, ks[0]);
      TotalSnoc(Only(xs, key, ks[0]), x, w);
      assert Distinct(ks[1..]);
      SumGroupsSnoc(xs, x, key, ks[1..], w);
      assert key(x) in ks <==> key(x) == ks[0] || key(x) in ks[1..] by { assert ks == [ks[0]] + ks[1..]; }
      assert key(x) == ks[0] ==> key(x) !in ks[1..];
    }
  }

  /** Every row lands in exactly one group, so the group totals add up to the
      total over all rows. */
  lemma {:induction false} GroupsPartitionTotal<T, K>(xs: seq<T>, key: T -> K, ks: seq<K>, w: T -> nat)
    requires Distinct(ks)
    requires forall i :: 0 <= i < |xs| ==> key(xs[i]) in ks
    ensures SumGroups(xs, key, ks, w) == Total(xs, w)
  {
    if xs == [] {
      EmptyGroups(key, ks, w);
    } else {
      var init, x := xs[..|xs| - 1], xs[|xs| - 1];
      assert xs == init + [x];
      assert forall i :: 0 <= i < |init| ==> init[i] == xs[i];
      GroupsPartitionTotal(init, key, ks, w);
      SumGroupsSnoc(init, x, key, ks, w);
    }
  }

  lemma {:induction false} EmptyGroups<T, K>(key: T -> K, ks: seq<K>, w: T -> nat)
    ensures SumGroups([], key, ks, w) == 0
  {
    if ks != [] { EmptyGroups(key, ks[1..], w); }
  }

  /** Summing a smaller weight gives a smaller total (billable <= total). */
  lemma {:induction false} TotalMonotone<T>(xs: seq<T>, small: T -> nat, big: T -> nat)
    requires forall i :: 0 <= i < |xs| ==> small(xs[i]) <= big(xs[i])
    ensures Total(xs, small) <= Total(xs, big)
  {
    if xs != [] {
      var init := xs[..|xs| - 1];
      assert forall i :: 0 <= i < |init| ==> init[i] == xs[i];
      TotalMonotone(init, small, big);
    }
  }

  /** A row is in the group of exactly its own key. */
  lemma InOnlyIff<T, K>(xs: seq<T>, key: T -> K, k: K, i: nat)
    requires i < |xs|
    ensures xs[i] in Only(xs, key, k) <==> key(xs[i]) == k
  {
    FilterKeeps(xs, x => key(x) == k);
  }

  /** Every row's key is among the keys. */
  lemma KeysOfCovers<T, K(!new)>(xs: seq<T>, key: T -> K)
    ensures forall i :: 0 <= i < |xs| ==> key(xs[i]) in KeysOf(xs, key)
  {
    KeysOfMembers(xs, key);
    var ks := KeysOf(xs, key);
    forall i | 0 <= i < |xs| ensures key(xs[i]) in ks {
      var k := key(xs[i]);
      assert exists j :: 0 <= j < |xs| && key(xs[j]) == k;
    }
  }

  /** Every key is the key of some row. */
  lemma KeysOfSound<T, K(!new)>(xs: seq<T>, key: T -> K, j: nat)
    requires j < |KeysOf(xs, key)|
    ensures exists i :: 0 <= i < |xs| && key(xs[i]) == KeysOf(xs, key)[j]
  {
    KeysOfMembers(xs, key);
    assert KeysOf(xs, key)[j] in KeysOf(xs, key);
  }

  /** Selecting the rows of one key and then of another gives the same rows in
      either order. */
  lemma {:induction false} OnlyCommute<T, K1, K2>(xs: seq<T>, k1: T -> K1, a: K1, k2: T -> K2, b: K2)
    ensures Only(Only(xs, k1, a), k2, b) == Only(Only(xs, k2, b), k1, a)
  {
    if xs != [] {
      var init, x := xs[..|xs| - 1], xs[|xs| - 1];
      assert xs == init + [x];
      OnlyCommute(init, k1, a, k2, b);
      OnlySnoc(init, x, k1, a);
      OnlySnoc(init, x, k2, b);
      OnlySnoc(Only(init, k1, a), x, k2, b);
      OnlySnoc(Only(init, k2, b), x, k1, a);
    }
  }
}
