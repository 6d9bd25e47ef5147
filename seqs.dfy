/** Small facts about sequences used by the store queries. */
module Seqs {
  import opened Wrappers

  /** The first element satisfying `p` (a `findFirst`). */
  function Find<T>(xs: seq<T>, p: T -> bool): (r: Option<T>)
    ensures r.Some? ==> r.value in xs && p(r.value)
    ensures r.None? ==> forall i :: 0 <= i < |xs| ==> !p(xs[i])
  {
    if xs == [] then None
    else if p(xs[0]) then Some(xs[0])
    else Find(xs[1..], p)
  }

  /** The elements satisfying `p`, in order (a `findMany` / `filter`). */
  function Filter<T>(xs: seq<T>, p: T -> bool): (r: seq<T>)
    ensures |r| <= |xs|
    ensures forall i :: 0 <= i < |r| ==> r[i] in xs && p(r[i])
    ensures multiset(r) <= multiset(xs)
  {
    if xs == [] then []
    else
      var rest := Filter(xs[..|xs| - 1], p);
      assert xs == xs[..|xs| - 1] + [xs[|xs| - 1]];
      if p(xs[|xs| - 1]) then rest + [xs[|xs| - 1]] else rest
  }

  /** Every element satisfying `p` is kept. */
  lemma {:induction false} FilterKeeps<T>(xs: seq<T>, p: T -> bool)
    ensures forall i :: 0 <= i < |xs| && p(xs[i]) ==> xs[i] in Filter(xs, p)
  {
    if xs != [] {
      var init := xs[..|xs| - 1];
      FilterKeeps(init, p);
      assert forall i :: 0 <= i < |init| ==> init[i] == xs[i];
    }
  }

  lemma {:induction false} FilterAppend<T>(xs: seq<T>, ys: seq<T>, p: T -> bool)
    ensures Filter(xs + ys, p) == Filter(xs, p) + Filter(ys, p)
    decreases |ys|
  {
    if ys == [] {
      assert xs + ys == xs;
    } else {
      var ys' := ys[..|ys| - 1];
      assert (xs + ys)[..|xs + ys| - 1] == xs + ys';
      assert (xs + ys)[|xs + ys| - 1] == ys[|ys| - 1];
      FilterAppend(xs, ys', p);
    }
  }

  /** Two tests that agree on every element of `xs` select the same elements. */
  lemma {:induction false} FilterSame<T>(xs: seq<T>, p: T -> bool, q: T -> bool)
    requires forall i :: 0 <= i < |xs| ==> p(xs[i]) == q(xs[i])
    ensures Filter(xs, p) == Filter(xs, q)
  {
    if xs != [] {
      var init := xs[..|xs| - 1];
      assert forall i :: 0 <= i < |init| ==> init[i] == xs[i];
      FilterSame(init, p, q);
    }
  }

  predicate Distinct<T(==)>(xs: seq<T>) {
    forall i, j :: 0 <= i < j < |xs| ==> xs[i] != xs[j]
  }

  lemma {:induction false} DistinctCard<T>(xs: seq<T>)
    ensures |set i | 0 <= i < |xs| :: xs[i]| <= |xs|
    ensures |set i | 0 <= i < |xs| :: xs[i]| == |xs| <==> Distinct(xs)
  {
    if xs != [] {
      var init := xs[..|xs| - 1];
      var last := xs[|xs| - 1];
      DistinctCard(init);
      var s := set i | 0 <= i < |xs| :: xs[i];
      var s' := set i | 0 <= i < |init| :: init[i];
      assert s == s' + {last} by {
        forall x | x in s ensures x in s' + {last} {
          var i :| 0 <= i < |xs| && xs[i] == x;
          if i < |init| { assert init[i] == x; }
        }
        forall x | x in s' + {last} ensures x in s {
          if x != last {
            var i :| 0 <= i < |init| && init[i] == x;
            assert xs[i] == x;
          }
        }
      }
      if last in s' {
        var k :| 0 <= k < |init| && init[k] == last;
        assert xs[k] == xs[|xs| - 1];
        assert !Distinct(xs);
      } else {
        assert Distinct(xs) <==> Distinct(init) by {
          if Distinct(init) {
            forall i, j | 0 <= i < j < |xs| ensures xs[i] != xs[j] {
              if j < |init| { assert init[i] == xs[i] && init[j] == xs[j]; }
              else { assert xs[i] == init[i] && init[i] in s'; }
            }
          }
          if Distinct(xs) {
            forall i, j | 0 <= i < j < |init| ensures init[i] != init[j] {
              assert xs[i] == init[i] && xs[j] == init[j];
            }
          }
        }
      }
    }
  }

  lemma {:induction false} SubsetCard<T>(a: set<T>, b: set<T>)
    requires a <= b
    ensures |a| <= |b|
    decreases |b|
  {
    if b != {} {
      var y :| y in b;
      SubsetCard(a - {y}, b - {y});
    }
  }

  /** A lookup that returns one record per distinct listed id finds as many
      records as there are ids exactly when every id was found and no id is listed
      twice: the count checks of the services rest on this. */
  lemma CountCheck<T>(ids: seq<T>, found: set<T>)
    requires found <= set i | 0 <= i < |ids| :: ids[i]
    ensures |found| == |ids| <==> (forall i :: 0 <= i < |ids| ==> ids[i] in found) && Distinct(ids)
  {
    var all := set i | 0 <= i < |ids| :: ids[i];
    DistinctCard(ids);
    if found != all {
      var x :| x in all && x !in found;
      assert found <= all - {x};
      SubsetCard(found, all - {x});
      assert |all - {x}| < |all|;
      var i :| 0 <= i < |ids| && ids[i] == x;
    } else {
      assert forall i :: 0 <= i < |ids| ==> ids[i] in found;
    }
  }
}
