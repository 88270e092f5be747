/**
 * Query sets as the reports use them: a query set is a sequence of records in database
 * order, `filter` keeps the records a condition accepts, and SQL's SUM and AVG are NULL
 * over an empty set. Grouping (`values(...).annotate(...)`) partitions a query set by a key.
 */
module Queries {
  import opened Wrappers

  /** `queryset.filter(...)`: the records `keep` accepts, in their order. */
  function Where<T>(xs: seq<T>, keep: T -> bool): (r: seq<T>)
    ensures |r| <= |xs|
    ensures forall i :: 0 <= i < |r| ==> r[i] in xs && keep(r[i])
    ensures forall i :: 0 <= i < |xs| && keep(xs[i]) ==> xs[i] in r
  {
    if xs == [] then []
    else
      assert xs == xs[..|xs| - 1] + [xs[|xs| - 1]];
      Where(xs[..|xs| - 1], keep) + (if keep(xs[|xs| - 1]) then [xs[|xs| - 1]] else [])
  }

  lemma {:induction false} WhereAppend<T>(xs: seq<T>, x: T, keep: T -> bool)
    ensures Where(xs + [x], keep) == Where(xs, keep) + (if keep(x) then [x] else [])
  {
    assert (xs + [x])[..|xs|] == xs;
  }

  /** A condition every record meets removes nothing. */
  lemma {:induction false} WhereKeepsAll<T>(xs: seq<T>, keep: T -> bool)
    requires forall x :: x in xs ==> keep(x)
    ensures Where(xs, keep) == xs
  {
    if xs != [] {
      WhereKeepsAll(xs[..|xs| - 1], keep);
      assert xs == xs[..|xs| - 1] + [xs[|xs| - 1]];
    }
  }

  /** Two conditions that agree on every record select the same records. */
  lemma {:induction false} WhereSame<T>(xs: seq<T>, p: T -> bool, q: T -> bool)
    requires forall x :: x in xs ==> p(x) == q(x)
    ensures Where(xs, p) == Where(xs, q)
  {
    if xs != [] {
      WhereSame(xs[..|xs| - 1], p, q);
    }
  }

  /** Filtering twice is filtering once by the conjunction of both conditions. */
  lemma {:induction false} WhereThen<T>(xs: seq<T>, p: T -> bool, q: T -> bool, both: T -> bool)
    requires forall x :: both(x) == (p(x) && q(x))
    ensures Where(Where(xs, p), q) == Where(xs, both)
  {
    if xs != [] {
      var init, x := xs[..|xs| - 1], xs[|xs| - 1];
      assert xs == init + [x];
      WhereThen(init, p, q, both);
      WhereAppend(init, x, p);
      WhereAppend(init, x, both);
      if p(x) {
        WhereAppend(Where(init, p), x, q);
      } else {
        assert Where(init, p) + [] == Where(init, p);
        assert Where(init, both) + [] == Where(init, both);
      }
    }
  }

  /** Filtering is idempotent. */
  lemma {:induction false} WhereTwice<T>(xs: seq<T>, keep: T -> bool)
    ensures Where(Where(xs, keep), keep) == Where(xs, keep)
  {
    WhereThen(xs, keep, keep, keep);
  }

  /** A chain of `filter` calls, applied in order. */
  function Chain<T>(xs: seq<T>, steps: seq<T -> bool>): seq<T>
    decreases |steps|
  {
    if steps == [] then xs else Chain(Where(xs, steps[0]), steps[1..])
  }

  /** The conjunction of a chain of conditions. */
  predicate AllHold<T>(steps: seq<T -> bool>, x: T) {
    forall i :: 0 <= i < |steps| ==> steps[i](x)
  }

  /** A chain of filters keeps exactly the records that satisfy every condition, in order. */
  lemma {:induction false} ChainIsConjunction<T>(xs: seq<T>, steps: seq<T -> bool>, all: T -> bool)
    requires forall x :: all(x) == AllHold(steps, x)
    ensures Chain(xs, steps) == Where(xs, all)
    decreases |steps|
  {
    if steps == [] {
      WhereKeepsAll(xs, all);
    } else {
      var rest := steps[1..];
      var restAll := (x: T) => AllHold(rest, x);
      ChainIsConjunction(Where(xs, steps[0]), rest, restAll);
      forall x
        ensures all(x) == (steps[0](x) && restAll(x))
      {
        if steps[0](x) && restAll(x) {
          forall i | 0 <= i < |steps|
            ensures steps[i](x)
          {
            if i > 0 {
              assert steps[i] == rest[i - 1];
            }
          }
        }
        if all(x) {
          forall i | 0 <= i < |rest|
            ensures rest[i](x)
          {
            assert rest[i] == steps[i + 1];
          }
        }
      }
      WhereThen(xs, steps[0], restAll, all);
    }
  }

  /** The sum of a column, 0 over no records. */
  function SumBy<T>(xs: seq<T>, w: T -> real): real {
    if xs == [] then 0.0 else SumBy(xs[..|xs| - 1], w) + w(xs[|xs| - 1])
  }

  lemma {:induction false} SumByPrepend<T>(x: T, xs: seq<T>, w: T -> real)
    ensures SumBy([x] + xs, w) == w(x) + SumBy(xs, w)
  {
    if xs != [] {
      var init := xs[..|xs| - 1];
      assert ([x] + xs)[..|xs|] == [x] + init;
      SumByPrepend(x, init, w);
    }
  }

  /** SQL `SUM(column)`: NULL over no rows. */
  function SqlSum<T>(xs: seq<T>, w: T -> real): (r: Option<real>)
    ensures r.None? <==> xs == []
    ensures r.Some? ==> r.value == SumBy(xs, w)
  {
    if xs == [] then None else Some(SumBy(xs, w))
  }

  /** SQL `AVG(column)`: NULL over no rows, otherwise the sum shared equally. */
  function SqlAvg<T>(xs: seq<T>, w: T -> real): (r: Option<real>)
    ensures r.None? <==> xs == []
    ensures r.Some? ==> r.value * (|xs| as real) == SumBy(xs, w)
  {
    if xs == [] then None else Some(SumBy(xs, w) / (|xs| as real))
  }

  /** Python's `a or b` on a Decimal-or-None `a`: zero and None are both false. */
  function OrElse(a: Option<real>, b: real): real {
    if a.Some? && a.value != 0.0 then a.value else b
  }

  /** The arithmetic mean of a column, zero over no rows. */
  function Mean<T>(xs: seq<T>, w: T -> real): real {
    if xs == [] then 0.0 else SumBy(xs, w) / (|xs| as real)
  }

  /** `Sum(column) or fallback`: a SUM that is NULL or zero gives way to the fallback. */
  lemma SumOr<T>(xs: seq<T>, w: T -> real, fallback: real)
    ensures OrElse(SqlSum(xs, w), fallback) == if SumBy(xs, w) != 0.0 then SumBy(xs, w) else fallback
  {
  }

  /** `Avg(column) or fallback`: an AVG gives way to the fallback exactly when the column sums to zero. */
  lemma AvgOr<T>(xs: seq<T>, w: T -> real, fallback: real)
    ensures OrElse(SqlAvg(xs, w), fallback) == if SumBy(xs, w) != 0.0 then Mean(xs, w) else fallback
  {
    if xs != [] {
      var n := |xs| as real;
      var m := SumBy(xs, w) / n;
      assert m * n == SumBy(xs, w);
    }
  }

  predicate NoDuplicates<K(==)>(ks: seq<K>) {
    forall i, j :: 0 <= i < j < |ks| ==> ks[i] != ks[j]
  }

  /** The distinct keys, in order of first appearance. */
  function Distinct<K(==)>(ks: seq<K>): (r: seq<K>)
    ensures NoDuplicates(r)
    ensures forall i :: 0 <= i < |r| ==> r[i] in ks
    ensures forall i :: 0 <= i < |ks| ==> ks[i] in r
  {
    if ks == [] then []
    else
      var init, k := ks[..|ks| - 1], ks[|ks| - 1];
      assert ks == init + [k];
      var prev := Distinct(init);
      if k in prev then prev else prev + [k]
  }

  /** The key of every record, in order. */
  function KeysOf<T, K>(xs: seq<T>, key: T -> K): (ks: seq<K>)
    ensures |ks| == |xs| && forall i :: 0 <= i < |xs| ==> ks[i] == key(xs[i])
  {
    seq(|xs|, i requires 0 <= i < |xs| => key(xs[i]))
  }

  lemma {:induction false} KeyOfEachRecord<T, K>(xs: seq<T>, key: T -> K, x: T)
    requires x in xs
    ensures key(x) in KeysOf(xs, key)
  {
    var n :| 0 <= n < |xs| && xs[n] == x;
    assert KeysOf(xs, key)[n] == key(x);
  }

  /** Every key that occurs has at least one record. */
  lemma {:induction false} GroupNotEmpty<T, K>(xs: seq<T>, key: T -> K, k: K)
    requires k in KeysOf(xs, key)
    ensures Where(xs, KeyIs(key, k)) != []
  {
    var n :| 0 <= n < |xs| && KeysOf(xs, key)[n] == k;
    assert KeyIs(key, k)(xs[n]);
  }

  /** The condition "the record's key is `k`". */
  function KeyIs<T, K(==)>(key: T -> K, k: K): T -> bool {
    x => key(x) == k
  }

  /** The column sum of each group in `ks`, added up. */
  function GroupSum<T, K(==)>(ks: seq<K>, xs: seq<T>, key: T -> K, w: T -> real): real {
    if ks == [] then 0.0
    else GroupSum(ks[..|ks| - 1], xs, key, w) + SumBy(Where(xs, KeyIs(key, ks[|ks| - 1])), w)
  }

  lemma {:induction false} GroupSumEmpty<T, K>(ks: seq<K>, key: T -> K, w: T -> real)
    ensures GroupSum(ks, [], key, w) == 0.0
  {
    if ks != [] {
      GroupSumEmpty(ks[..|ks| - 1], key, w);
    }
  }

  /** One more record adds its value to the group of its key, if that group is listed. */
  lemma {:induction false} GroupSumAppend<T, K>(ks: seq<K>, xs: seq<T>, x: T, key: T -> K, w: T -> real)
    requires NoDuplicates(ks)
    ensures GroupSum(ks, xs + [x], key, w) == GroupSum(ks, xs, key, w) + (if key(x) in ks then w(x) else 0.0)
  {
    if ks != [] {
      var init, k := ks[..|ks| - 1], ks[|ks| - 1];
      assert ks == init + [k];
      GroupSumAppend(init, xs, x, key, w);
      WhereAppend(xs, x, KeyIs(key, k));
      var before := Where(xs, KeyIs(key, k));
      if key(x) == k {
        assert KeyIs(key, k)(x);
        assert (before + [x])[..|before|] == before;
        assert SumBy(before + [x], w) == SumBy(before, w) + w(x);
        assert key(x) !in init;
      } else {
        assert !KeyIs(key, k)(x);
        assert before + [] == before;
      }
    }
  }

  /**
   * Grouping partitions the records: when every record's key is among the (distinct)
   * groups, the group sums add up to the sum over all records.
   */
  lemma {:induction false} GroupsPartition<T, K>(ks: seq<K>, xs: seq<T>, key: T -> K, w: T -> real)
    requires NoDuplicates(ks)
    requires forall x :: x in xs ==> key(x) in ks
    ensures GroupSum(ks, xs, key, w) == SumBy(xs, w)
  {
    if xs == [] {
      GroupSumEmpty(ks, key, w);
    } else {
      var init, x := xs[..|xs| - 1], xs[|xs| - 1];
      assert xs == init + [x];
      GroupsPartition(ks, init, key, w);
      GroupSumAppend(ks, init, x, key, w);
    }
  }
}
