/** Order-preserving filters, prefixes, sums and the stable descending sort that stand for
    `Array.prototype.filter`, `slice(0, n)`, `reduce((a, x) => a + x, 0)` and
    `sort((a, b) => key(b) - key(a))`. */
module Seqs {
  import opened Wrappers

  /** `xs.filter(p)`: the elements satisfying `p`, in their original order. */
  function Filter<T>(xs: seq<T>, p: T -> bool): (r: seq<T>)
    ensures |r| <= |xs|
    ensures forall i :: 0 <= i < |r| ==> r[i] in xs && p(r[i])
    ensures forall i :: 0 <= i < |xs| && p(xs[i]) ==> xs[i] in r
  {
    if |xs| == 0 then []
    else (if p(xs[0]) then [xs[0]] else []) + Filter(xs[1..], p)
  }

  /** Filtering distributes over concatenation, so the filter keeps the input order. */
  lemma {:induction false} FilterAppend<T>(xs: seq<T>, ys: seq<T>, p: T -> bool)
    ensures Filter(xs + ys, p) == Filter(xs, p) + Filter(ys, p)
  {
    if |xs| == 0 {
      assert xs + ys == ys;
    } else {
      assert (xs + ys)[1..] == xs[1..] + ys;
      FilterAppend(xs[1..], ys, p);
    }
  }

  /** Filters by predicates that never hold together share no element. */
  lemma FilterDisjoint<T>(xs: seq<T>, p: T -> bool, q: T -> bool)
    requires forall x :: p(x) ==> !q(x)
    ensures multiset(Filter(xs, p)) * multiset(Filter(xs, q)) == multiset{}
  {
    var a := Filter(xs, p);
    var b := Filter(xs, q);
    forall x | x in multiset(a) ensures x !in multiset(b) {
      var i :| 0 <= i < |a| && a[i] == x;
      assert p(a[i]);
    }
    assert multiset(a) * multiset(b) == multiset{};
  }

  /** Filtering a run with one more element at the end. */
  lemma FilterSnoc<T>(xs: seq<T>, p: T -> bool)
    requires |xs| > 0
    ensures Filter(xs, p) == Filter(xs[..|xs| - 1], p) + (if p(xs[|xs| - 1]) then [xs[|xs| - 1]] else [])
  {
    var front := xs[..|xs| - 1];
    var x := xs[|xs| - 1];
    FilterAppend(front, [x], p);
    assert front + [x] == xs;
    assert Filter([x], p) == (if p(x) then [x] else []) + Filter([], p) by {
      assert [x][1..] == [];
    }
  }

  /** Two filters in a row are one filter by the conjunction. */
  lemma {:induction false} FilterFilter<T>(xs: seq<T>, p: T -> bool, q: T -> bool, both: T -> bool)
    requires forall x :: both(x) == (p(x) && q(x))
    ensures Filter(Filter(xs, p), q) == Filter(xs, both)
  {
    if |xs| > 0 {
      FilterFilter(xs[1..], p, q, both);
      var head: seq<T> := if p(xs[0]) then [xs[0]] else [];
      FilterAppend(head, Filter(xs[1..], p), q);
      assert Filter(head, q) == (if both(xs[0]) then [xs[0]] else []) by {
        if p(xs[0]) {
          assert head[1..] == [];
        }
      }
    }
  }

  /** `xs.findIndex(p)`, with `|xs|` standing for "not found". */
  function FindIndex<T>(xs: seq<T>, p: T -> bool): (i: nat)
    ensures i <= |xs|
    ensures i < |xs| ==> p(xs[i])
    ensures forall j :: 0 <= j < i ==> !p(xs[j])
  {
    if |xs| == 0 || p(xs[0]) then 0 else 1 + FindIndex(xs[1..], p)
  }

  /** `find` looks only at whether each element passes, so two lists that agree on that
      find at the same index. */
  lemma FindIndexAgree<T, U>(xs: seq<T>, ys: seq<U>, p: T -> bool, q: U -> bool)
    requires |xs| == |ys|
    requires forall k :: 0 <= k < |xs| ==> p(xs[k]) == q(ys[k])
    ensures FindIndex(xs, p) == FindIndex(ys, q)
  {
    var i, j := FindIndex(xs, p), FindIndex(ys, q);
    assert i < |xs| ==> q(ys[i]);
    assert j < |ys| ==> p(xs[j]);
  }

  /** `find` on a list with one more element at the end finds what it found before, or else
      the new element if it passes. */
  lemma FindIndexSnoc<T>(xs: seq<T>, y: T, p: T -> bool)
    ensures FindIndex(xs + [y], p)
            == if FindIndex(xs, p) < |xs| then FindIndex(xs, p) else if p(y) then |xs| else |xs| + 1
  {
    var zs := xs + [y];
    FindIndexAgree(xs, zs[..|xs|], p, p);
    var i, j := FindIndex(xs, p), FindIndex(zs, p);
    assert i < |xs| ==> p(zs[i]);
    assert j < |xs| ==> p(xs[j]);
  }

  /** `find` agrees with the head of the filter: it finds nothing exactly when the filter is
      empty, and otherwise the filter's first element. */
  lemma {:induction false} FindIndexFilter<T>(xs: seq<T>, p: T -> bool)
    ensures FindIndex(xs, p) == |xs| <==> Filter(xs, p) == []
    ensures FindIndex(xs, p) < |xs| ==> Filter(xs, p)[0] == xs[FindIndex(xs, p)]
  {
    if |xs| > 0 && !p(xs[0]) {
      FindIndexFilter(xs[1..], p);
      FilterCons(xs[0], xs[1..], p);
      assert [xs[0]] + xs[1..] == xs;
    } else if |xs| > 0 {
      FilterCons(xs[0], xs[1..], p);
      assert [xs[0]] + xs[1..] == xs;
    }
  }

  /** Filtering a non-increasing sequence leaves it non-increasing. */
  lemma {:induction false} FilterSorted<T>(xs: seq<T>, p: T -> bool, key: T -> real)
    requires SortedDesc(xs, key)
    ensures SortedDesc(Filter(xs, p), key)
  {
    if |xs| > 0 {
      var tail := xs[1..];
      SortedTail(xs, key);
      FilterSorted(tail, p, key);
      if p(xs[0]) {
        FilterBounded(tail, p, key, key(xs[0]));
        SortedCons(xs[0], Filter(tail, p), key);
      }
    }
  }

  lemma SortedTail<T>(xs: seq<T>, key: T -> real)
    requires |xs| > 0 && SortedDesc(xs, key)
    ensures SortedDesc(xs[1..], key)
    ensures forall k :: 0 <= k < |xs| - 1 ==> key(xs[0]) >= key(xs[1..][k])
  {
    var tail := xs[1..];
    assert forall i :: 0 <= i < |tail| ==> tail[i] == xs[i + 1];
  }

  /** A bound on every key survives a filter. */
  lemma FilterBounded<T>(xs: seq<T>, p: T -> bool, key: T -> real, b: real)
    requires forall k :: 0 <= k < |xs| ==> b >= key(xs[k])
    ensures forall k :: 0 <= k < |Filter(xs, p)| ==> b >= key(Filter(xs, p)[k])
  {
    var r := Filter(xs, p);
    forall k | 0 <= k < |r| ensures b >= key(r[k]) {
      var j :| 0 <= j < |xs| && xs[j] == r[k];
    }
  }

  lemma SortedCons<T>(x: T, ys: seq<T>, key: T -> real)
    requires SortedDesc(ys, key)
    requires forall k :: 0 <= k < |ys| ==> key(x) >= key(ys[k])
    ensures SortedDesc([x] + ys, key)
  {
    var zs := [x] + ys;
    forall i, j | 0 <= i < j < |zs| ensures key(zs[i]) >= key(zs[j]) {
      assert zs[j] == ys[j - 1];
      if i > 0 {
        assert zs[i] == ys[i - 1];
      }
    }
  }

  /** A filter that keeps every element is the identity. */
  lemma {:induction false} FilterAll<T>(xs: seq<T>, p: T -> bool)
    requires forall i :: 0 <= i < |xs| ==> p(xs[i])
    ensures Filter(xs, p) == xs
  {
    if |xs| > 0 {
      FilterAll(xs[1..], p);
    }
  }

  function Min(a: nat, b: nat): nat
  {
    if a < b then a else b
  }

  /** `xs.slice(0, n)`: the first `n` elements, or all of them when there are fewer. */
  function Take<T>(xs: seq<T>, n: nat): (r: seq<T>)
    ensures |r| == Min(n, |xs|)
    ensures r == xs[..|r|]
  {
    if |xs| <= n then xs else xs[..n]
  }

  /** The elements of `xs` mapped through `f`, index by index (`xs.map(f)`). */
  function MapSeq<T, U>(xs: seq<T>, f: T -> U): (r: seq<U>)
    ensures |r| == |xs|
    ensures forall i :: 0 <= i < |xs| ==> r[i] == f(xs[i])
  {
    seq(|xs|, i requires 0 <= i < |xs| => f(xs[i]))
  }

  /** Sum of `f` over `xs`, left to right. */
  function SumOf<T>(xs: seq<T>, f: T -> real): real
  {
    if |xs| == 0 then 0.0 else f(xs[0]) + SumOf(xs[1..], f)
  }

  lemma {:induction false} SumOfAppend<T>(xs: seq<T>, ys: seq<T>, f: T -> real)
    ensures SumOf(xs + ys, f) == SumOf(xs, f) + SumOf(ys, f)
  {
    if |xs| == 0 {
      assert xs + ys == ys;
    } else {
      assert (xs + ys)[1..] == xs[1..] + ys;
      SumOfAppend(xs[1..], ys, f);
    }
  }

  /** Scaling every term scales the sum. */
  lemma {:induction false} SumOfScale<T>(xs: seq<T>, f: T -> real, g: T -> real, c: real)
    requires forall i :: 0 <= i < |xs| ==> g(xs[i]) == f(xs[i]) * c
    ensures SumOf(xs, g) == SumOf(xs, f) * c
  {
    if |xs| > 0 {
      SumOfScale(xs[1..], f, g, c);
    }
  }

  /** Replacing one element changes a sum by the difference at that element. */
  lemma {:induction false} SumOfUpdate<T>(xs: seq<T>, i: nat, y: T, f: T -> real)
    requires i < |xs|
    ensures SumOf(xs[i := y], f) == SumOf(xs, f) - f(xs[i]) + f(y)
  {
    if i > 0 {
      SumOfUpdate(xs[1..], i - 1, y, f);
      assert xs[i := y][1..] == xs[1..][i - 1 := y];
    } else {
      assert xs[i := y][1..] == xs[1..];
    }
  }

  /** A sum over mapped elements is a sum over the originals of the composed measure. */
  lemma {:induction false} SumOfMap<T, U>(xs: seq<T>, f: T -> U, g: U -> real, h: T -> real)
    requires forall i :: 0 <= i < |xs| ==> h(xs[i]) == g(f(xs[i]))
    ensures SumOf(MapSeq(xs, f), g) == SumOf(xs, h)
  {
    if |xs| > 0 {
      assert MapSeq(xs, f)[1..] == MapSeq(xs[1..], f);
      assert forall i :: 0 <= i < |xs[1..]| ==> xs[1..][i] == xs[i + 1];
      SumOfMap(xs[1..], f, g, h);
    }
  }

  /** A sum is monotone in its terms. */
  lemma {:induction false} SumOfLe<T>(xs: seq<T>, f: T -> real, g: T -> real)
    requires forall i :: 0 <= i < |xs| ==> f(xs[i]) <= g(xs[i])
    ensures SumOf(xs, f) <= SumOf(xs, g)
  {
    if |xs| > 0 {
      assert forall i :: 0 <= i < |xs[1..]| ==> xs[1..][i] == xs[i + 1];
      SumOfLe(xs[1..], f, g);
    }
  }

  /** A sum of non-negative terms is non-negative. */
  lemma {:induction false} SumOfNonNeg<T>(xs: seq<T>, f: T -> real)
    requires forall i :: 0 <= i < |xs| ==> 0.0 <= f(xs[i])
    ensures 0.0 <= SumOf(xs, f)
  {
    if |xs| > 0 {
      assert forall i :: 0 <= i < |xs[1..]| ==> xs[1..][i] == xs[i + 1];
      SumOfNonNeg(xs[1..], f);
    }
  }

  /** A sequence without repeats has as many distinct elements as it has elements. */
  lemma {:induction false} DistinctSetSize<T>(xs: seq<T>)
    requires forall i, j :: 0 <= i < j < |xs| ==> xs[i] != xs[j]
    ensures |(set i | 0 <= i < |xs| :: xs[i])| == |xs|
  {
    if |xs| > 0 {
      var front := xs[..|xs| - 1];
      DistinctSetSize(front);
      var a := set i | 0 <= i < |front| :: front[i];
      assert (set i | 0 <= i < |xs| :: xs[i]) == a + {xs[|xs| - 1]} by {
        assert forall i :: 0 <= i < |front| ==> front[i] == xs[i];
      }
      assert xs[|xs| - 1] !in a;
    }
  }

  /** Dropping repeats keeps one copy of each distinct element. */
  lemma DedupSize<T>(xs: seq<T>)
    ensures |(set i | 0 <= i < |xs| :: xs[i])| == |Dedup(xs)|
  {
    var d := Dedup(xs);
    DistinctSetSize(d);
    var a := set i | 0 <= i < |xs| :: xs[i];
    var b := set i | 0 <= i < |d| :: d[i];
    forall x | x in a ensures x in b {
      var i :| 0 <= i < |xs| && xs[i] == x;
      assert xs[i] in d;
    }
    forall x | x in b ensures x in a {
      var i :| 0 <= i < |d| && d[i] == x;
      assert d[i] in xs;
    }
    assert a == b;
  }

  /** A left-to-right pass that threads a state through `xs` and collects, in order, what
      each step emits. */
  function Scan<S, X, Y>(step: (S, X) -> (S, seq<Y>), s0: S, xs: seq<X>): (S, seq<Y>)
  {
    if |xs| == 0 then (s0, [])
    else
      var before := Scan(step, s0, xs[..|xs| - 1]);
      var last := step(before.0, xs[|xs| - 1]);
      (last.0, before.1 + last.1)
  }

  /** A pass over two runs is the pass over the first followed by the pass over the second,
      started from the state the first left behind. */
  lemma {:induction false} ScanAppend<S, X, Y>(step: (S, X) -> (S, seq<Y>), s0: S, xs: seq<X>, ys: seq<X>)
    ensures Scan(step, s0, xs + ys).0 == Scan(step, Scan(step, s0, xs).0, ys).0
    ensures Scan(step, s0, xs + ys).1 == Scan(step, s0, xs).1 + Scan(step, Scan(step, s0, xs).0, ys).1
  {
    if |ys| == 0 {
      assert xs + ys == xs;
    } else {
      var zs := xs + ys;
      var ys' := ys[..|ys| - 1];
      assert zs[..|zs| - 1] == xs + ys';
      assert zs[|zs| - 1] == ys[|ys| - 1];
      ScanAppend(step, s0, xs, ys');
    }
  }

  /** The last element of `xs` that satisfies `p`, if there is one. */
  function LastOf<T>(xs: seq<T>, p: T -> bool): Option<T>
  {
    var f := Filter(xs, p);
    if |f| == 0 then None else Some(f[|f| - 1])
  }

  /** Scanning one more element: it is the last match if it matches, and otherwise the last
      match is the one before. */
  lemma LastOfSnoc<T>(xs: seq<T>, x: T, p: T -> bool)
    ensures LastOf(xs + [x], p) == if p(x) then Some(x) else LastOf(xs, p)
  {
    FilterAppend(xs, [x], p);
    assert Filter([x], p) == (if p(x) then [x] else []) by {
      assert [x][1..] == [];
    }
  }

  /** What a run of elements builds up on its own, in the manner of one entry of a
      `reduce` accumulator: nothing for the empty run, and otherwise `step` applied to what
      the run before the last element built and that element. */
  function Accumulate<T, V>(xs: seq<T>, step: (Option<V>, T) -> V): (r: Option<V>)
    ensures r.None? <==> |xs| == 0
  {
    if |xs| == 0 then None
    else Some(step(Accumulate(xs[..|xs| - 1], step), xs[|xs| - 1]))
  }

  lemma AccumulateSnoc<T, V>(xs: seq<T>, x: T, step: (Option<V>, T) -> V)
    ensures Accumulate(xs + [x], step) == Some(step(Accumulate(xs, step), x))
  {
    assert (xs + [x])[..|xs|] == xs;
  }

  /** A field that every step either assigns from the element (when `p` holds) or carries
      over ends up holding the value of the last element that assigned it, or `init` when no
      element did. */
  lemma {:induction false} AccumulateLastWins<T, V, U>(xs: seq<T>, step: (Option<V>, T) -> V,
                                                      field: V -> U, p: T -> bool, g: T -> U, init: U)
    requires forall o, x :: field(step(o, x)) == if p(x) then g(x) else MapOr(o, field, init)
    ensures MapOr(Accumulate(xs, step), field, init) == MapOr(LastOf(xs, p), g, init)
  {
    if |xs| > 0 {
      var front := xs[..|xs| - 1];
      var x := xs[|xs| - 1];
      assert xs == front + [x];
      AccumulateLastWins(front, step, field, p, g, init);
      LastOfSnoc(front, x, p);
    }
  }

  /** A field that the first step sets from its element and later steps carry over keeps
      the first element's value. */
  lemma {:induction false} AccumulateFirst<T, V, U>(xs: seq<T>, step: (Option<V>, T) -> V,
                                                   field: V -> U, g: T -> U)
    requires |xs| > 0
    requires forall x :: field(step(None, x)) == g(x)
    requires forall v, x :: field(step(Some(v), x)) == field(v)
    ensures field(Accumulate(xs, step).value) == g(xs[0])
  {
    if |xs| > 1 {
      AccumulateFirst(xs[..|xs| - 1], step, field, g);
    }
  }

  /** A measure that every step raises by the element's weight ends up as the total weight. */
  lemma {:induction false} AccumulateSum<T, V>(xs: seq<T>, step: (Option<V>, T) -> V, m: V -> real, w: T -> real)
    requires forall i, o :: 0 <= i < |xs| ==> m(step(o, xs[i])) == MapOr(o, m, 0.0) + w(xs[i])
    ensures MapOr(Accumulate(xs, step), m, 0.0) == SumOf(xs, w)
  {
    if |xs| > 0 {
      var front := xs[..|xs| - 1];
      var x := xs[|xs| - 1];
      assert xs == front + [x];
      assert forall i, o :: 0 <= i < |front| ==> m(step(o, front[i])) == MapOr(o, m, 0.0) + w(front[i]) by {
        assert forall i :: 0 <= i < |front| ==> front[i] == xs[i];
      }
      AccumulateSum(front, step, m, w);
      SumOfAppend(front, [x], w);
      assert SumOf([x], w) == w(x) by {
        assert [x][1..] == [];
      }
    }
  }

  /** A property that every step over an admissible element establishes, given it of what
      came before, holds of what a run of admissible elements builds. */
  lemma {:induction false} AccumulateInvariant<T, V>(xs: seq<T>, step: (Option<V>, T) -> V, ok: T -> bool, inv: V -> bool)
    requires forall i :: 0 <= i < |xs| ==> ok(xs[i])
    requires forall o, x :: ok(x) && MapOr(o, inv, true) ==> inv(step(o, x))
    ensures MapOr(Accumulate(xs, step), inv, true)
  {
    if |xs| > 0 {
      var front := xs[..|xs| - 1];
      assert forall i :: 0 <= i < |front| ==> front[i] == xs[i];
      AccumulateInvariant(front, step, ok, inv);
      assert ok(xs[|xs| - 1]);
    }
  }

  function Identity(x: real): real
  {
    x
  }

  /** Sum of a sequence of numbers. */
  function Sum(xs: seq<real>): real
  {
    SumOf(xs, Identity)
  }

  /** `xs` is non-increasing by `key`. */
  predicate SortedDesc<T>(xs: seq<T>, key: T -> real)
  {
    forall i, j :: 0 <= i < j < |xs| ==> key(xs[i]) >= key(xs[j])
  }

  /** The first `n` elements of a non-increasing sequence are non-increasing and are drawn
      from it. */
  lemma TakeSortedDesc<T>(xs: seq<T>, n: nat, key: T -> real)
    requires SortedDesc(xs, key)
    ensures SortedDesc(Take(xs, n), key)
    ensures multiset(Take(xs, n)) <= multiset(xs)
  {
    var r := Take(xs, n);
    assert xs == r + xs[|r|..];
  }

  /** Insert `x` into the non-increasing `ys` before the first element whose key is not
      greater than its own, so that `x` precedes the elements of equal key. */
  function InsertDesc<T>(x: T, ys: seq<T>, key: T -> real): (r: seq<T>)
    requires SortedDesc(ys, key)
    ensures SortedDesc(r, key)
    ensures multiset(r) == multiset(ys) + multiset{x}
    ensures |r| == |ys| + 1
    ensures r[0] == x || (|ys| > 0 && r[0] == ys[0])
  {
    if |ys| == 0 || key(x) >= key(ys[0]) then [x] + ys
    else
      var rest := InsertDesc(x, ys[1..], key);
      assert key(ys[0]) >= key(rest[0]);
      assert forall k :: 0 <= k < |rest| ==> key(rest[0]) >= key(rest[k]);
      assert ys == [ys[0]] + ys[1..];
      [ys[0]] + rest
  }

  /** The stable sort `xs.sort((a, b) => key(b) - key(a))`: a non-increasing
      permutation of `xs`. */
  function SortDesc<T>(xs: seq<T>, key: T -> real): (r: seq<T>)
    ensures SortedDesc(r, key)
    ensures multiset(r) == multiset(xs)
    ensures |r| == |xs|
  {
    if |xs| == 0 then []
    else
      assert xs == [xs[0]] + xs[1..];
      InsertDesc(xs[0], SortDesc(xs[1..], key), key)
  }

  /** The elements whose key is `c`. */
  function KeyIs<T>(key: T -> real, c: real): T -> bool
  {
    x => key(x) == c
  }

  lemma FilterCons<T>(y: T, ys: seq<T>, p: T -> bool)
    ensures Filter([y] + ys, p) == (if p(y) then [y] else []) + Filter(ys, p)
  {
    assert ([y] + ys)[1..] == ys;
  }

  lemma InsertDescStep<T>(x: T, ys: seq<T>, key: T -> real)
    requires SortedDesc(ys, key)
    requires |ys| > 0 && key(x) < key(ys[0])
    ensures InsertDesc(x, ys, key) == [ys[0]] + InsertDesc(x, ys[1..], key)
  {
  }

  /** Of two runs at most one of which is non-empty, either may go first. */
  lemma SwapEmpty<T>(a: seq<T>, b: seq<T>, r: seq<T>)
    requires a == [] || b == []
    ensures a + (b + r) == b + (a + r)
  {
    if a == [] {
      assert a + (b + r) == b + r;
      assert a + r == r;
    } else {
      assert b + (a + r) == a + r;
      assert b + r == r;
    }
  }

  lemma {:induction false} InsertDescKeyClass<T>(x: T, ys: seq<T>, key: T -> real, c: real)
    requires SortedDesc(ys, key)
    ensures Filter(InsertDesc(x, ys, key), KeyIs(key, c))
            == (if key(x) == c then [x] else []) + Filter(ys, KeyIs(key, c))
  {
    var p := KeyIs(key, c);
    var mine: seq<T> := if key(x) == c then [x] else [];
    if |ys| == 0 || key(x) >= key(ys[0]) {
      FilterCons(x, ys, p);
    } else {
      var rest := InsertDesc(x, ys[1..], key);
      InsertDescStep(x, ys, key);
      InsertDescKeyClass(x, ys[1..], key, c);
      FilterCons(ys[0], rest, p);
      assert ys == [ys[0]] + ys[1..];
      FilterCons(ys[0], ys[1..], p);
      var head: seq<T> := if p(ys[0]) then [ys[0]] else [];
      SwapEmpty(head, mine, Filter(ys[1..], p));
      calc {
        Filter(InsertDesc(x, ys, key), p);
        head + Filter(rest, p);
        head + (mine + Filter(ys[1..], p));
        mine + (head + Filter(ys[1..], p));
        mine + Filter(ys, p);
      }
    }
  }

  /** The sort is stable: the elements sharing any one key keep their input order. */
  lemma {:induction false} SortDescStable<T>(xs: seq<T>, key: T -> real, c: real)
    ensures Filter(SortDesc(xs, key), KeyIs(key, c)) == Filter(xs, KeyIs(key, c))
  {
    if |xs| > 0 {
      SortDescStable(xs[1..], key, c);
      InsertDescKeyClass(xs[0], SortDesc(xs[1..], key), key, c);
    }
  }

  /** Sorting records by a key and then reading the keys gives the sorted keys, so two
      parallel lists sorted separately stay index-aligned. */
  lemma {:induction false} SortDescKeys<T>(xs: seq<T>, key: T -> real)
    ensures MapSeq(SortDesc(xs, key), key) == SortDesc(MapSeq(xs, key), Identity)
  {
    if |xs| > 0 {
      SortDescKeys(xs[1..], key);
      assert MapSeq(xs, key)[1..] == MapSeq(xs[1..], key);
      InsertDescKeys(xs[0], SortDesc(xs[1..], key), key);
    }
  }

  lemma {:induction false} InsertDescKeys<T>(x: T, ys: seq<T>, key: T -> real)
    requires SortedDesc(ys, key)
    ensures SortedDesc(MapSeq(ys, key), Identity)
    ensures MapSeq(InsertDesc(x, ys, key), key) == InsertDesc(key(x), MapSeq(ys, key), Identity)
  {
    if |ys| > 0 && key(x) < key(ys[0]) {
      assert MapSeq(ys, key)[1..] == MapSeq(ys[1..], key);
      InsertDescKeys(x, ys[1..], key);
    }
  }

  /** Sorting does not change a sum over the elements. */
  lemma {:induction false} SortDescSum<T>(xs: seq<T>, key: T -> real, f: T -> real)
    ensures SumOf(SortDesc(xs, key), f) == SumOf(xs, f)
  {
    if |xs| > 0 {
      SortDescSum(xs[1..], key, f);
      InsertDescSum(xs[0], SortDesc(xs[1..], key), key, f);
    }
  }

  lemma {:induction false} InsertDescSum<T>(x: T, ys: seq<T>, key: T -> real, f: T -> real)
    requires SortedDesc(ys, key)
    ensures SumOf(InsertDesc(x, ys, key), f) == f(x) + SumOf(ys, f)
  {
    if |ys| > 0 && key(x) < key(ys[0]) {
      var r := InsertDesc(x, ys, key);
      assert r[1..] == InsertDesc(x, ys[1..], key);
      InsertDescSum(x, ys[1..], key, f);
    } else {
      assert ([x] + ys)[1..] == ys;
    }
  }

  /** The first `n` of a non-increasing sequence dominate the rest: every element left out
      has a key no greater than any element kept. */
  lemma TakeSortedDominates<T>(xs: seq<T>, key: T -> real, n: nat)
    ensures var s := SortDesc(xs, key);
            forall i, j :: 0 <= i < |Take(s, n)| <= j < |s| ==> key(s[i]) >= key(s[j])
  {
  }

  /** The distinct elements of `xs` in order of first occurrence. */
  function Dedup<T(==)>(xs: seq<T>): (r: seq<T>)
    ensures forall i :: 0 <= i < |r| ==> r[i] in xs
    ensures forall i :: 0 <= i < |xs| ==> xs[i] in r
    ensures forall i, j :: 0 <= i < j < |r| ==> r[i] != r[j]
    ensures |r| <= |xs|
  {
    if |xs| == 0 then []
    else
      var d := Dedup(xs[..|xs| - 1]);
      assert xs == xs[..|xs| - 1] + [xs[|xs| - 1]];
      if xs[|xs| - 1] in d then d else d + [xs[|xs| - 1]]
  }
}
