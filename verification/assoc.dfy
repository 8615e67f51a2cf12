/** Insertion-ordered dictionaries: the model of a JavaScript object used as a
    `Record<string, V>` accumulator, where `Object.entries` and `Object.values` list the keys
    in the order they were first assigned. */
module Assoc {
  import opened Wrappers
  import Seqs

  function Keys<K, V>(xs: seq<(K, V)>): (ks: seq<K>)
    ensures |ks| == |xs|
    ensures forall i :: 0 <= i < |xs| ==> ks[i] == xs[i].0
  {
    if |xs| == 0 then [] else [xs[0].0] + Keys(xs[1..])
  }

  /** `Object.values(xs)` */
  function Values<K, V>(xs: seq<(K, V)>): (vs: seq<V>)
    ensures |vs| == |xs|
    ensures forall i :: 0 <= i < |xs| ==> vs[i] == xs[i].1
  {
    seq(|xs|, i requires 0 <= i < |xs| => xs[i].1)
  }

  /** No key occurs twice. */
  predicate DistinctKeys<K(==), V>(xs: seq<(K, V)>)
  {
    forall i, j :: 0 <= i < j < |xs| ==> xs[i].0 != xs[j].0
  }

  /** `xs[k]`: the value stored under `k`, if any. */
  function Get<K(==), V>(xs: seq<(K, V)>, k: K): (r: Option<V>)
    ensures r.None? <==> k !in Keys(xs)
    ensures r.Some? ==> (k, r.value) in xs
  {
    if |xs| == 0 then None
    else if xs[0].0 == k then Some(xs[0].1)
    else
      assert Keys(xs) == [xs[0].0] + Keys(xs[1..]);
      Get(xs[1..], k)
  }

  /** With distinct keys, the value found under a key is the one stored beside it. */
  lemma {:induction false} GetAt<K, V>(xs: seq<(K, V)>, i: nat)
    requires DistinctKeys(xs)
    requires i < |xs|
    ensures Get(xs, xs[i].0) == Some(xs[i].1)
  {
    if i > 0 {
      assert xs[1..][i - 1] == xs[i];
      GetAt(xs[1..], i - 1);
    }
  }

  /** `xs[k] = v`: overwrites the value in place when `k` is present and appends the pair
      otherwise, so the key order is the order of first assignment. */
  function Put<K(==), V>(xs: seq<(K, V)>, k: K, v: V): (r: seq<(K, V)>)
    ensures Get(r, k) == Some(v)
    ensures k in Keys(xs) ==> Keys(r) == Keys(xs)
    ensures k !in Keys(xs) ==> Keys(r) == Keys(xs) + [k]
  {
    if |xs| == 0 then [(k, v)]
    else if xs[0].0 == k then
      KeysCons(xs[0], xs[1..]);
      KeysCons((k, v), xs[1..]);
      [(k, v)] + xs[1..]
    else
      var rest := Put(xs[1..], k, v);
      KeysCons(xs[0], xs[1..]);
      KeysCons(xs[0], rest);
      ConsSnoc(xs[0].0, Keys(xs[1..]), k);
      [xs[0]] + rest
  }

  lemma ConsSnoc<T>(a: T, b: seq<T>, c: T)
    ensures [a] + (b + [c]) == [a] + b + [c]
    ensures c in [a] + b <==> c == a || c in b
  {
  }

  lemma KeysCons<K, V>(x: (K, V), xs: seq<(K, V)>)
    ensures Keys([x] + xs) == [x.0] + Keys(xs)
    ensures Get([x] + xs, x.0) == Some(x.1)
    ensures forall k :: k != x.0 ==> Get([x] + xs, k) == Get(xs, k)
  {
    assert ([x] + xs)[1..] == xs;
  }

  /** Assigning never introduces a second copy of a key. */
  lemma PutDistinct<K, V>(xs: seq<(K, V)>, k: K, v: V)
    requires DistinctKeys(xs)
    ensures DistinctKeys(Put(xs, k, v))
  {
    var r := Put(xs, k, v);
    assert forall i :: 0 <= i < |r| ==> r[i].0 == Keys(r)[i];
    assert forall i :: 0 <= i < |xs| ==> xs[i].0 == Keys(xs)[i];
  }

  /** Assigning one key leaves every other key's value as it was. */
  lemma {:induction false} PutOther<K, V>(xs: seq<(K, V)>, k: K, v: V, other: K)
    requires other != k
    ensures Get(Put(xs, k, v), other) == Get(xs, other)
  {
    if |xs| > 0 && xs[0].0 != k {
      PutOther(xs[1..], k, v, other);
      assert Put(xs, k, v)[1..] == Put(xs[1..], k, v);
    } else if |xs| > 0 {
      assert Put(xs, k, v)[1..] == xs[1..];
    }
  }

  /** Sum of `f` over the values. */
  function SumValues<K, V>(xs: seq<(K, V)>, f: V -> real): real
  {
    if |xs| == 0 then 0.0 else f(xs[0].1) + SumValues(xs[1..], f)
  }

  /** Overwriting one entry changes a sum over the values by the difference at that entry. */
  lemma {:induction false} PutSumValues<K, V>(xs: seq<(K, V)>, k: K, v: V, f: V -> real)
    ensures SumValues(Put(xs, k, v), f)
            == SumValues(xs, f) + f(v) - (if Get(xs, k).Some? then f(Get(xs, k).value) else 0.0)
  {
    if |xs| > 0 && xs[0].0 != k {
      PutSumValues(xs[1..], k, v, f);
      assert Put(xs, k, v)[1..] == Put(xs[1..], k, v);
    } else if |xs| > 0 {
      assert Put(xs, k, v)[1..] == xs[1..];
    }
  }

  /** `xs.reduce((acc, x) => { acc[k] = step(acc[k], x); return acc }, {})` with `k` the
      key of `x`: elements without a key are passed over, and each key's entry sits where the
      key was first met. */
  function Group<T, K(==), V>(xs: seq<T>, keyOf: T -> Option<K>, step: (Option<V>, T) -> V): seq<(K, V)>
  {
    if |xs| == 0 then []
    else
      var acc := Group(xs[..|xs| - 1], keyOf, step);
      match keyOf(xs[|xs| - 1])
      case None => acc
      case Some(k) => Put(acc, k, step(Get(acc, k), xs[|xs| - 1]))
  }

  /** The elements filed under `k`. */
  function HasKey<T, K(==)>(keyOf: T -> Option<K>, k: K): T -> bool
  {
    (x: T) => keyOf(x) == Some(k)
  }

  /** The entry under `k` is what the elements filed under `k`, in order, build on their own:
      the grouping is the per-key reduction of the input. */
  lemma {:induction false} GroupGet<T, K, V>(xs: seq<T>, keyOf: T -> Option<K>, step: (Option<V>, T) -> V, k: K)
    ensures Get(Group(xs, keyOf, step), k) == Seqs.Accumulate(Seqs.Filter(xs, HasKey(keyOf, k)), step)
  {
    if |xs| > 0 {
      var front := xs[..|xs| - 1];
      var x := xs[|xs| - 1];
      GroupGet(front, keyOf, step, k);
      var before := Seqs.Filter(front, HasKey(keyOf, k));
      var acc := Group(front, keyOf, step);
      if keyOf(x) == Some(k) {
        assert Seqs.Filter(xs, HasKey(keyOf, k)) == before + [x] by {
          Seqs.FilterSnoc(xs, HasKey(keyOf, k));
        }
        Seqs.AccumulateSnoc(before, x, step);
      } else {
        assert Seqs.Filter(xs, HasKey(keyOf, k)) == before by {
          Seqs.FilterSnoc(xs, HasKey(keyOf, k));
        }
        if keyOf(x).Some? {
          PutOther(acc, keyOf(x).value, step(Get(acc, keyOf(x).value), x), k);
        }
      }
    }
  }

  /** Every key occurs once. */
  lemma {:induction false} GroupDistinct<T, K, V>(xs: seq<T>, keyOf: T -> Option<K>, step: (Option<V>, T) -> V)
    ensures DistinctKeys(Group(xs, keyOf, step))
  {
    if |xs| > 0 {
      GroupDistinct(xs[..|xs| - 1], keyOf, step);
      var acc := Group(xs[..|xs| - 1], keyOf, step);
      match keyOf(xs[|xs| - 1])
      case None =>
      case Some(k) => PutDistinct(acc, k, step(Get(acc, k), xs[|xs| - 1]));
    }
  }

  /** A key has an entry exactly when some element is filed under it, and the keys stand in
      order of first appearance. */
  lemma GroupKeys<T, K, V>(xs: seq<T>, keyOf: T -> Option<K>, step: (Option<V>, T) -> V, k: K)
    ensures k in Keys(Group(xs, keyOf, step)) <==> exists i :: 0 <= i < |xs| && keyOf(xs[i]) == Some(k)
    ensures Keys(Group(xs, keyOf, step)) == Seqs.Dedup(PresentKeys(xs, keyOf))
  {
    GroupKeyOrder(xs, keyOf, step);
    GroupGet(xs, keyOf, step, k);
    var f := Seqs.Filter(xs, HasKey(keyOf, k));
    if exists i :: 0 <= i < |xs| && keyOf(xs[i]) == Some(k) {
      var i :| 0 <= i < |xs| && keyOf(xs[i]) == Some(k);
      assert HasKey(keyOf, k)(xs[i]);
      assert xs[i] in f;
    }
  }

  /** Each entry holds what the elements filed under its key build. */
  lemma GroupEntry<T, K, V>(xs: seq<T>, keyOf: T -> Option<K>, step: (Option<V>, T) -> V, i: nat)
    requires i < |Group(xs, keyOf, step)|
    ensures var e := Group(xs, keyOf, step)[i];
            Seqs.Accumulate(Seqs.Filter(xs, HasKey(keyOf, e.0)), step) == Some(e.1)
  {
    var g := Group(xs, keyOf, step);
    GroupDistinct(xs, keyOf, step);
    GetAt(g, i);
    GroupGet(xs, keyOf, step, g[i].0);
  }

  /** When every element has a key and every step raises a measure by the element's weight,
      the measures of all entries add up to the total weight. */
  lemma {:induction false} GroupSum<T, K, V>(xs: seq<T>, keyOf: T -> Option<K>, step: (Option<V>, T) -> V,
                                                 m: V -> real, w: T -> real)
    requires forall i :: 0 <= i < |xs| ==> keyOf(xs[i]).Some?
    requires forall o, x :: m(step(o, x)) == MapOr(o, m, 0.0) + w(x)
    ensures SumValues(Group(xs, keyOf, step), m) == Seqs.SumOf(xs, w)
  {
    if |xs| > 0 {
      var front := xs[..|xs| - 1];
      var x := xs[|xs| - 1];
      assert xs == front + [x];
      GroupSum(front, keyOf, step, m, w);
      var acc := Group(front, keyOf, step);
      var k := keyOf(x).value;
      PutSumValues(acc, k, step(Get(acc, k), x), m);
      Seqs.SumOfAppend(front, [x], w);
      assert Seqs.SumOf([x], w) == w(x) by {
        assert [x][1..] == [];
      }
    }
  }

  /** The keys of the elements that have one, in input order, repeats included. */
  function PresentKeys<T, K>(xs: seq<T>, keyOf: T -> Option<K>): seq<K>
  {
    if |xs| == 0 then []
    else
      PresentKeys(xs[..|xs| - 1], keyOf)
      + match keyOf(xs[|xs| - 1]) case Some(k) => [k] case None => []
  }

  /** The keys of a grouping are the keys met, each once, in order of first appearance. */
  lemma {:induction false} GroupKeyOrder<T, K, V>(xs: seq<T>, keyOf: T -> Option<K>, step: (Option<V>, T) -> V)
    ensures Keys(Group(xs, keyOf, step)) == Seqs.Dedup(PresentKeys(xs, keyOf))
  {
    if |xs| > 0 {
      var front := xs[..|xs| - 1];
      GroupKeyOrder(front, keyOf, step);
      var ks := PresentKeys(front, keyOf);
      match keyOf(xs[|xs| - 1])
      case None =>
        assert PresentKeys(xs, keyOf) == ks + [];
        assert ks + [] == ks;
      case Some(k) =>
        var all := ks + [k];
        assert PresentKeys(xs, keyOf) == all;
        assert all[..|all| - 1] == ks;
    }
  }
}
