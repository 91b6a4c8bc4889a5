/**
 Group-by into an insertion-ordered record, as the analytics helpers do with
 a plain object: `forEach` over the input, create the key's entry from an
 initial value when it is missing, then update it in place.

 `GroupBy` is the loop; `Fold` over the input filtered to one key is the
 independent reference it is proved against.
 */
module Grouping {
  import opened Common

  /** The object's entries in insertion order. */
  type Groups<K, V> = seq<(K, V)>

  function Keys<K, V>(g: Groups<K, V>): seq<K>
  {
    seq(|g|, i requires 0 <= i < |g| => g[i].0)
  }

  ghost predicate UniqueKeys<K, V>(g: Groups<K, V>)
  {
    forall i, j :: 0 <= i < j < |g| ==> g[i].0 != g[j].0
  }

  /** The entry stored under `k`, if any. */
  function Lookup<K(==,!new), V>(g: Groups<K, V>, k: K): (r: Option<V>)
    ensures r.None? <==> k !in Keys(g)
  {
    if g == [] then None
    else if g[0].0 == k then
      assert Keys(g)[0] == k;
      Some(g[0].1)
    else
      assert Keys(g) == [g[0].0] + Keys(g[1..]);
      Lookup(g[1..], k)
  }

  /** The left fold of `step` over `xs` from `v` (`forEach` order). */
  function Fold<E, V>(step: (V, E) -> V, v: V, xs: seq<E>): V
  {
    if xs == [] then v else step(Fold(step, v, xs[..|xs| - 1]), xs[|xs| - 1])
  }

  /** The elements of `es` whose key is `k`, in order. */
  function WithKey<E, K(==,!new)>(es: seq<E>, key: E -> K, k: K): (r: seq<E>)
    ensures |r| <= |es|
  {
    if es == [] then []
    else WithKey(es[..|es| - 1], key, k) + (if key(es[|es| - 1]) == k then [es[|es| - 1]] else [])
  }

  /** Apply `f` to the entry of `k`, in place; an absent key is left alone. */
  function Update<K(==,!new), V>(g: Groups<K, V>, k: K, f: V -> V): (r: Groups<K, V>)
    ensures Keys(r) == Keys(g)
    ensures forall x :: Lookup(r, x) == (if x == k && Lookup(g, k).Some? then Some(f(Lookup(g, k).value)) else Lookup(g, x))
  {
    if g == [] then []
    else if g[0].0 == k then
      assert Keys([(k, f(g[0].1))] + g[1..]) == [k] + Keys(g[1..]);
      assert Keys(g) == [g[0].0] + Keys(g[1..]);
      [(k, f(g[0].1))] + g[1..]
    else
      var rest := Update(g[1..], k, f);
      assert Keys([g[0]] + rest) == [g[0].0] + Keys(rest);
      assert Keys(g) == [g[0].0] + Keys(g[1..]);
      [g[0]] + rest
  }

  lemma LookupAppend<K(!new), V>(g: Groups<K, V>, k: K, v: V, x: K)
    requires k !in Keys(g)
    ensures Lookup(g + [(k, v)], x) == if x == k then Some(v) else Lookup(g, x)
    ensures Keys(g + [(k, v)]) == Keys(g) + [k]
  {
    if g != [] {
      assert (g + [(k, v)])[1..] == g[1..] + [(k, v)];
      assert Keys(g) == [g[0].0] + Keys(g[1..]);
      LookupAppend(g[1..], k, v, x);
    }
  }

  /** One `forEach` iteration: create the entry from `init(k)` if missing,
      then apply `step`. */
  function Accumulate<E, K(==,!new), V>(g: Groups<K, V>, e: E, key: E -> K, init: K -> V, step: (V, E) -> V): (r: Groups<K, V>)
    ensures forall x :: Lookup(r, x) == (if x == key(e) then Some(step(if Lookup(g, x).Some? then Lookup(g, x).value else init(x), e)) else Lookup(g, x))
    ensures key(e) in Keys(g) ==> Keys(r) == Keys(g)
    ensures key(e) !in Keys(g) ==> Keys(r) == Keys(g) + [key(e)]
  {
    var k := key(e);
    if k in Keys(g) then Update(g, k, v => step(v, e))
    else
      forall x ensures Lookup(g + [(k, step(init(k), e))], x) ==
        if x == k then Some(step(init(k), e)) else Lookup(g, x)
      {
        LookupAppend(g, k, step(init(k), e), x);
      }
      LookupAppend(g, k, step(init(k), e), k);
      g + [(k, step(init(k), e))]
  }

  /** The whole `forEach`: an entry for each key that occurs in the input,
      and no other. */
  function GroupBy<E, K(==,!new), V>(es: seq<E>, key: E -> K, init: K -> V, step: (V, E) -> V): (r: Groups<K, V>)
    ensures forall k :: k in Keys(r) <==> exists i :: 0 <= i < |es| && key(es[i]) == k
  {
    if es == [] then []
    else
      var prefix := es[..|es| - 1];
      var g := GroupBy(prefix, key, init, step);
      var r := Accumulate(g, es[|es| - 1], key, init, step);
      assert forall k :: k in Keys(r) <==> k in Keys(g) || k == key(es[|es| - 1]);
      assert forall i :: 0 <= i < |prefix| ==> es[i] == prefix[i];
      r
  }

  /** Each key of the input appears once, and its entry is the fold of `step`
      over exactly the input elements with that key, from `init(k)`. */
  lemma {:induction false} GroupByIsFoldPerKey<E, K(!new), V(!new)>(es: seq<E>, key: E -> K, init: K -> V, step: (V, E) -> V, k: K)
    ensures var g := GroupBy(es, key, init, step);
      && (Lookup(g, k).Some? <==> WithKey(es, key, k) != [])
      && (Lookup(g, k).Some? ==> Lookup(g, k).value == Fold(step, init(k), WithKey(es, key, k)))
    decreases |es|
  {
    if es != [] {
      var init' := es[..|es| - 1];
      var e := es[|es| - 1];
      GroupByIsFoldPerKey(init', key, init, step, k);
      var xs := WithKey(es, key, k);
      if key(e) == k {
        assert xs == WithKey(init', key, k) + [e];
        assert xs[..|xs| - 1] == WithKey(init', key, k);
        assert Fold(step, init(k), xs) == step(Fold(step, init(k), WithKey(init', key, k)), e);
        var before := GroupBy(init', key, init, step);
        var prev := if Lookup(before, k).Some? then Lookup(before, k).value else init(k);
        assert prev == Fold(step, init(k), WithKey(init', key, k));
        assert Lookup(GroupBy(es, key, init, step), k) == Some(step(prev, e));
      } else {
        assert xs == WithKey(init', key, k);
        assert Lookup(GroupBy(es, key, init, step), k) == Lookup(GroupBy(init', key, init, step), k);
      }
    }
  }

  /** Entries are never stored twice under the same key. */
  lemma {:induction false} GroupByUniqueKeys<E, K(!new), V>(es: seq<E>, key: E -> K, init: K -> V, step: (V, E) -> V)
    ensures UniqueKeys(GroupBy(es, key, init, step))
    ensures |GroupBy(es, key, init, step)| <= |es|
    decreases |es|
  {
    if es != [] {
      var g := GroupBy(es[..|es| - 1], key, init, step);
      GroupByUniqueKeys(es[..|es| - 1], key, init, step);
      var r := GroupBy(es, key, init, step);
      var k := key(es[|es| - 1]);
      assert |Keys(r)| == |r| && |Keys(g)| == |g|;
      forall i, j | 0 <= i < j < |r|
        ensures r[i].0 != r[j].0
      {
        assert Keys(r)[i] == r[i].0 && Keys(r)[j] == r[j].0;
        if k !in Keys(g) && j == |g| {
          assert Keys(g)[i] == r[i].0;
        } else {
          assert Keys(g)[i] == r[i].0 && Keys(g)[j] == r[j].0;
        }
      }
    }
  }

  /** With unique keys, looking up an entry's key finds that entry. */
  lemma {:induction false} LookupAt<K(!new), V>(g: Groups<K, V>, i: nat)
    requires UniqueKeys(g) && i < |g|
    ensures Lookup(g, g[i].0) == Some(g[i].1)
    decreases i
  {
    if i > 0 {
      assert g[0].0 != g[i].0;
      assert UniqueKeys(g[1..]) by {
        forall a, b | 0 <= a < b < |g[1..]|
          ensures g[1..][a].0 != g[1..][b].0
        {
          assert g[a + 1].0 != g[b + 1].0;
        }
      }
      LookupAt(g[1..], i - 1);
    }
  }

  /** Sum of a weight over the entries. */
  function SumOver<K, V>(g: Groups<K, V>, w: V -> int): int
  {
    if g == [] then 0 else w(g[0].1) + SumOver(g[1..], w)
  }

  lemma SumOverUpdate<K(!new), V(!new)>(g: Groups<K, V>, k: K, f: V -> V, w: V -> int, d: int)
    requires UniqueKeys(g) && k in Keys(g)
    requires forall v :: w(f(v)) == w(v) + d
    ensures SumOver(Update(g, k, f), w) == SumOver(g, w) + d
  {
    assert Keys(g) == [g[0].0] + Keys(g[1..]);
    if g[0].0 != k {
      assert UniqueKeys(g[1..]) by {
        forall i, j | 0 <= i < j < |g[1..]|
          ensures g[1..][i].0 != g[1..][j].0
        {
          assert g[i + 1].0 != g[j + 1].0;
        }
      }
      SumOverUpdate(g[1..], k, f, w, d);
    }
  }

  lemma SumOverAppend<K, V>(g: Groups<K, V>, k: K, v: V, w: V -> int)
    ensures SumOver(g + [(k, v)], w) == SumOver(g, w) + w(v)
  {
    if g != [] {
      assert (g + [(k, v)])[1..] == g[1..] + [(k, v)];
      SumOverAppend(g[1..], k, v, w);
    }
  }

  /** Sum of a per-element weight over the input. */
  function SumOf<E>(es: seq<E>, d: E -> int): int
  {
    if es == [] then 0 else SumOf(es[..|es| - 1], d) + d(es[|es| - 1])
  }

  /** When every step adds the element's weight `d` to the entry's weight `w`
      and every new entry starts at weight 0, the entries' weights add up to
      the input's total weight. */
  lemma {:induction false} GroupBySumsWeights<E, K(!new), V(!new)>(es: seq<E>, key: E -> K, init: K -> V, step: (V, E) -> V, w: V -> int, d: E -> int)
    requires forall k :: w(init(k)) == 0
    requires forall v, e :: w(step(v, e)) == w(v) + d(e)
    ensures SumOver(GroupBy(es, key, init, step), w) == SumOf(es, d)
    decreases |es|
  {
    if es != [] {
      var prefix := es[..|es| - 1];
      var e := es[|es| - 1];
      GroupBySumsWeights(prefix, key, init, step, w, d);
      GroupByUniqueKeys(prefix, key, init, step);
      SumOverAccumulate(GroupBy(prefix, key, init, step), e, key, init, step, w, d(e));
    }
  }

  lemma SumOverAccumulate<E, K(!new), V(!new)>(g: Groups<K, V>, e: E, key: E -> K, init: K -> V, step: (V, E) -> V, w: V -> int, de: int)
    requires UniqueKeys(g)
    requires w(init(key(e))) == 0
    requires forall v :: w(step(v, e)) == w(v) + de
    ensures SumOver(Accumulate(g, e, key, init, step), w) == SumOver(g, w) + de
  {
    var k := key(e);
    if k in Keys(g) {
      SumOverUpdate(g, k, v => step(v, e), w, de);
    } else {
      assert Accumulate(g, e, key, init, step) == g + [(k, step(init(k), e))];
      SumOverAppend(g, k, step(init(k), e), w);
      assert w(step(init(k), e)) == de;
    }
  }
}
