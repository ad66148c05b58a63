// Left folds, and when the order of their elements does not matter.

module Reorder {
  import opened Collections

  function Fold<A, S>(step: (A, S) -> A, start: A, xs: seq<S>): A {
    if xs == [] then start
    else
      var n := |xs| - 1;
      step(Fold(step, start, xs[..n]), xs[n])
  }

  lemma FoldTwo<A, S>(step: (A, S) -> A, start: A, s: S, t: S)
    ensures Fold(step, start, [s, t]) == step(step(start, s), t)
  {
    assert [s, t][..1] == [s] && [s][..0] == [];
    assert Fold(step, start, [s]) == step(start, s);
  }

  // The elements with one key, in order.
  function Own<S>(key: S -> string, xs: seq<S>, id: string): seq<S> {
    if xs == [] then []
    else
      var n := |xs| - 1;
      Own(key, xs[..n], id) + if key(xs[n]) == id then [xs[n]] else []
  }

  ghost predicate SameOwn<S>(key: S -> string, a: seq<S>, b: seq<S>) {
    forall id :: Own(key, a, id) == Own(key, b, id)
  }

  // Elements with different keys can be taken in either order.
  ghost predicate Commutes<A(!new), S(!new)>(step: (A, S) -> A, key: S -> string) {
    forall s, t | key(s) != key(t) :: Swaps(step, s, t)
  }

  lemma {:induction false} OwnConcat<S>(key: S -> string, a: seq<S>, b: seq<S>, id: string)
    ensures Own(key, a + b, id) == Own(key, a, id) + Own(key, b, id)
  {
    if b == [] {
      assert a + b == a;
    } else {
      var n := |b| - 1;
      OwnConcat(key, a, b[..n], id);
      assert (a + b)[..|a| + n] == a + b[..n];
    }
  }

  // `s` and `t` can be taken in either order.
  ghost predicate Swaps<A(!new), S(!new)>(step: (A, S) -> A, s: S, t: S) {
    forall x :: step(step(x, s), t) == step(step(x, t), s)
  }

  lemma {:induction false} MoveToEnd<A(!new), S(!new)>(step: (A, S) -> A, start: A, p: seq<S>, s: S, q: seq<S>)
    requires forall i | 0 <= i < |q| :: Swaps(step, s, q[i])
    ensures Fold(step, start, p + [s] + q) == step(Fold(step, start, p + q), s)
  {
    if q == [] {
      assert p + q == p && p + [s] + q == p + [s] && (p + [s])[..|p|] == p;
    } else {
      var n := |q| - 1;
      MoveToEnd(step, start, p, s, q[..n]);
      assert (p + [s] + q)[..|p| + 1 + n] == p + [s] + q[..n];
      assert (p + q)[..|p| + n] == p + q[..n];
      assert Swaps(step, s, q[n]);
    }
  }

  lemma TakeOut<S>(a: seq<S>, s: S, b: seq<S>) returns (p: seq<S>, q: seq<S>)
    requires multiset(a + [s]) == multiset(b)
    ensures b == p + [s] + q && multiset(a) == multiset(p + q)
  {
    assert multiset(a + [s]) == multiset(a) + multiset{s};
    assert s in multiset(b);
    var j :| 0 <= j < |b| && b[j] == s;
    p, q := b[..j], b[j + 1..];
    assert b == p + [s] + q;
    assert multiset(b) == multiset(p) + multiset{s} + multiset(q);
    assert multiset(p + q) == multiset(p) + multiset(q);
    assert multiset(a) == multiset(a) + multiset{s} - multiset{s};
  }

  // When all elements can be taken in either order, a fold only depends on how often each occurs.
  lemma {:induction false} OrderIsFree<A(!new), S(!new)>(step: (A, S) -> A, start: A, a: seq<S>, b: seq<S>)
    requires (forall s, t :: Swaps(step, s, t)) && multiset(a) == multiset(b)
    ensures Fold(step, start, a) == Fold(step, start, b)
    decreases |a|
  {
    if a == [] {
      assert |b| == |multiset(b)| == 0;
    } else {
      var n := |a| - 1;
      assert a == a[..n] + [a[n]];
      var p, q := TakeOut(a[..n], a[n], b);
      OrderIsFree(step, start, a[..n], p + q);
      MoveToEnd(step, start, p, a[n], q);
    }
  }

  // The last element with a key, and what stands around it.
  lemma {:induction false} LastOwn<S>(key: S -> string, xs: seq<S>, id: string) returns (p: seq<S>, q: seq<S>)
    requires Own(key, xs, id) != []
    ensures var own := Own(key, xs, id); xs == p + [own[|own| - 1]] + q && Own(key, p, id) == own[..|own| - 1]
    ensures forall i | 0 <= i < |q| :: key(q[i]) != id
  {
    var n := |xs| - 1;
    if key(xs[n]) == id {
      p, q := xs[..n], [];
    } else {
      var q';
      p, q' := LastOwn(key, xs[..n], id);
      q := q' + [xs[n]];
    }
  }

  lemma {:induction false} OwnNone<S>(key: S -> string, q: seq<S>, id: string)
    requires forall i | 0 <= i < |q| :: key(q[i]) != id
    ensures Own(key, q, id) == []
  {
    if q != [] {
      OwnNone(key, q[..|q| - 1], id);
    }
  }

  lemma OwnAppend<S>(key: S -> string, xs: seq<S>, s: S, id: string)
    ensures Own(key, xs + [s], id) == Own(key, xs, id) + if key(s) == id then [s] else []
  {
    assert (xs + [s])[..|xs|] == xs;
  }

  lemma OwnSplit<S>(key: S -> string, p: seq<S>, s: S, q: seq<S>, id: string)
    requires forall i | 0 <= i < |q| :: key(q[i]) != key(s)
    ensures Own(key, p + [s] + q, id) == if key(s) == id then Own(key, p + q, id) + [s] else Own(key, p + q, id)
  {
    OwnConcat(key, p, q, id);
    OwnConcat(key, p + [s], q, id);
    OwnAppend(key, p, s, id);
    if key(s) == id {
      OwnNone(key, q, id);
    }
  }

  lemma AppendCancels<S>(x: seq<S>, y: seq<S>, s: S)
    requires x + [s] == y + [s]
    ensures x == y
  {
    assert x == (x + [s])[..|x|];
    assert y == (y + [s])[..|y|];
  }

  lemma WithoutLast<S>(key: S -> string, a: seq<S>, s: S, p: seq<S>, q: seq<S>, id: string)
    requires Own(key, a + [s], id) == Own(key, p + [s] + q, id)
    requires forall i | 0 <= i < |q| :: key(q[i]) != key(s)
    ensures Own(key, a, id) == Own(key, p + q, id)
  {
    OwnAppend(key, a, s, id);
    OwnSplit(key, p, s, q, id);
    if key(s) == id {
      AppendCancels(Own(key, a, id), Own(key, p + q, id), s);
    }
  }

  lemma SomeOwn<S>(key: S -> string, xs: seq<S>)
    requires xs != []
    ensures exists id :: Own(key, xs, id) != []
  {
    assert Own(key, xs, key(xs[|xs| - 1])) != [];
  }

  // Any reordering that keeps the order of the elements with each key gives the same fold.
  lemma {:induction false} OrderOfKeysIsFree<A(!new), S(!new)>(
      step: (A, S) -> A, start: A, key: S -> string, a: seq<S>, b: seq<S>)
    requires Commutes(step, key) && SameOwn(key, a, b)
    ensures Fold(step, start, a) == Fold(step, start, b)
    decreases |a|
  {
    if a == [] {
      if b != [] {
        SomeOwn(key, b);
      }
    } else {
      var n := |a| - 1;
      var s := a[n];
      assert Own(key, a, key(s)) == Own(key, b, key(s));
      var p, q := LastOwn(key, b, key(s));
      assert a == a[..n] + [s];
      forall id ensures Own(key, a[..n], id) == Own(key, p + q, id) {
        WithoutLast(key, a[..n], s, p, q, id);
      }
      OrderOfKeysIsFree(step, start, key, a[..n], p + q);
      MoveToEnd(step, start, p, s, q);
    }
  }

  // ---- rows that are added up ---------------------------------------------------------------

  function Get<K, V>(rows: map<K, V>, k: K, zero: V): V {
    if k in rows then rows[k] else zero
  }

  function Put<K, V>(rows: map<K, V>, k: K, zero: V, plus: (V, V) -> V, v: V): map<K, V> {
    rows[k := plus(Get(rows, k, zero), v)]
  }

  lemma PutOrder<K, V>(rows: map<K, V>, zero: V, plus: (V, V) -> V, k: K, v: V, l: K, w: V)
    requires var x := Get(rows, k, zero); plus(plus(x, v), w) == plus(plus(x, w), v)
    ensures Put(Put(rows, k, zero, plus, v), l, zero, plus, w) == Put(Put(rows, l, zero, plus, w), k, zero, plus, v)
  {
  }

  // The sum of the rows with the first `n` of some keys.
  function Sum<K, V>(rows: map<K, V>, keys: seq<K>, n: nat, zero: V, plus: (V, V) -> V): V
    requires n <= |keys|
  {
    if n == 0 then zero else plus(Sum(rows, keys, n - 1, zero, plus), Get(rows, keys[n - 1], zero))
  }

  ghost predicate Adds<V(!new)>(zero: V, plus: (V, V) -> V) {
    && (forall x :: plus(x, zero) == x)
    && (forall x, y, z :: plus(plus(x, y), z) == plus(plus(x, z), y))
    && (forall x, y, z :: plus(plus(x, y), z) == plus(x, plus(y, z)))
  }

  lemma {:induction false} SumOfPut<K, V(!new)>(
      rows: map<K, V>, keys: seq<K>, n: nat, zero: V, plus: (V, V) -> V, i: nat, v: V)
    requires n <= |keys| && i < |keys| && Distinct(keys) && Adds(zero, plus)
    ensures
      Sum(Put(rows, keys[i], zero, plus, v), keys, n, zero, plus) ==
      if i < n then plus(Sum(rows, keys, n, zero, plus), v) else Sum(rows, keys, n, zero, plus)
  {
    if n > 0 {
      SumOfPut(rows, keys, n - 1, zero, plus, i, v);
    }
  }

  lemma {:induction false} SumOfNone<K, V(!new)>(keys: seq<K>, n: nat, zero: V, plus: (V, V) -> V)
    requires n <= |keys| && Adds(zero, plus)
    ensures Sum(map[], keys, n, zero, plus) == zero
  {
    if n > 0 {
      SumOfNone(keys, n - 1, zero, plus);
    }
  }

  // Rows by label, each adding up the shares of the elements with that label; and all shares together.
  function Grouped<S, K, V>(name: S -> K, share: S -> V, zero: V, plus: (V, V) -> V, xs: seq<S>): map<K, V> {
    if xs == [] then map[]
    else
      var n := |xs| - 1;
      Put(Grouped(name, share, zero, plus, xs[..n]), name(xs[n]), zero, plus, share(xs[n]))
  }

  function Total<S, V>(share: S -> V, zero: V, plus: (V, V) -> V, xs: seq<S>): V {
    if xs == [] then zero
    else
      var n := |xs| - 1;
      plus(Total(share, zero, plus, xs[..n]), share(xs[n]))
  }

  // For any listing of the labels the rows add up to the total.
  lemma {:induction false} RowsAddUp<S, K, V(!new)>(
      name: S -> K, share: S -> V, zero: V, plus: (V, V) -> V, xs: seq<S>, keys: seq<K>)
    requires Adds(zero, plus) && Distinct(keys)
    requires forall k | k in Grouped(name, share, zero, plus, xs) :: k in keys
    ensures Sum(Grouped(name, share, zero, plus, xs), keys, |keys|, zero, plus) == Total(share, zero, plus, xs)
  {
    if xs == [] {
      SumOfNone(keys, |keys|, zero, plus);
    } else {
      var n := |xs| - 1;
      var rows, k := Grouped(name, share, zero, plus, xs[..n]), name(xs[n]);
      RowsAddUp(name, share, zero, plus, xs[..n], keys);
      assert k in Grouped(name, share, zero, plus, xs);
      var i :| 0 <= i < |keys| && keys[i] == k;
      SumOfPut(rows, keys, |keys|, zero, plus, i, share(xs[n]));
    }
  }
}
