/** Failure-carrying wrappers and the table lookup shared by every module of the model. */
module Basics {

  /** A value that may be absent: JavaScript's `null` / `undefined`. */
  datatype Option<+T> = None | Some(value: T)

  /** The outcome of an operation that may throw: `Err` carries what was thrown. */
  datatype Result<+T, +E> = Ok(value: T) | Err(error: E)

  /** `findFirst` over a table without `orderBy`, taken in table order: the index of the first
      row satisfying `p`, or `|xs|` when there is none. */
  function FirstWhere<T>(xs: seq<T>, p: T -> bool): (k: nat)
    ensures k <= |xs|
    ensures forall j :: 0 <= j < k ==> !p(xs[j])
    ensures k < |xs| ==> p(xs[k])
    decreases |xs|
  {
    if xs == [] then 0 else if p(xs[0]) then 0 else 1 + FirstWhere(xs[1..], p)
  }

  /** Two tests that agree on every row find the same first row. */
  lemma {:induction false} FirstWhereAgrees<T>(xs: seq<T>, p: T -> bool, q: T -> bool)
    requires forall k :: 0 <= k < |xs| ==> p(xs[k]) == q(xs[k])
    ensures FirstWhere(xs, p) == FirstWhere(xs, q)
    decreases |xs|
  {
    if xs != [] {
      assert p(xs[0]) == q(xs[0]);
      FirstWhereAgrees(xs[1..], p, q);
    }
  }

  /** The keys of a list's entries, in order. */
  function KeysOf<T, K>(xs: seq<T>, keyOf: T -> K): (r: seq<K>)
    ensures |r| == |xs|
    ensures forall k :: 0 <= k < |xs| ==> r[k] == keyOf(xs[k])
  {
    seq(|xs|, k requires 0 <= k < |xs| => keyOf(xs[k]))
  }

  /** `xs.filter((x) => keyOf(x) !== key)`: the entries whose key differs from `key`. */
  function WithoutKey<T(!new), K(==)>(xs: seq<T>, keyOf: T -> K, key: K): (r: seq<T>)
    ensures |r| <= |xs|
    ensures forall x :: x in r <==> x in xs && keyOf(x) != key
    decreases |xs|
  {
    if xs == [] then []
    else
      var last := xs[|xs| - 1];
      var init := WithoutKey(xs[..|xs| - 1], keyOf, key);
      assert xs == xs[..|xs| - 1] + [last];
      if keyOf(last) != key then init + [last] else init
  }

  /** The filter keeps the surviving entries in their order: filtering a concatenation is
      concatenating the filtered parts. */
  lemma {:induction false} WithoutKeyAppend<T(!new), K>(xs: seq<T>, ys: seq<T>, keyOf: T -> K, key: K)
    ensures WithoutKey(xs + ys, keyOf, key) == WithoutKey(xs, keyOf, key) + WithoutKey(ys, keyOf, key)
    decreases |ys|
  {
    if ys == [] {
      assert xs + ys == xs;
    } else {
      var init := ys[..|ys| - 1];
      assert (xs + ys)[..|xs + ys| - 1] == xs + init;
      WithoutKeyAppend(xs, init, keyOf, key);
    }
  }

  /** A list with no entry of that key is left as it is. */
  lemma {:induction false} WithoutAbsentKey<T(!new), K>(xs: seq<T>, keyOf: T -> K, key: K)
    requires key !in KeysOf(xs, keyOf)
    ensures WithoutKey(xs, keyOf, key) == xs
    decreases |xs|
  {
    if xs != [] {
      var init := xs[..|xs| - 1];
      assert KeysOf(init, keyOf) == KeysOf(xs, keyOf)[..|xs| - 1];
      assert keyOf(xs[|xs| - 1]) == KeysOf(xs, keyOf)[|xs| - 1];
      WithoutAbsentKey(init, keyOf, key);
    }
  }

  /** Removing the key of an appended entry whose key is new takes back exactly that entry. */
  lemma WithoutFreshKey<T(!new), K>(xs: seq<T>, x: T, keyOf: T -> K)
    requires keyOf(x) !in KeysOf(xs, keyOf)
    ensures WithoutKey(xs + [x], keyOf, keyOf(x)) == xs
  {
    WithoutKeyAppend(xs, [x], keyOf, keyOf(x));
    WithoutAbsentKey(xs, keyOf, keyOf(x));
    assert WithoutKey([x], keyOf, keyOf(x)) == [];
  }
}
