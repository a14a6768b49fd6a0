/** Sequence operations that mirror Python list idioms used by the tool:
    filtered comprehensions, flattening of pages, `list.count` and
    `list.index`. */
module Seqs {
  import opened Wrappers

  /** `[f(x) for x in xs if keep(x)]`: the items that pass `keep`,
      transformed by `f`, in their original order. */
  function Sift<T, U>(xs: seq<T>, keep: T -> bool, f: T -> U): (r: seq<U>)
    ensures |r| <= |xs|
  {
    if xs == [] then []
    else Sift(xs[..|xs| - 1], keep, f) + (if keep(xs[|xs| - 1]) then [f(xs[|xs| - 1])] else [])
  }

  /** The positions of `xs` whose item passes `keep`, ascending. */
  function KeptIndices<T>(xs: seq<T>, keep: T -> bool): (idx: seq<nat>)
    ensures forall j :: 0 <= j < |idx| ==> idx[j] < |xs|
  {
    if xs == [] then []
    else KeptIndices(xs[..|xs| - 1], keep) + (if keep(xs[|xs| - 1]) then [|xs| - 1] else [])
  }

  /** A strictly increasing sequence of positions: the result is a
      subsequence of the input, taken in order. */
  ghost predicate Ascending(idx: seq<nat>) {
    forall j, k :: 0 <= j < k < |idx| ==> idx[j] < idx[k]
  }

  /** `Sift` keeps exactly the items that pass `keep`, in order, each
      transformed by `f`: the j-th output comes from input position
      `KeptIndices(xs, keep)[j]`, those positions ascend, and every
      position that passes `keep` is among them. */
  lemma {:induction false} SiftSelects<T, U>(xs: seq<T>, keep: T -> bool, f: T -> U)
    ensures var r, idx := Sift(xs, keep, f), KeptIndices(xs, keep);
      && |idx| == |r|
      && Ascending(idx)
      && (forall j :: 0 <= j < |idx| ==> keep(xs[idx[j]]) && r[j] == f(xs[idx[j]]))
      && (forall i :: 0 <= i < |xs| && keep(xs[i]) ==> i in idx)
  {
    if xs != [] {
      var n := |xs| - 1;
      var front := xs[..n];
      SiftSelects(front, keep, f);
      var idx0 := KeptIndices(front, keep);
      assert forall j :: 0 <= j < |idx0| ==> xs[idx0[j]] == front[idx0[j]];
      assert forall i :: 0 <= i < n ==> xs[i] == front[i];
    }
  }

  /** `[x for page in xss for x in page]`: the pages concatenated in order. */
  function Flatten<T>(xss: seq<seq<T>>): (r: seq<T>)
  {
    if xss == [] then [] else Flatten(xss[..|xss| - 1]) + xss[|xss| - 1]
  }

  /** Flattening distributes over concatenation of page lists. */
  lemma {:induction false} FlattenAppend<T>(a: seq<seq<T>>, b: seq<seq<T>>)
    ensures Flatten(a + b) == Flatten(a) + Flatten(b)
  {
    if b != [] {
      assert (a + b)[..|a + b| - 1] == a + b[..|b| - 1];
      FlattenAppend(a, b[..|b| - 1]);
    } else {
      assert a + b == a;
    }
  }

  /** The sum of the page lengths. */
  function TotalLength<T>(xss: seq<seq<T>>): nat {
    if xss == [] then 0 else TotalLength(xss[..|xss| - 1]) + |xss[|xss| - 1]|
  }

  /** The flattened list holds exactly as many items as all pages together. */
  lemma {:induction false} FlattenLength<T>(xss: seq<seq<T>>)
    ensures |Flatten(xss)| == TotalLength(xss)
  {
    if xss != [] {
      FlattenLength(xss[..|xss| - 1]);
    }
  }

  /** `xs.count(x)` */
  function Count<T(==)>(xs: seq<T>, x: T): (c: nat)
    ensures c <= |xs|
  {
    if xs == [] then 0 else Count(xs[..|xs| - 1], x) + (if xs[|xs| - 1] == x then 1 else 0)
  }

  /** Every item of a list of booleans is counted as True or as False. */
  lemma {:induction false} CountTrueFalse(xs: seq<bool>)
    ensures Count(xs, true) + Count(xs, false) == |xs|
  {
    if xs != [] {
      var n := |xs| - 1;
      CountTrueFalse(xs[..n]);
      assert Count(xs, true) == Count(xs[..n], true) + (if xs[n] then 1 else 0);
      assert Count(xs, false) == Count(xs[..n], false) + (if xs[n] then 0 else 1);
    }
  }

  /** Overwriting position i with `x` gains one occurrence of `x` exactly
      when the old item differed, loses that one occurrence of the old
      item, and leaves every other count as it was. */
  lemma {:induction false} CountUpdate<T>(xs: seq<T>, i: nat, x: T)
    requires i < |xs|
    ensures Count(xs[i := x], x) == Count(xs, x) + (if xs[i] == x then 0 else 1)
    ensures xs[i] != x ==> Count(xs[i := x], xs[i]) + 1 == Count(xs, xs[i])
    ensures forall y :: y != x && y != xs[i] ==> Count(xs[i := x], y) == Count(xs, y)
  {
    var n := |xs| - 1;
    if i == n {
      assert xs[i := x][..n] == xs[..n];
    } else {
      assert xs[i := x][..n] == xs[..n][i := x];
      CountUpdate(xs[..n], i, x);
    }
  }

  /** `xs.index(x, start)`: the first position at or after `start` that
      holds `x`, or None where Python raises ValueError. */
  function IndexOf<T(==)>(xs: seq<T>, x: T, start: nat): (r: Option<nat>)
    ensures r.Some? ==> start <= r.value < |xs| && xs[r.value] == x
    ensures r.Some? ==> forall k :: start <= k < r.value ==> xs[k] != x
    ensures r.None? ==> forall k :: start <= k < |xs| ==> xs[k] != x
    decreases |xs| - start
  {
    if start >= |xs| then None
    else if xs[start] == x then Some(start)
    else IndexOf(xs, x, start + 1)
  }
}
