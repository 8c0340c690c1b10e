/** Shared vocabulary of the model: error results, values that may be NaN,
    threshold counts over observed atoms, and small sequence helpers. */
module Numerics {

  /** A Python call that either returns a value or raises an exception. */
  datatype Result<T> = Ok(value: T) | Err(msg: string)

  /** A floating-point result that may be NaN ("undefined" in the records). */
  datatype Est = Defined(value: real) | Undefined

  function Sq(x: real): real { x * x }

  function Abs(x: real): (r: real)
    ensures r >= 0.0 && (r == x || r == -x)
  {
    if x < 0.0 then -x else x
  }

  function MaxReal(a: real, b: real): (r: real)
    ensures r >= a && r >= b && (r == a || r == b)
  {
    if a >= b then a else b
  }

  function MaxInt(a: int, b: int): (r: int)
    ensures r >= a && r >= b && (r == a || r == b)
  {
    if a >= b then a else b
  }

  /** numpy.clip(x, lo, hi) */
  function Clip(x: real, lo: real, hi: real): (r: real)
    requires lo <= hi
    ensures lo <= r <= hi
    ensures x <= lo ==> r == lo
    ensures x >= hi ==> r == hi
    ensures lo <= x <= hi ==> r == x
  {
    if x < lo then lo else if x > hi then hi else x
  }

  /** `sqrt` is the non-negative square root on the non-negative reals. */
  ghost predicate IsSqrt(sqrt: real -> real)
  {
    forall x :: 0.0 <= x ==> 0.0 <= sqrt(x) && sqrt(x) * sqrt(x) == x
  }

  // ---------------------------------------------------------------------
  // K(t): the number of observed atoms at or below a threshold
  // ---------------------------------------------------------------------

  /** #{k < |xs| : xs[k] <= t} */
  function CountLeq(xs: seq<real>, t: real): (k: nat)
    ensures k <= |xs|
  {
    if xs == [] then 0
    else CountLeq(xs[..|xs| - 1], t) + (if xs[|xs| - 1] <= t then 1 else 0)
  }

  function Indicator(b: bool): nat { if b then 1 else 0 }

  lemma CountLeqSnoc(xs: seq<real>, x: real, t: real)
    ensures CountLeq(xs + [x], t) == CountLeq(xs, t) + Indicator(x <= t)
  {
    assert (xs + [x])[..|xs + [x]| - 1] == xs;
  }

  lemma {:induction false} CountLeqAppend(a: seq<real>, b: seq<real>, t: real)
    ensures CountLeq(a + b, t) == CountLeq(a, t) + CountLeq(b, t)
    decreases |b|
  {
    if b == [] {
      assert a + b == a;
    } else {
      var b' := b[..|b| - 1];
      var x := b[|b| - 1];
      assert b == b' + [x];
      assert a + b == (a + b') + [x];
      CountLeqAppend(a, b', t);
      CountLeqSnoc(a + b', x, t);
      CountLeqSnoc(b', x, t);
    }
  }

  /** K(t) is non-decreasing in t. */
  lemma {:induction false} CountLeqMonotone(xs: seq<real>, s: real, t: real)
    requires s <= t
    ensures CountLeq(xs, s) <= CountLeq(xs, t)
  {
    if xs != [] {
      CountLeqMonotone(xs[..|xs| - 1], s, t);
    }
  }

  /** K_m(t) is non-decreasing in the number m of atoms seen. */
  lemma CountLeqPrefixMonotone(xs: seq<real>, i: nat, j: nat, t: real)
    requires i <= j <= |xs|
    ensures CountLeq(xs[..i], t) <= CountLeq(xs[..j], t) <= CountLeq(xs[..i], t) + (j - i)
  {
    assert xs[..j] == xs[..i] + xs[i..j];
    CountLeqAppend(xs[..i], xs[i..j], t);
  }

  lemma {:induction false} CountLeqAllBelow(xs: seq<real>, t: real)
    requires forall k :: 0 <= k < |xs| ==> xs[k] <= t
    ensures CountLeq(xs, t) == |xs|
  {
    if xs != [] {
      CountLeqAllBelow(xs[..|xs| - 1], t);
    }
  }

  lemma {:induction false} CountLeqAllAbove(xs: seq<real>, t: real)
    requires forall k :: 0 <= k < |xs| ==> t < xs[k]
    ensures CountLeq(xs, t) == 0
  {
    if xs != [] {
      CountLeqAllAbove(xs[..|xs| - 1], t);
    }
  }

  /** K(t) depends only on the multiset of atoms, not on their order. */
  lemma {:induction false} CountLeqPermutation(a: seq<real>, b: seq<real>, t: real)
    requires multiset(a) == multiset(b)
    ensures CountLeq(a, t) == CountLeq(b, t)
    decreases |a|
  {
    if a == [] {
      assert |b| == |multiset(b)| == 0;
    } else {
      var a' := a[..|a| - 1];
      var x := a[|a| - 1];
      assert a == a' + [x];
      assert x in multiset(b);
      var k :| 0 <= k < |b| && b[k] == x;
      var b' := b[..k] + b[k + 1..];
      assert b == b[..k] + [x] + b[k + 1..];
      assert multiset(b) == multiset(b[..k]) + multiset{x} + multiset(b[k + 1..]);
      assert multiset(a) == multiset(a') + multiset{x};
      assert multiset(b') == multiset(b[..k]) + multiset(b[k + 1..]);
      assert multiset(a') == multiset(a) - multiset{x};
      assert multiset(b') == multiset(b) - multiset{x};
      CountLeqPermutation(a', b', t);
      CountLeqSnoc(a', x, t);
      CountLeqAppend(b[..k] + [x], b[k + 1..], t);
      CountLeqSnoc(b[..k], x, t);
      CountLeqAppend(b[..k], b[k + 1..], t);
    }
  }

  // ---------------------------------------------------------------------
  // Thresholds as a Python list: occurrences, duplicates, de-duplication
  // ---------------------------------------------------------------------

  predicate Distinct(ts: seq<real>)
  {
    forall i, j :: 0 <= i < j < |ts| ==> ts[i] != ts[j]
  }

  /** The list with every repeated threshold dropped after its first occurrence. */
  function Dedup(ts: seq<real>): (r: seq<real>)
    ensures Distinct(r)
    ensures forall t :: t in r <==> t in ts
    ensures |r| <= |ts|
  {
    if ts == [] then []
    else
      var d := Dedup(ts[..|ts| - 1]);
      var t := ts[|ts| - 1];
      assert forall s :: s in ts <==> s in ts[..|ts| - 1] || s == t by {
        assert ts == ts[..|ts| - 1] + [t];
      }
      if t in d then d else d + [t]
  }

  // ---------------------------------------------------------------------
  // Row tables built block by block
  // ---------------------------------------------------------------------

  /** Concatenation of blocks, the shape of a table appended to in nested loops. */
  function Flatten<T>(bs: seq<seq<T>>): seq<T>
  {
    if bs == [] then [] else Flatten(bs[..|bs| - 1]) + bs[|bs| - 1]
  }

  /** A table of s blocks of width w has s * w rows. */
  lemma {:induction false} FlattenUniformLength<T>(bs: seq<seq<T>>, w: nat)
    requires forall i :: 0 <= i < |bs| ==> |bs[i]| == w
    ensures |Flatten(bs)| == |bs| * w
  {
    if bs != [] {
      var n := |bs| - 1;
      FlattenUniformLength(bs[..n], w);
      MulSucc(n, w);
    }
  }

  /** In a table of equal-width blocks, row b*w + k is column k of block b. */
  lemma {:induction false} FlattenUniformAt<T>(bs: seq<seq<T>>, w: nat, b: nat, k: nat)
    requires forall i :: 0 <= i < |bs| ==> |bs[i]| == w
    requires b < |bs| && k < w
    ensures b * w + k < |Flatten(bs)| && Flatten(bs)[b * w + k] == bs[b][k]
  {
    var n := |bs| - 1;
    var front := bs[..n];
    assert Flatten(bs) == Flatten(front) + bs[n];
    FlattenUniformLength(front, w);
    MulSucc(n, w);
    if b < n {
      FlattenUniformAt(front, w, b, k);
      assert front[b] == bs[b];
    } else {
      assert b * w + k == |Flatten(front)| + k;
    }
  }

  /** Row b * w + j of a table of blocks of width w. */
  function RowAt<T>(rows: seq<T>, w: nat, b: nat, j: nat): T
    requires b * w + j < |rows|
  {
    rows[b * w + j]
  }

  lemma MulSucc(n: nat, w: nat)
    ensures (n + 1) * w == n * w + w
  {
  }

  /** A prefix one longer is the prefix followed by the next element. */
  lemma PrefixSnoc<T>(xs: seq<T>, i: nat)
    requires i < |xs|
    ensures xs[..i + 1] == xs[..i] + [xs[i]]
  {
  }

  /** [f(1), .., f(s)]: the rows a loop over steps 1 .. s appends, one per step. */
  function Tabulate<T>(s: nat, f: nat --> T): (r: seq<T>)
    requires forall k :: 1 <= k <= s ==> f.requires(k)
    ensures |r| == s
  {
    if s == 0 then [] else Tabulate(s - 1, f) + [f(s)]
  }

  /** Entry k of the table is f(k + 1). */
  lemma {:induction false} TabulateAt<T>(s: nat, f: nat --> T, k: nat)
    requires forall k :: 1 <= k <= s ==> f.requires(k)
    requires k < s
    ensures Tabulate(s, f)[k] == f(k + 1)
  {
    if k < s - 1 {
      TabulateAt(s - 1, f, k);
    }
  }
}
