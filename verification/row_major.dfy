/** Row-major flattening of a multi-index over a grid of per-dimension bin
    counts, and its inverse by successive division by suffix products.
    Both histogram classes and the bin classifier share these definitions. */
module RowMajor {

  /** Product of all entries: the number of bins of a grid. */
  function Product(s: seq<nat>): (r: nat)
    ensures AllPositive(s) ==> r > 0
  {
    if |s| == 0 then 1 else s[0] * Product(s[1..])
  }

  predicate AllPositive(s: seq<nat>)
  {
    forall i :: 0 <= i < |s| ==> s[i] > 0
  }

  /** Every dimension but the first has at least one bin: exactly what
      makes every divisor used when unflattening non-zero. */
  predicate TailPositive(s: seq<nat>)
  {
    forall i :: 1 <= i < |s| ==> s[i] > 0
  }

  lemma {:induction false} ProductAppend(a: seq<nat>, b: seq<nat>)
    ensures Product(a + b) == Product(a) * Product(b)
  {
    if |a| == 0 {
      assert a + b == b;
    } else {
      assert (a + b)[1..] == a[1..] + b;
      ProductAppend(a[1..], b);
      var x, p, q := a[0], Product(a[1..]), Product(b);
      assert Product(a + b) == x * (p * q);
      MulAssoc(x, p, q);
    }
  }

  lemma MulAssoc(x: nat, y: nat, z: nat)
    ensures x * (y * z) == (x * y) * z
  {
  }

  lemma MulComm(x: nat, y: nat)
    ensures x * y == y * x
  {
  }

  lemma MulMonotone(a: nat, b: nat, p: nat)
    requires a <= b
    ensures a * p <= b * p
  {
    var d := b - a;
    assert b * p == a * p + d * p;
  }

  /** A grid with a positive product has no empty dimension. */
  lemma {:induction false} PositiveProductAllPositive(s: seq<nat>)
    requires Product(s) > 0
    ensures AllPositive(s)
  {
    if |s| > 0 {
      assert s[0] > 0 && Product(s[1..]) > 0;
      PositiveProductAllPositive(s[1..]);
      assert forall i :: 1 <= i < |s| ==> s[i] == s[1..][i - 1];
    }
  }

  /** Extending a slice by one element multiplies its product by that element. */
  lemma ProductSnoc(s: seq<nat>, i: nat, j: nat)
    requires i <= j < |s|
    ensures Product(s[i..j + 1]) == Product(s[i..j]) * s[j]
  {
    assert s[i..j + 1] == s[i..j] + [s[j]];
    ProductAppend(s[i..j], [s[j]]);
    assert Product([s[j]]) == s[j];
  }

  /** A suffix product is the first bin count times the next suffix product. */
  lemma ProductSuffix(s: seq<nat>, i: nat)
    requires i < |s|
    ensures Product(s[i..]) == Product(s[i + 1..]) * s[i]
  {
    assert s[i..][1..] == s[i + 1..];
  }

  /** Stride of dimension i: the product of the bin counts of all later
      dimensions, so that the last dimension varies fastest. */
  function Stride(g: seq<nat>, i: nat): (r: nat)
    requires i < |g|
  {
    Product(g[i + 1..])
  }

  /** The first n terms of k = i_1*(d_2*...*d_n) + i_2*(d_3*...*d_n) + ... + i_n. */
  function RowMajorSum(g: seq<nat>, idx: seq<nat>, n: nat): (k: nat)
    requires |idx| == |g| && n <= |g|
  {
    if n == 0 then 0 else RowMajorSum(g, idx, n - 1) + idx[n - 1] * Stride(g, n - 1)
  }

  /** The global bin of a multi-index. */
  function Flatten(g: seq<nat>, idx: seq<nat>): (k: nat)
    requires |idx| == |g|
  {
    RowMajorSum(g, idx, |g|)
  }

  /** A multi-index addresses a bin of the grid. */
  predicate InRange(g: seq<nat>, idx: seq<nat>)
  {
    |idx| == |g| && forall i :: 0 <= i < |g| ==> idx[i] < g[i]
  }

  lemma {:induction false} RowMajorSumCons(g: seq<nat>, idx: seq<nat>, n: nat)
    requires |idx| == |g| && 1 <= n <= |g|
    ensures RowMajorSum(g, idx, n) == idx[0] * Stride(g, 0) + RowMajorSum(g[1..], idx[1..], n - 1)
  {
    if n > 1 {
      RowMajorSumCons(g, idx, n - 1);
      assert g[n..] == g[1..][n - 1..];
    }
  }

  /** The first dimension contributes its index times the product of all
      other bin counts; the rest is the flattening of the remaining dimensions. */
  lemma FlattenCons(g: seq<nat>, idx: seq<nat>)
    requires |idx| == |g| && |g| >= 1
    ensures Flatten(g, idx) == idx[0] * Product(g[1..]) + Flatten(g[1..], idx[1..])
  {
    RowMajorSumCons(g, idx, |g|);
  }

  /** Every in-range multi-index flattens below the total number of bins,
      so it never collides with the sentinels Product(g) and Product(g) + 1. */
  lemma {:induction false} FlattenBelowProduct(g: seq<nat>, idx: seq<nat>)
    requires InRange(g, idx)
    ensures Flatten(g, idx) < Product(g)
  {
    if |g| > 0 {
      FlattenCons(g, idx);
      FlattenBelowProduct(g[1..], idx[1..]);
      var p := Product(g[1..]);
      MulMonotone(idx[0] + 1, g[0], p);
      assert (idx[0] + 1) * p == idx[0] * p + p;
    }
  }

  /** Euclidean division recovers quotient and remainder. */
  lemma DivModOfCombination(q: nat, r: nat, b: nat)
    requires r < b
    ensures (q * b + r) / b == q && (q * b + r) % b == r
  {
    var k := q * b + r;
    var d := k / b - q;
    assert d * b == r - k % b;
  }

  /** Multi-index of a global bin: index I is what remains after the earlier
      dimensions, divided by the stride of I; the remainder goes on. */
  function Unflatten(g: seq<nat>, k: nat): (idx: seq<nat>)
    requires TailPositive(g)
    ensures |idx| == |g|
  {
    if |g| == 0 then []
    else
      var f := Product(g[1..]);
      [k / f] + Unflatten(g[1..], k % f)
  }

  /** Unflattening undoes flattening on every in-range multi-index. */
  lemma {:induction false} UnflattenFlatten(g: seq<nat>, idx: seq<nat>)
    requires InRange(g, idx)
    ensures TailPositive(g) && Unflatten(g, Flatten(g, idx)) == idx
  {
    if |g| > 0 {
      var p := Product(g[1..]);
      var f := Flatten(g[1..], idx[1..]);
      FlattenCons(g, idx);
      FlattenBelowProduct(g[1..], idx[1..]);
      DivModOfCombination(idx[0], f, p);
      UnflattenFlatten(g[1..], idx[1..]);
      assert idx == [idx[0]] + idx[1..];
    }
  }

  /** Every global bin below the total unflattens to an in-range multi-index
      that flattens back to it. */
  lemma {:induction false} FlattenUnflatten(g: seq<nat>, k: nat)
    requires k < Product(g)
    ensures TailPositive(g) && InRange(g, Unflatten(g, k)) && Flatten(g, Unflatten(g, k)) == k
  {
    PositiveProductAllPositive(g);
    if |g| > 0 {
      var p := Product(g[1..]);
      var q, r := k / p, k % p;
      assert k == q * p + r;
      assert q < g[0];
      FlattenUnflatten(g[1..], r);
      var idx := Unflatten(g, k);
      assert idx[0] == q && idx[1..] == Unflatten(g[1..], r);
      FlattenCons(g, idx);
    }
  }

  /** Distinct in-range multi-indices have distinct global bins. */
  lemma FlattenInjective(g: seq<nat>, a: seq<nat>, b: seq<nat>)
    requires InRange(g, a) && InRange(g, b) && Flatten(g, a) == Flatten(g, b)
    ensures a == b
  {
    UnflattenFlatten(g, a);
    UnflattenFlatten(g, b);
  }
}
