/** The bin classifier: maps an N-dimensional coordinate to a global bin,
    with the shared sentinels Product(grid) for underflow and
    Product(grid) + 1 for overflow. Coordinates are reals. */
module GlobalBin {
  import opened RowMajor

  /** A coordinate of one dimension expressed in bin units. */
  function Scaled(x: real, lower: real, grid: nat, delta: real): (r: real)
    requires delta != 0.0
  {
    (x - lower) * (grid as real) / delta
  }

  predicate NonZero(delta: seq<real>)
  {
    forall i :: 0 <= i < |delta| ==> delta[i] != 0.0
  }

  /** Grid, lower limits, widths and coordinate all have one entry per
      dimension, and no width is zero. */
  predicate Shaped(grid: seq<nat>, lower: seq<real>, delta: seq<real>, x: seq<real>)
  {
    |lower| == |grid| && |delta| == |grid| && |x| == |grid| && NonZero(delta)
  }

  function ScaledAll(grid: seq<nat>, lower: seq<real>, delta: seq<real>, x: seq<real>): (s: seq<real>)
    requires Shaped(grid, lower, delta, x)
  {
    seq(|grid|, i requires 0 <= i < |grid| => Scaled(x[i], lower[i], grid[i], delta[i]))
  }

  predicate Underflows(s: seq<real>)
  {
    exists i :: 0 <= i < |s| && s[i] < 0.0
  }

  /** Some scaled value lies strictly above its bin count. */
  predicate Overflows(s: seq<real>, grid: seq<nat>)
    requires |s| == |grid|
  {
    exists i :: 0 <= i < |s| && s[i] > grid[i] as real
  }

  /** Conversion of a non-negative floating value to an unsigned integer. */
  function Trunc(x: real): (r: nat)
    requires x >= 0.0
    ensures r as real <= x < r as real + 1.0
  {
    x.Floor
  }

  function Truncate(s: seq<real>): (idx: seq<nat>)
    requires forall i :: 0 <= i < |s| ==> s[i] >= 0.0
  {
    seq(|s|, i requires 0 <= i < |s| => Trunc(s[i]))
  }

  /** The classification the functor computes: underflow is checked first,
      then overflow with a strict comparison, otherwise the truncated
      scaled values are flattened row-major. */
  function Classify(grid: seq<nat>, lower: seq<real>, delta: seq<real>, x: seq<real>): (r: nat)
    requires Shaped(grid, lower, delta, x)
  {
    var s := ScaledAll(grid, lower, delta, x);
    if Underflows(s) then Product(grid)
    else if Overflows(s, grid) then Product(grid) + 1
    else Flatten(grid, Truncate(s))
  }

  /** One underflowing dimension decides the result, whatever the other
      dimensions hold (overflowing ones included). */
  lemma UnderflowDominates(grid: seq<nat>, lower: seq<real>, delta: seq<real>, x: seq<real>, i: nat)
    requires Shaped(grid, lower, delta, x) && i < |grid|
    requires Scaled(x[i], lower[i], grid[i], delta[i]) < 0.0
    ensures Classify(grid, lower, delta, x) == Product(grid)
  {
    assert ScaledAll(grid, lower, delta, x)[i] < 0.0;
  }

  /** Without underflow, one dimension strictly above its bin count yields
      the overflow sentinel. */
  lemma OverflowWithoutUnderflow(grid: seq<nat>, lower: seq<real>, delta: seq<real>, x: seq<real>, j: nat)
    requires Shaped(grid, lower, delta, x) && j < |grid|
    requires forall i :: 0 <= i < |grid| ==> Scaled(x[i], lower[i], grid[i], delta[i]) >= 0.0
    requires Scaled(x[j], lower[j], grid[j], delta[j]) > grid[j] as real
    ensures Classify(grid, lower, delta, x) == Product(grid) + 1
  {
    var s := ScaledAll(grid, lower, delta, x);
    assert s[j] > grid[j] as real;
    assert !Underflows(s) by {
      forall i | 0 <= i < |s| ensures s[i] >= 0.0 {
        assert s[i] == Scaled(x[i], lower[i], grid[i], delta[i]);
      }
    }
  }

  /** When every scaled value lies in [0, grid[i]) the result is a valid bin
      below the total, and unflattening it gives back the bin of each
      dimension: the index k with k <= scaled < k + 1. */
  lemma ClassifyInGrid(grid: seq<nat>, lower: seq<real>, delta: seq<real>, x: seq<real>)
    requires Shaped(grid, lower, delta, x)
    requires forall i :: 0 <= i < |grid| ==>
      0.0 <= Scaled(x[i], lower[i], grid[i], delta[i]) < grid[i] as real
    ensures Classify(grid, lower, delta, x) < Product(grid)
    ensures TailPositive(grid)
    ensures var idx := Unflatten(grid, Classify(grid, lower, delta, x));
      forall i :: 0 <= i < |grid| ==>
        idx[i] < grid[i] &&
        idx[i] as real <= Scaled(x[i], lower[i], grid[i], delta[i]) < idx[i] as real + 1.0
  {
    var s := ScaledAll(grid, lower, delta, x);
    assert forall i :: 0 <= i < |s| ==> s[i] == Scaled(x[i], lower[i], grid[i], delta[i]);
    assert !Underflows(s);
    assert !Overflows(s, grid);
    var t := Truncate(s);
    assert InRange(grid, t) by {
      forall i | 0 <= i < |grid| ensures t[i] < grid[i] {
        assert t[i] as real <= s[i] < grid[i] as real;
      }
    }
    assert Classify(grid, lower, delta, x) == Flatten(grid, t);
    FlattenBelowProduct(grid, t);
    UnflattenFlatten(grid, t);
    forall i | 0 <= i < |grid|
      ensures t[i] as real <= Scaled(x[i], lower[i], grid[i], delta[i]) < t[i] as real + 1.0
    {
      assert t[i] == Trunc(s[i]);
    }
  }

  /** A scaled value exactly equal to its bin count is not flagged: its
      truncated index is the bin count itself, one past the last bin. */
  lemma UpperEdgeNotFlagged(grid: seq<nat>, lower: seq<real>, delta: seq<real>, x: seq<real>, j: nat)
    requires Shaped(grid, lower, delta, x) && j < |grid|
    requires forall i :: 0 <= i < |grid| ==>
      0.0 <= Scaled(x[i], lower[i], grid[i], delta[i]) <= grid[i] as real
    requires Scaled(x[j], lower[j], grid[j], delta[j]) == grid[j] as real
    ensures var s := ScaledAll(grid, lower, delta, x);
      !Underflows(s) && !Overflows(s, grid) &&
      Truncate(s)[j] == grid[j] && !InRange(grid, Truncate(s))
  {
    var s := ScaledAll(grid, lower, delta, x);
    assert forall i :: 0 <= i < |s| ==> s[i] == Scaled(x[i], lower[i], grid[i], delta[i]);
    assert Trunc(s[j]) == grid[j];
  }

  /** A 2x2 grid over [0,2)x[0,2): interior points land in bins 0 and 3,
      a point left of the first dimension in the underflow sentinel 4 and a
      point right of it in the overflow sentinel 5. */
  lemma TwoByTwoGrid()
    ensures Classify([2, 2], [0.0, 0.0], [2.0, 2.0], [0.5, 0.5]) == 0
    ensures Classify([2, 2], [0.0, 0.0], [2.0, 2.0], [1.5, 1.5]) == 3
    ensures Classify([2, 2], [0.0, 0.0], [2.0, 2.0], [-1.0, 0.5]) == 4
    ensures Classify([2, 2], [0.0, 0.0], [2.0, 2.0], [3.0, 0.5]) == 5
  {
    var g: seq<nat> := [2, 2];
    assert g[1..] == [2] && g[2..] == [];
    var lo, d := [0.0, 0.0], [2.0, 2.0];
    var s1 := ScaledAll(g, lo, d, [0.5, 0.5]);
    assert s1 == [0.5, 0.5];
    assert Truncate(s1) == [0, 0];
    var s2 := ScaledAll(g, lo, d, [1.5, 1.5]);
    assert s2 == [1.5, 1.5];
    assert Truncate(s2) == [1, 1];
    var s3 := ScaledAll(g, lo, d, [-1.0, 0.5]);
    assert s3[0] < 0.0;
    var s4 := ScaledAll(g, lo, d, [3.0, 0.5]);
    assert s4 == [3.0, 0.5];
  }

  /** As written, a coordinate on the upper edge of the second dimension
      of a 2x2 grid over [0,2)x[0,2) lands in the same global bin (2) as the
      interior point (1.0, 0.5) of bin (1, 0). */
  lemma UpperEdgeAliasesInteriorBin()
    ensures Classify([2, 2], [0.0, 0.0], [2.0, 2.0], [0.5, 2.0]) == 2
    ensures Classify([2, 2], [0.0, 0.0], [2.0, 2.0], [1.0, 0.5]) == 2
  {
    var g: seq<nat> := [2, 2];
    assert g[1..] == [2] && g[2..] == [];
    var s1 := ScaledAll(g, [0.0, 0.0], [2.0, 2.0], [0.5, 2.0]);
    assert s1 == [0.5, 2.0];
    assert Truncate(s1) == [0, 2];
    var s2 := ScaledAll(g, [0.0, 0.0], [2.0, 2.0], [1.0, 0.5]);
    assert s2 == [1.0, 0.5];
    assert Truncate(s2) == [1, 0];
  }

  /** At N = 1 the rule reads: the underflow sentinel (the bin count) when
      the scaled value is negative, the overflow sentinel when it exceeds the
      bin count, and otherwise the truncated scaled value. */
  lemma ClassifyOneDim(grid: nat, lower: real, delta: real, x: real)
    requires delta != 0.0
    ensures var X := Scaled(x, lower, grid, delta);
      Classify([grid], [lower], [delta], [x]) ==
        if X < 0.0 then grid else if X > grid as real then grid + 1 else Trunc(X)
  {
    var X := Scaled(x, lower, grid, delta);
    var s := ScaledAll([grid], [lower], [delta], [x]);
    assert s[0] == X;
    assert s == [X];
    assert [grid][1..] == [];
    assert Product([grid]) == grid;
    assert Underflows(s) <==> X < 0.0;
    assert !Underflows(s) ==> (Overflows(s, [grid]) <==> X > grid as real);
    if !Underflows(s) && !Overflows(s, [grid]) {
      assert Truncate(s) == [Trunc(X)];
      assert Stride([grid], 0) == 1;
      assert Flatten([grid], [Trunc(X)]) == RowMajorSum([grid], [Trunc(X)], 1) == Trunc(X);
    }
  }

  /** Multiplying by a non-zero width and dividing by it again is the identity. */
  lemma DivCancel(d: real, g: real)
    requires d != 0.0
    ensures d * g / d == g
  {
  }

  /** As written, in one dimension the upper limit itself classifies as
      the bin count, which is also the underflow sentinel. */
  lemma OneDimUpperEdgeIsUnderflowSentinel(grid: nat, lower: real, delta: real)
    requires delta != 0.0
    ensures Classify([grid], [lower], [delta], [lower + delta]) == grid
  {
    var g := grid as real;
    UpperLimitScalesToGrid(grid, lower, delta);
    ClassifyOneDim(grid, lower, delta, lower + delta);
    assert Trunc(g) == grid;
  }

  /** The upper limit lower + delta lies exactly grid bins above the lower limit. */
  lemma UpperLimitScalesToGrid(grid: nat, lower: real, delta: real)
    requires delta != 0.0
    ensures Scaled(lower + delta, lower, grid, delta) == grid as real
  {
    var x, g := lower + delta, grid as real;
    assert x - lower == delta;
    calc {
      Scaled(x, lower, grid, delta);
      (x - lower) * g / delta;
      delta * g / delta;
      { DivCancel(delta, g); }
      g;
    }
  }

  /** Overflow with the half-open test scaled >= grid: every bin is [k, k+1). */
  predicate OverflowsHalfOpen(s: seq<real>, grid: seq<nat>)
    requires |s| == |grid|
  {
    exists i :: 0 <= i < |s| && s[i] >= grid[i] as real
  }

  /** The classification with a half-open upper bound. */
  function ClassifyHalfOpen(grid: seq<nat>, lower: seq<real>, delta: seq<real>, x: seq<real>): (r: nat)
    requires Shaped(grid, lower, delta, x)
  {
    var s := ScaledAll(grid, lower, delta, x);
    if Underflows(s) then Product(grid)
    else if OverflowsHalfOpen(s, grid) then Product(grid) + 1
    else Flatten(grid, Truncate(s))
  }

  /** With the half-open test, the three outcomes are separated: the result
      is below the total exactly when every scaled value lies in [0, grid[i]),
      it is the underflow sentinel exactly when some dimension underflows and
      the overflow sentinel otherwise; no coordinate reaches past Product + 1. */
  lemma HalfOpenSeparates(grid: seq<nat>, lower: seq<real>, delta: seq<real>, x: seq<real>)
    requires Shaped(grid, lower, delta, x)
    ensures var s := ScaledAll(grid, lower, delta, x);
      var r := ClassifyHalfOpen(grid, lower, delta, x);
      && (r < Product(grid) <==> forall i :: 0 <= i < |s| ==> 0.0 <= s[i] < grid[i] as real)
      && (r == Product(grid) <==> Underflows(s))
      && (r == Product(grid) + 1 <==> !Underflows(s) && OverflowsHalfOpen(s, grid))
      && r <= Product(grid) + 1
  {
    var s := ScaledAll(grid, lower, delta, x);
    if !Underflows(s) && !OverflowsHalfOpen(s, grid) {
      var t := Truncate(s);
      assert InRange(grid, t) by {
        forall i | 0 <= i < |grid| ensures t[i] < grid[i] {
          assert t[i] as real <= s[i] < grid[i] as real;
        }
      }
      FlattenBelowProduct(grid, t);
    }
  }

  /** With the half-open test, two coordinates share an in-grid global bin
      only if they fall in the same bin in every dimension. */
  lemma HalfOpenNoAliasing(grid: seq<nat>, lower: seq<real>, delta: seq<real>, x: seq<real>, y: seq<real>)
    requires Shaped(grid, lower, delta, x) && Shaped(grid, lower, delta, y)
    requires ClassifyHalfOpen(grid, lower, delta, x) == ClassifyHalfOpen(grid, lower, delta, y) < Product(grid)
    ensures forall i :: 0 <= i < |grid| ==>
      Trunc(Scaled(x[i], lower[i], grid[i], delta[i]) ) == Trunc(Scaled(y[i], lower[i], grid[i], delta[i]))
  {
    var sx := ScaledAll(grid, lower, delta, x);
    var sy := ScaledAll(grid, lower, delta, y);
    HalfOpenSeparates(grid, lower, delta, x);
    HalfOpenSeparates(grid, lower, delta, y);
    var tx, ty := Truncate(sx), Truncate(sy);
    assert InRange(grid, tx) by {
      forall i | 0 <= i < |grid| ensures tx[i] < grid[i] {
        assert tx[i] as real <= sx[i] < grid[i] as real;
      }
    }
    assert InRange(grid, ty) by {
      forall i | 0 <= i < |grid| ensures ty[i] < grid[i] {
        assert ty[i] as real <= sy[i] < grid[i] as real;
      }
    }
    FlattenInjective(grid, tx, ty);
    assert forall i :: 0 <= i < |grid| ==> tx[i] == Trunc(sx[i]) && ty[i] == Trunc(sy[i]);
  }

  /** The N-dimensional functor: per-dimension bin counts, lower limits and
      widths, and the total number of bins. */
  class GetGlobalBin {
    const N: nat
    var fLowerLimits: seq<real>
    var fDelta: seq<real>
    var fGrid: seq<nat>
    var fNGlobalBins: nat

    ghost predicate Valid()
      reads this
    {
      |fLowerLimits| == N && |fDelta| == N && |fGrid| == N && fNGlobalBins == Product(fGrid)
    }

    constructor (grid: seq<nat>, lowerlimits: seq<real>, upperlimits: seq<real>)
      requires |lowerlimits| == |grid| && |upperlimits| == |grid|
      ensures Valid() && N == |grid|
      ensures fGrid == grid && fLowerLimits == lowerlimits && fNGlobalBins == Product(grid)
      ensures forall i :: 0 <= i < N ==> fDelta[i] == upperlimits[i] - lowerlimits[i]
    {
      N := |grid|;
      fNGlobalBins := 1;
      fGrid := seq(|grid|, _ => 0);
      fLowerLimits := seq(|grid|, _ => 0.0);
      fDelta := seq(|grid|, _ => 0.0);
      new;
      for i := 0 to N
        invariant |fGrid| == N && |fLowerLimits| == N && |fDelta| == N
        invariant fNGlobalBins == Product(grid[..i])
        invariant forall j :: 0 <= j < i ==> fGrid[j] == grid[j]
        invariant forall j :: 0 <= j < i ==> fLowerLimits[j] == lowerlimits[j]
        invariant forall j :: 0 <= j < i ==> fDelta[j] == upperlimits[j] - lowerlimits[j]
      {
        assert grid[..i + 1] == grid[..i] + [grid[i]];
        ProductAppend(grid[..i], [grid[i]]);
        assert Product([grid[i]]) == grid[i];
        fNGlobalBins := fNGlobalBins * grid[i];
        fGrid := fGrid[i := grid[i]];
        fLowerLimits := fLowerLimits[i := lowerlimits[i]];
        fDelta := fDelta[i := upperlimits[i] - lowerlimits[i]];
      }
      assert grid[..N] == grid;
      assert fGrid == grid && fLowerLimits == lowerlimits;
    }

    /** Copy construction. */
    constructor Copy(other: GetGlobalBin)
      requires other.Valid()
      ensures Valid() && N == other.N
      ensures fGrid == other.fGrid && fDelta == other.fDelta && fLowerLimits == other.fLowerLimits
      ensures fNGlobalBins == other.fNGlobalBins
    {
      N := other.N;
      fNGlobalBins := other.fNGlobalBins;
      fGrid := seq(other.N, _ => 0);
      fLowerLimits := seq(other.N, _ => 0.0);
      fDelta := seq(other.N, _ => 0.0);
      new;
      for i := 0 to N
        invariant |fGrid| == N && |fLowerLimits| == N && |fDelta| == N
        invariant forall j :: 0 <= j < i ==> fGrid[j] == other.fGrid[j]
        invariant forall j :: 0 <= j < i ==> fDelta[j] == other.fDelta[j]
        invariant forall j :: 0 <= j < i ==> fLowerLimits[j] == other.fLowerLimits[j]
      {
        fGrid := fGrid[i := other.fGrid[i]];
        fDelta := fDelta[i := other.fDelta[i]];
        fLowerLimits := fLowerLimits[i := other.fLowerLimits[i]];
      }
      assert fGrid == other.fGrid;
      assert fDelta == other.fDelta;
      assert fLowerLimits == other.fLowerLimits;
      fNGlobalBins := other.fNGlobalBins;
    }

    /** Assignment; assigning an object to itself changes nothing. */
    method Assign(other: GetGlobalBin)
      requires Valid() && other.Valid() && other.N == N
      modifies this
      ensures Valid()
      ensures fGrid == old(other.fGrid) && fDelta == old(other.fDelta)
      ensures fLowerLimits == old(other.fLowerLimits) && fNGlobalBins == old(other.fNGlobalBins)
      ensures other == this ==> unchanged(this)
    {
      if this == other {
        return;
      }
      for i := 0 to N
        invariant |fGrid| == N && |fLowerLimits| == N && |fDelta| == N
        invariant forall j :: 0 <= j < i ==> fGrid[j] == other.fGrid[j]
        invariant forall j :: 0 <= j < i ==> fDelta[j] == other.fDelta[j]
        invariant forall j :: 0 <= j < i ==> fLowerLimits[j] == other.fLowerLimits[j]
        invariant other.fGrid == old(other.fGrid) && other.fDelta == old(other.fDelta)
        invariant other.fLowerLimits == old(other.fLowerLimits)
        invariant other.fNGlobalBins == old(other.fNGlobalBins)
      {
        fGrid := fGrid[i := other.fGrid[i]];
        fDelta := fDelta[i := other.fDelta[i]];
        fLowerLimits := fLowerLimits[i := other.fLowerLimits[i]];
      }
      assert fGrid == other.fGrid;
      assert fDelta == other.fDelta;
      assert fLowerLimits == other.fLowerLimits;
      fNGlobalBins := other.fNGlobalBins;
    }

    /** Adds to index0 the row-major contribution of every dimension, each
        stride computed by an inner product over the later dimensions. */
    method AccumulateGlobalBin(indexes: array<nat>, index0: nat) returns (index: nat)
      requires Valid() && indexes.Length == N
      ensures index == index0 + Flatten(fGrid, indexes[..])
    {
      index := index0;
      for I := 0 to N
        invariant index == index0 + RowMajorSum(fGrid, indexes[..], I)
      {
        var prod := 1;
        var i := N - 1;
        while i > I
          invariant I <= i <= N - 1
          invariant prod == Product(fGrid[i + 1..])
        {
          ProductSuffix(fGrid, i);
          prod := prod * fGrid[i];
          i := i - 1;
        }
        assert prod == Stride(fGrid, I);
        MulComm(prod, indexes[I]);
        index := index + prod * indexes[I];
      }
    }

    /** The global bin of a coordinate already in bin units and non-negative:
        each value truncated, then flattened. */
    method GetBin(X: array<real>) returns (bin: nat)
      requires Valid() && X.Length == N
      requires forall i :: 0 <= i < N ==> X[i] >= 0.0
      ensures bin == Flatten(fGrid, Truncate(X[..]))
    {
      var indexes := new nat[N];
      for i := 0 to N
        invariant forall j :: 0 <= j < i ==> indexes[j] == Trunc(X[j])
      {
        indexes[i] := Trunc(X[i]);
      }
      assert indexes[..] == Truncate(X[..]);
      bin := 0;
      bin := AccumulateGlobalBin(indexes, bin);
    }

    /** Classifies a coordinate: scales every component in place, raises the
        underflow and overflow flags, and answers with a sentinel or the
        flattened bin. */
    method Apply(value: seq<real>) returns (result: nat)
      requires Valid() && |value| == N && NonZero(fDelta)
      ensures result == Classify(fGrid, fLowerLimits, fDelta, value)
    {
      var X := new real[N];
      for i := 0 to N
        invariant forall j :: 0 <= j < i ==> X[j] == value[j]
      {
        X[i] := value[i];
      }
      ghost var s := ScaledAll(fGrid, fLowerLimits, fDelta, value);
      var is_underflow := false;
      var is_overflow := false;
      for i := 0 to N
        invariant forall j :: 0 <= j < i ==> X[j] == s[j]
        invariant forall j :: i <= j < N ==> X[j] == value[j]
        invariant is_underflow <==> exists j :: 0 <= j < i && s[j] < 0.0
        invariant is_overflow <==> exists j :: 0 <= j < i && s[j] > fGrid[j] as real
      {
        X[i] := Scaled(X[i], fLowerLimits[i], fGrid[i], fDelta[i]);
        if X[i] < 0.0 { is_underflow := true; }
        if X[i] > fGrid[i] as real { is_overflow := true; }
      }
      assert X[..] == s;
      if is_underflow {
        result := fNGlobalBins;
      } else if is_overflow {
        result := fNGlobalBins + 1;
      } else {
        result := GetBin(X);
      }
    }
  }

  /** The one-dimensional functor. */
  class GetGlobalBin1 {
    var fLowerLimits: real
    var fDelta: real
    var fGrid: nat
    var fNGlobalBins: nat

    ghost predicate Valid()
      reads this
    {
      fNGlobalBins == fGrid
    }

    constructor (grid: nat, lowerlimits: real, upperlimits: real)
      ensures Valid()
      ensures fLowerLimits == lowerlimits && fDelta == upperlimits - lowerlimits
      ensures fGrid == grid && fNGlobalBins == grid
    {
      fLowerLimits := lowerlimits;
      fDelta := upperlimits - lowerlimits;
      fGrid := grid;
      fNGlobalBins := grid;
    }

    constructor Copy(other: GetGlobalBin1)
      ensures fNGlobalBins == other.fNGlobalBins && fGrid == other.fGrid
      ensures fDelta == other.fDelta && fLowerLimits == other.fLowerLimits
    {
      fNGlobalBins := other.fNGlobalBins;
      fGrid := other.fGrid;
      fDelta := other.fDelta;
      fLowerLimits := other.fLowerLimits;
    }

    /** Assignment; assigning an object to itself changes nothing. */
    method Assign(other: GetGlobalBin1)
      modifies this
      ensures fGrid == old(other.fGrid) && fDelta == old(other.fDelta)
      ensures fLowerLimits == old(other.fLowerLimits) && fNGlobalBins == old(other.fNGlobalBins)
      ensures other == this ==> unchanged(this)
    {
      if this == other {
        return;
      }
      fGrid := other.fGrid;
      fDelta := other.fDelta;
      fLowerLimits := other.fLowerLimits;
      fNGlobalBins := other.fNGlobalBins;
    }

    /** The bin of a non-negative value already in bin units: its
        conversion to an unsigned integer. */
    static function GetBin(X: real): (r: nat)
      requires X >= 0.0
      ensures r as real <= X < r as real + 1.0
    {
      Trunc(X)
    }

    /** Classifies a value; agrees with the N-dimensional rule at N = 1. */
    function Apply(value: real): (r: nat)
      reads this
      requires Valid() && fDelta != 0.0
      ensures r == Classify([fGrid], [fLowerLimits], [fDelta], [value])
    {
      ClassifyOneDim(fGrid, fLowerLimits, fDelta, value);
      var X := Scaled(value, fLowerLimits, fGrid, fDelta);
      if X < 0.0 then fNGlobalBins
      else if X > fGrid as real then fNGlobalBins + 1
      else GetBin(X)
    }
  }
}
