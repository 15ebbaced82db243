/** Sparse histogram storage: the grid geometry and two parallel sequences,
    the global bins that were filled (keys) and their accumulated contents.
    A bin that is not among the keys has content zero. */
module Histogram {
  import opened RowMajor

  /** Distance from the beginning to the first occurrence of bin, or |keys|
      when bin does not occur: the result of a linear find. */
  function Find(keys: seq<nat>, bin: nat): (k: nat)
    ensures k <= |keys|
    ensures k < |keys| ==> keys[k] == bin
    ensures forall j :: 0 <= j < k ==> keys[j] != bin
  {
    if |keys| == 0 then 0
    else if keys[0] == bin then 0
    else 1 + Find(keys[1..], bin)
  }

  /** The contents are long enough wherever a lookup of bin reads them. */
  predicate Readable(keys: seq<nat>, contents: seq<real>, bin: nat)
  {
    bin in keys ==> Find(keys, bin) < |contents|
  }

  /** Content of a bin: the content stored at the first position holding
      the bin, and zero for a bin that is not stored. */
  function Lookup(keys: seq<nat>, contents: seq<real>, bin: nat): (r: real)
    requires Readable(keys, contents, bin)
    ensures bin !in keys ==> r == 0.0
    ensures forall k :: 0 <= k < |keys| && keys[k] == bin && (forall j :: 0 <= j < k ==> keys[j] != bin) ==>
      k < |contents| && r == contents[k]
  {
    var k := Find(keys, bin);
    if k < |keys| then contents[k] else 0.0
  }

  /** Each key occurs once, as after compaction of the filled bins. */
  predicate Distinct(keys: seq<nat>)
  {
    forall a, b :: 0 <= a < b < |keys| ==> keys[a] != keys[b]
  }

  /** On compacted storage the lookup of a stored key answers the content
      stored beside it. */
  lemma LookupStoredKey(keys: seq<nat>, contents: seq<real>, i: nat)
    requires Distinct(keys) && i < |keys| && i < |contents|
    ensures Find(keys, keys[i]) == i && Lookup(keys, contents, keys[i]) == contents[i]
  {
    var k := Find(keys, keys[i]);
    assert k <= i;
  }

  /** The lookup of the one-dimensional storage as written: the position is
      the bin itself, whatever the keys hold. */
  function PositionalContent(keys: seq<nat>, contents: seq<real>, bin: nat): (c: real)
    requires bin < |keys| ==> bin < |contents|
  {
    if bin < |keys| then contents[bin] else 0.0
  }

  /** The positional lookup misses a stored key and invents content for a
      bin that is not stored: with keys [5] and contents [7.0], bin 5 reads
      0.0 instead of 7.0 and bin 0 reads 7.0 instead of 0.0. */
  lemma PositionalContentMissesKeys(keys: seq<nat>, contents: seq<real>, bin: nat)
    requires |keys| <= |contents|
    ensures bin in keys && bin >= |keys| ==>
      PositionalContent(keys, contents, bin) == 0.0 &&
      Lookup(keys, contents, bin) == contents[Find(keys, bin)]
    ensures bin !in keys && bin < |keys| ==>
      PositionalContent(keys, contents, bin) == contents[bin] &&
      Lookup(keys, contents, bin) == 0.0
    ensures keys == [5] && contents == [7.0] ==>
      PositionalContent(keys, contents, 5) == 0.0 && Lookup(keys, contents, 5) == 7.0 &&
      PositionalContent(keys, contents, 0) == 7.0 && Lookup(keys, contents, 0) == 0.0
  {
    if keys == [5] && contents == [7.0] {
      assert Find(keys, 5) == 0;
      assert 0 !in keys;
    }
  }

  /** The N-dimensional sparse histogram. */
  class SparseHistogram {
    const N: nat
    var fUpperLimits: seq<real>
    var fLowerLimits: seq<real>
    var fGrid: seq<nat>
    var fNBins: nat
    var fContents: seq<real>
    var fBins: seq<nat>

    ghost predicate Valid()
      reads this
    {
      |fUpperLimits| == N && |fLowerLimits| == N && |fGrid| == N && fNBins == Product(fGrid)
    }

    /** Construction from bin counts and limits, element by element. */
    constructor (grid: seq<nat>, lowerlimits: seq<real>, upperlimits: seq<real>)
      requires |lowerlimits| == |grid| && |upperlimits| == |grid|
      ensures Valid() && N == |grid|
      ensures fGrid == grid && fLowerLimits == lowerlimits && fUpperLimits == upperlimits
      ensures fNBins == Product(grid)
      ensures fContents == [] && fBins == []
    {
      N := |grid|;
      fNBins := 1;
      fGrid := seq(|grid|, _ => 0);
      fLowerLimits := seq(|grid|, _ => 0.0);
      fUpperLimits := seq(|grid|, _ => 0.0);
      fContents := [];
      fBins := [];
      new;
      for i := 0 to N
        invariant |fGrid| == N && |fLowerLimits| == N && |fUpperLimits| == N
        invariant forall j :: 0 <= j < i ==> fGrid[j] == grid[j]
        invariant forall j :: 0 <= j < i ==> fLowerLimits[j] == lowerlimits[j]
        invariant forall j :: 0 <= j < i ==> fUpperLimits[j] == upperlimits[j]
        invariant fNBins == Product(grid[..i])
        invariant fContents == [] && fBins == []
      {
        assert grid[..i + 1] == grid[..i] + [grid[i]];
        ProductAppend(grid[..i], [grid[i]]);
        assert Product([grid[i]]) == grid[i];
        fGrid := fGrid[i := grid[i]];
        fLowerLimits := fLowerLimits[i := lowerlimits[i]];
        fUpperLimits := fUpperLimits[i := upperlimits[i]];
        fNBins := fNBins * grid[i];
      }
      assert grid[..N] == grid;
      assert fGrid == grid && fLowerLimits == lowerlimits && fUpperLimits == upperlimits;
    }

    /** Copy construction: keys, contents, geometry and bin count. */
    constructor Copy(other: SparseHistogram)
      requires other.Valid()
      ensures Valid() && N == other.N
      ensures fContents == other.fContents && fBins == other.fBins
      ensures fGrid == other.fGrid && fLowerLimits == other.fLowerLimits
      ensures fUpperLimits == other.fUpperLimits && fNBins == other.fNBins
    {
      N := other.N;
      fContents := other.GetContents();
      fBins := other.GetBins();
      fGrid := seq(other.N, _ => 0);
      fLowerLimits := seq(other.N, _ => 0.0);
      fUpperLimits := seq(other.N, _ => 0.0);
      fNBins := 0;
      new;
      for i := 0 to N
        invariant |fGrid| == N && |fLowerLimits| == N && |fUpperLimits| == N
        invariant forall j :: 0 <= j < i ==> fGrid[j] == other.fGrid[j]
        invariant forall j :: 0 <= j < i ==> fLowerLimits[j] == other.fLowerLimits[j]
        invariant forall j :: 0 <= j < i ==> fUpperLimits[j] == other.fUpperLimits[j]
        invariant fContents == other.fContents && fBins == other.fBins
      {
        fGrid := fGrid[i := other.GetGrid(i)];
        fLowerLimits := fLowerLimits[i := other.GetLowerLimits(i)];
        fUpperLimits := fUpperLimits[i := other.GetUpperLimits(i)];
      }
      assert fGrid == other.fGrid;
      assert fLowerLimits == other.fLowerLimits;
      assert fUpperLimits == other.fUpperLimits;
      fNBins := other.GetNBins();
    }

    /** Assignment: copies keys, contents, geometry and bin count; assigning
        an object to itself changes nothing. */
    method Assign(other: SparseHistogram)
      requires Valid() && other.Valid() && other.N == N
      modifies this
      ensures Valid()
      ensures fContents == old(other.fContents) && fBins == old(other.fBins)
      ensures fGrid == old(other.fGrid) && fLowerLimits == old(other.fLowerLimits)
      ensures fUpperLimits == old(other.fUpperLimits) && fNBins == old(other.fNBins)
      ensures other == this ==> unchanged(this)
    {
      if this == other {
        return;
      }
      fContents := other.GetContents();
      fBins := other.GetBins();
      for i := 0 to N
        invariant |fGrid| == N && |fLowerLimits| == N && |fUpperLimits| == N
        invariant forall j :: 0 <= j < i ==> fGrid[j] == other.fGrid[j]
        invariant forall j :: 0 <= j < i ==> fLowerLimits[j] == other.fLowerLimits[j]
        invariant forall j :: 0 <= j < i ==> fUpperLimits[j] == other.fUpperLimits[j]
        invariant fContents == other.fContents && fBins == other.fBins
        invariant unchanged(other)
      {
        fGrid := fGrid[i := other.GetGrid(i)];
        fLowerLimits := fLowerLimits[i := other.GetLowerLimits(i)];
        fUpperLimits := fUpperLimits[i := other.GetUpperLimits(i)];
      }
      assert fGrid == other.fGrid;
      assert fLowerLimits == other.fLowerLimits;
      assert fUpperLimits == other.fUpperLimits;
      fNBins := other.GetNBins();
    }

    function GetContents(): seq<real>
      reads this
    {
      fContents
    }

    function GetBins(): seq<nat>
      reads this
    {
      fBins
    }

    /** Replaces the keys; nothing else changes. */
    method SetBins(bins: seq<nat>)
      modifies this
      ensures fBins == bins && fContents == old(fContents)
      ensures fGrid == old(fGrid) && fLowerLimits == old(fLowerLimits)
      ensures fUpperLimits == old(fUpperLimits) && fNBins == old(fNBins)
      ensures old(Valid()) ==> Valid()
    {
      fBins := bins;
    }

    /** Replaces the contents; nothing else changes. */
    method SetContents(histogram: seq<real>)
      modifies this
      ensures fContents == histogram && fBins == old(fBins)
      ensures fGrid == old(fGrid) && fLowerLimits == old(fLowerLimits)
      ensures fUpperLimits == old(fUpperLimits) && fNBins == old(fNBins)
      ensures old(Valid()) ==> Valid()
    {
      fContents := histogram;
    }

    function GetGrid(i: nat): nat
      reads this
      requires i < |fGrid|
    {
      fGrid[i]
    }

    function GetLowerLimits(i: nat): real
      reads this
      requires i < |fLowerLimits|
    {
      fLowerLimits[i]
    }

    function GetUpperLimits(i: nat): real
      reads this
      requires i < |fUpperLimits|
    {
      fUpperLimits[i]
    }

    function GetNBins(): nat
      reads this
    {
      fNBins
    }

    /** Global bin of a multi-index, by the row-major formula; an in-range
        multi-index lands below the number of bins and unflattens back. */
    method GetBin(bins: seq<nat>) returns (bin: nat)
      requires Valid() && |bins| == N
      ensures bin == Flatten(fGrid, bins)
      ensures InRange(fGrid, bins) ==> bin < fNBins && Unflatten(fGrid, bin) == bins
    {
      bin := 0;
      bin := AccumulateGlobalBin(bins, bin);
      if InRange(fGrid, bins) {
        FlattenBelowProduct(fGrid, bins);
        UnflattenFlatten(fGrid, bins);
      }
    }

    /** Adds to index0 the contribution of every dimension: its index times
        the product of the bin counts of the later dimensions. */
    method AccumulateGlobalBin(indexes: seq<nat>, index0: nat) returns (index: nat)
      requires Valid() && |indexes| == N
      ensures index == index0 + Flatten(fGrid, indexes)
    {
      index := index0;
      for I := 0 to N
        invariant index == index0 + RowMajorSum(fGrid, indexes, I)
      {
        var prod := 1;
        var i := N - 1;
        while i > I
          invariant I <= i <= N - 1
          invariant prod == Product(fGrid[i + 1..])
        {
          ProductSuffix(fGrid, i);
          prod := prod * fGrid[i];
          i := i - 1;
        }
        assert prod == Stride(fGrid, I);
        MulComm(prod, indexes[I]);
        index := index + prod * indexes[I];
      }
    }

    /** Multiplies result by obj[start], obj[start+1], ..., restarting from 1
        when the first element is reached. */
    static method Multiply(obj: seq<nat>, start: nat, result0: nat) returns (result: nat)
      requires start <= |obj|
      ensures result == (if start == 0 && |obj| > 0 then 1 else result0) * Product(obj[start..])
    {
      ghost var base := if start == 0 then 1 else result0;
      result := result0;
      for I := start to |obj|
        invariant I == 0 ==> result == result0
        invariant I > 0 ==> result == base * Product(obj[start..I])
      {
        ProductSnoc(obj, start, I);
        if I == 0 {
          result := 1;
        }
        MulAssoc(base, Product(obj[start..I]), obj[I]);
        result := result * obj[I];
      }
      assert obj[start..|obj|] == obj[start..];
    }

    /** Multi-index of a global bin by successive division by the suffix
        products of the grid; below the number of bins this inverts GetBin. */
    method GetIndexes(globalbin: nat) returns (bins: seq<nat>)
      requires Valid() && TailPositive(fGrid)
      ensures bins == Unflatten(fGrid, globalbin)
      ensures globalbin < fNBins ==> InRange(fGrid, bins) && Flatten(fGrid, bins) == globalbin
    {
      bins := seq(N, _ => 0);
      var index := globalbin;
      for I := 0 to N
        invariant |bins| == N
        invariant TailPositive(fGrid[I..])
        invariant bins[..I] + Unflatten(fGrid[I..], index) == Unflatten(fGrid, globalbin)
      {
        var factor := 1;
        factor := Multiply(fGrid, I + 1, factor);
        assert factor == Product(fGrid[I + 1..]);
        assert fGrid[I..][1..] == fGrid[I + 1..];
        assert AllPositive(fGrid[I + 1..]);
        var q := index / factor;
        ghost var rest := Unflatten(fGrid[I + 1..], index % factor);
        assert Unflatten(fGrid[I..], index) == [q] + rest;
        ghost var done := bins[..I];
        bins := bins[I := q];
        assert bins[..I + 1] == done + [q];
        assert (done + [q]) + rest == done + ([q] + rest);
        index := index % factor;
      }
      assert fGrid[N..] == [] && bins[..N] == bins;
      if globalbin < fNBins {
        FlattenUnflatten(fGrid, globalbin);
      }
    }

    /** Content of a global bin: the content at the first position of the
        bin among the keys, or zero when the bin is not stored. */
    method GetBinContent(bin: nat) returns (c: real)
      requires Readable(fBins, fContents, bin)
      ensures c == Lookup(fBins, fContents, bin)
    {
      var index := 0;
      while index < |fBins| && fBins[index] != bin
        invariant index <= |fBins|
        invariant forall j :: 0 <= j < index ==> fBins[j] != bin
      {
        index := index + 1;
      }
      c := if index < |fBins| then fContents[index] else 0.0;
    }

    /** Content of a bin given by its multi-index: flattened first, then
        looked up among the keys. */
    method GetBinContentAt(bins: seq<nat>) returns (c: real)
      requires Valid() && |bins| == N
      requires Readable(fBins, fContents, Flatten(fGrid, bins))
      ensures c == Lookup(fBins, fContents, Flatten(fGrid, bins))
    {
      var bin := 0;
      bin := AccumulateGlobalBin(bins, bin);
      c := GetBinContent(bin);
    }

    /** Number of stored (key, content) pairs. */
    function Size(): nat
      reads this
    {
      |fBins|
    }

    /** The stored pair at position i; on compacted storage the lookup of
        its key answers its content. */
    function At(i: nat): (r: (nat, real))
      reads this
      requires i < |fBins| && i < |fContents|
      ensures r.0 == fBins[i] && r.1 == fContents[i]
      ensures r.0 in fBins && Readable(fBins, fContents, r.0)
      ensures Distinct(fBins) ==> Lookup(fBins, fContents, r.0) == r.1
    {
      if Distinct(fBins) then LookupStoredKey(fBins, fContents, i); (fBins[i], fContents[i])
      else (fBins[i], fContents[i])
    }
  }

  /** The one-dimensional sparse histogram. */
  class SparseHistogram1 {
    var fUpperLimits: real
    var fLowerLimits: real
    var fGrid: nat
    var fNBins: nat
    var fContents: seq<real>
    var fBins: seq<nat>

    ghost predicate Valid()
      reads this
    {
      fNBins == fGrid
    }

    constructor (grid: nat, lowerlimits: real, upperlimits: real)
      ensures Valid()
      ensures fGrid == grid && fLowerLimits == lowerlimits && fUpperLimits == upperlimits
      ensures fNBins == grid && fContents == [] && fBins == []
    {
      fGrid := grid;
      fLowerLimits := lowerlimits;
      fUpperLimits := upperlimits;
      fNBins := grid;
      fContents := [];
      fBins := [];
    }

    /** Copy construction as written: contents and geometry are copied, the
        keys are left empty. */
    constructor Copy(other: SparseHistogram1)
      ensures fContents == other.fContents && fBins == []
      ensures fGrid == other.fGrid && fLowerLimits == other.fLowerLimits
      ensures fUpperLimits == other.fUpperLimits && fNBins == other.fNBins
    {
      fContents := other.fContents;
      fGrid := other.fGrid;
      fLowerLimits := other.fLowerLimits;
      fUpperLimits := other.fUpperLimits;
      fNBins := other.fNBins;
      fBins := [];
    }

    /** Assignment as written: contents and geometry are copied, the keys
        are kept; assigning an object to itself changes nothing. */
    method Assign(other: SparseHistogram1)
      modifies this
      ensures fContents == old(other.fContents) && fBins == old(fBins)
      ensures fGrid == old(other.fGrid) && fLowerLimits == old(other.fLowerLimits)
      ensures fUpperLimits == old(other.fUpperLimits) && fNBins == old(other.fNBins)
      ensures other == this ==> unchanged(this)
    {
      if this == other {
        return;
      }
      fContents := other.fContents;
      fGrid := other.fGrid;
      fLowerLimits := other.fLowerLimits;
      fUpperLimits := other.fUpperLimits;
      fNBins := other.fNBins;
    }

    /** Replaces the contents; nothing else changes. */
    method SetContents(histogram: seq<real>)
      modifies this
      ensures fContents == histogram && fBins == old(fBins)
      ensures fGrid == old(fGrid) && fLowerLimits == old(fLowerLimits)
      ensures fUpperLimits == old(fUpperLimits) && fNBins == old(fNBins)
    {
      fContents := histogram;
    }

    /** Replaces the keys; nothing else changes. */
    method SetBins(bins: seq<nat>)
      modifies this
      ensures fBins == bins && fContents == old(fContents)
      ensures fGrid == old(fGrid) && fLowerLimits == old(fLowerLimits)
      ensures fUpperLimits == old(fUpperLimits) && fNBins == old(fNBins)
    {
      fBins := bins;
    }

    /** Content of a bin as written: the position of the bin among the keys
        is found and then not used; the contents are read at the bin itself. */
    method GetBinContent(bin: nat) returns (c: real)
      requires bin < |fBins| ==> bin < |fContents|
      ensures c == PositionalContent(fBins, fContents, bin)
    {
      var index := 0;
      while index < |fBins| && fBins[index] != bin
        invariant index <= |fBins|
        invariant forall j :: 0 <= j < index ==> fBins[j] != bin
      {
        index := index + 1;
      }
      c := if bin < |fBins| then fContents[bin] else 0.0;
    }
  }
}
