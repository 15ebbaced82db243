# Hydra histogram indexing and sparse storage, modelled in Dafny

This project models the indexing core of Hydra's multidimensional histograms:

- **The bin classifier** `GetGlobalBin` (N dimensions and its one-dimensional
  specialisation). It scales each coordinate to bin units. Any negative scaled
  value gives the underflow sentinel `fNGlobalBins`. Otherwise any scaled value
  strictly above its bin count gives the overflow sentinel `fNGlobalBins + 1`.
  Otherwise the truncated values are flattened row-major.
- **The sparse histogram** `SparseHistogram` (N dimensions and the
  one-dimensional specialisation). It holds the grid geometry, the filled
  global bins `fBins` (keys) and their contents `fContents`. It converts a
  multi-index to a global bin and back. It looks contents up by a linear
  search over the keys, and a bin that is not stored reads as 0.0.

Files:

- `row_major.dfy` (module `RowMajor`). `Flatten` is the row-major formula
  `k = i_1*(d_2*...*d_n) + ... + i_n`, exactly as the source comments state it.
  `Unflatten` is the successive division and remainder by suffix products.
  The two round trips are proved, and so is the bound `Flatten < Product(grid)`.
- `global_bin.dfy` (module `GlobalBin`). `Classify` is the classification rule
  as a function. The classes `GetGlobalBin` and `GetGlobalBin1` model the
  functors. Their fields are sequences, because C arrays embedded in a struct
  are copied by value. Their loops are proved equal to the rule.
- `sparse_histogram.dfy` (module `Histogram`). `Find` and `Lookup` model the
  linear search. The classes `SparseHistogram` and `SparseHistogram1` model
  the two containers.

Modelling choices:

- `std::size_t` is `nat` and `double` is `real`.
- Truncation of a non-negative double to `size_t` is `Floor`.
- The getters (`GetContents`, `GetBins`, `GetGrid`, `GetLowerLimits`,
  `GetUpperLimits`, `GetNBins`) and `Size` are plain field reads without
  contracts.
- The one-dimensional copy constructor and assignment copy the contents and
  the geometry but not the keys (hydra/SparseHistogram.h:619-637). The copy
  therefore starts with no keys, and assignment keeps the target's own keys.
  The model keeps this behaviour.
- The source validates nothing at construction: it does not check that
  `grid[i] > 0` or that `upper > lower`. Nor does the model. The model only
  excludes what would divide by zero: a zero width when classifying, and a
  zero bin count in a later dimension when unflattening.

## Model

| member | source | states |
|---|---|---|
| `RowMajor.Product` | hydra/SparseHistogram.h:97-104 | The total number of bins is positive when every dimension has at least one bin. |
| `RowMajor.FlattenBelowProduct` | hydra/detail/functors/GetGlobalBin.h:84-102 | An in-range multi-index flattens below the total bin count, so it never equals a sentinel. |
| `RowMajor.UnflattenFlatten` | hydra/SparseHistogram.h:441-560 | For every multi-index with `idx[i] < grid[i]`, unflattening its global bin gives back the multi-index. |
| `RowMajor.FlattenUnflatten` | hydra/SparseHistogram.h:441-560 | For every global bin `k < Product(grid)`, its multi-index is in range and flattens back to `k`. |
| `RowMajor.FlattenInjective` | hydra/SparseHistogram.h:441-475 | Two distinct in-range multi-indices never share a global bin. |
| `GlobalBin.Trunc` | hydra/detail/functors/GetGlobalBin.h:111-112 | Converting a non-negative scaled value to an integer gives the `k` with `k <= x < k + 1`. |
| `GlobalBin.UnderflowDominates` | hydra/detail/functors/GetGlobalBin.h:132-141 | One negative scaled value yields `Product(grid)`, whatever the other dimensions hold, overflowing ones included. |
| `GlobalBin.OverflowWithoutUnderflow` | hydra/detail/functors/GetGlobalBin.h:136-141 | With no negative scaled value, one value strictly above its bin count yields `Product(grid) + 1`. |
| `GlobalBin.ClassifyInGrid` | hydra/detail/functors/GetGlobalBin.h:106-141 | When every scaled value lies in `[0, grid[i])`, the result is below `Product(grid)`. Unflattening it gives, per dimension, the index `k` with `k <= scaled < k + 1`. |
| `GlobalBin.UpperEdgeNotFlagged` | hydra/detail/functors/GetGlobalBin.h:137 | A scaled value exactly equal to its bin count raises no flag. Its truncated index is the bin count, which is outside the grid. |
| `GlobalBin.TwoByTwoGrid` | hydra/detail/functors/GetGlobalBin.h:122-146 | On a 2x2 grid over [0,2)x[0,2), (0.5,0.5) goes to bin 0 and (1.5,1.5) to bin 3. (-1,0.5) gives underflow sentinel 4 and (3,0.5) gives overflow sentinel 5. |
| `GlobalBin.UpperEdgeAliasesInteriorBin` | hydra/detail/functors/GetGlobalBin.h:137 | As written, the edge point (0.5, 2.0) of that grid gets global bin 2, the same bin as the interior point (1.0, 0.5). |
| `GlobalBin.ClassifyOneDim` | hydra/detail/functors/GetGlobalBin.h:194-212 | At N = 1 the rule yields the bin count on underflow and the bin count + 1 on overflow. Otherwise it yields the truncated scaled value. |
| `GlobalBin.OneDimUpperEdgeIsUnderflowSentinel` | hydra/detail/functors/GetGlobalBin.h:207-212 | As written, in one dimension a value at the upper limit classifies as `fGrid`, the same value as the underflow sentinel. |
| `GlobalBin.HalfOpenSeparates` | hydra/detail/functors/GetGlobalBin.h:132-141 | With the half-open overflow test, each of the three outcomes happens exactly when its condition holds. A result below the total means every scaled value is in range; the sentinels mean underflow or overflow. Nothing exceeds `Product + 1`. |
| `GlobalBin.HalfOpenNoAliasing` | hydra/detail/functors/GetGlobalBin.h:132-141 | With the half-open test, two coordinates that share an in-grid global bin fall in the same bin in every dimension. |
| `GlobalBin.GetGlobalBin.constructor` | hydra/detail/functors/GetGlobalBin.h:46-55 | After construction, `fNGlobalBins` is the product of the grid, `fGrid` and `fLowerLimits` are copied, and `fDelta[i] == upper[i] - lower[i]`. |
| `GlobalBin.GetGlobalBin.Copy` | hydra/detail/functors/GetGlobalBin.h:57-67 | The copy has the same grid, widths, lower limits and total bin count. |
| `GlobalBin.GetGlobalBin.Assign` | hydra/detail/functors/GetGlobalBin.h:69-82 | Assignment reproduces the grid, widths, lower limits and total, and self-assignment changes nothing. |
| `GlobalBin.GetGlobalBin.AccumulateGlobalBin` | hydra/detail/functors/GetGlobalBin.h:84-102 | The accumulated index grows by exactly the row-major flattening of the indexes. |
| `GlobalBin.GetGlobalBin.GetBin` | hydra/detail/functors/GetGlobalBin.h:106-118 | The bin of non-negative scaled values is the flattening of their truncations. |
| `GlobalBin.GetGlobalBin.Apply` | hydra/detail/functors/GetGlobalBin.h:120-146 | The flag-setting loop over the dimensions returns exactly the classification rule `Classify`. |
| `GlobalBin.GetGlobalBin1.constructor` | hydra/detail/functors/GetGlobalBin.h:164-169 | Construction stores the limit and the width, and `fNGlobalBins == fGrid == grid`. |
| `GlobalBin.GetGlobalBin1.Copy` | hydra/detail/functors/GetGlobalBin.h:171-177 | The copy has the same four fields. |
| `GlobalBin.GetGlobalBin1.Assign` | hydra/detail/functors/GetGlobalBin.h:179-191 | Assignment reproduces the four fields, and self-assignment changes nothing. |
| `GlobalBin.GetGlobalBin1.GetBin` | hydra/detail/functors/GetGlobalBin.h:193-197 | The bin of a non-negative value in bin units is the integer `k` with `k <= X < k + 1`. |
| `GlobalBin.GetGlobalBin1.Apply` | hydra/detail/functors/GetGlobalBin.h:193-214 | The one-dimensional functor agrees with the N-dimensional rule at N = 1. |
| `Histogram.Find` | hydra/SparseHistogram.h:338-345 | The found distance is the first position holding the bin, or the length of the keys when the bin is absent. |
| `Histogram.Lookup` | hydra/SparseHistogram.h:338-345 | An absent bin reads 0.0. A stored bin reads the content at its first position. |
| `Histogram.LookupStoredKey` | hydra/SparseHistogram.h:338-345 | On storage with distinct keys, looking up the key at position i yields `fContents[i]`. |
| `Histogram.PositionalContentMissesKeys` | hydra/SparseHistogram.h:696-703 | The one-dimensional positional read returns 0.0 for a stored key at or past the number of keys. It returns `contents[bin]` for a position that is not a key. With keys [5] and contents [7.0] it reads bin 5 as 0.0 and bin 0 as 7.0. |
| `Histogram.SparseHistogram.constructor` | hydra/SparseHistogram.h:95-147 | Every constructor copies the grid and limits element by element. It sets `fNBins` to the product of the grid and leaves the storage empty. |
| `Histogram.SparseHistogram.Copy` | hydra/SparseHistogram.h:167-178 | The copy has the same keys, contents, grid, limits and `fNBins`. |
| `Histogram.SparseHistogram.Assign` | hydra/SparseHistogram.h:149-165 | Assignment copies keys, contents, grid, limits and `fNBins`, and self-assignment changes nothing. |
| `Histogram.SparseHistogram.SetBins` | hydra/SparseHistogram.h:223-226 | Only the keys are replaced, and all other state stays the same. |
| `Histogram.SparseHistogram.SetContents` | hydra/SparseHistogram.h:228-230 | Only the contents are replaced, and all other state stays the same. |
| `Histogram.SparseHistogram.GetBin` | hydra/SparseHistogram.h:248-278 | The result is the row-major flattening of the multi-index. An in-range multi-index gives a bin below `fNBins` that unflattens back to it. Nothing is modified. |
| `Histogram.SparseHistogram.AccumulateGlobalBin` | hydra/SparseHistogram.h:441-475 | The reference index grows by the sum of `indexes[I]` times the product of the later bin counts. |
| `Histogram.SparseHistogram.Multiply` | hydra/SparseHistogram.h:484-513 | The accumulator is multiplied by the product of the elements from `start` on, and restarts from 1 when element 0 is included. |
| `Histogram.SparseHistogram.GetIndexes` | hydra/SparseHistogram.h:516-560 | The result is the successive quotient and remainder by suffix products, so the last index uses divisor 1. For a global bin below `fNBins`, the indexes are in range and flatten back to it. |
| `Histogram.SparseHistogram.GetBinContent` | hydra/SparseHistogram.h:338-345 | The linear search yields the content of the bin's first position, or 0.0 when the bin is absent. Nothing is modified. |
| `Histogram.SparseHistogram.GetBinContentAt` | hydra/SparseHistogram.h:294-334 | The multi-index overloads flatten first and then look the bin up. Nothing is modified. |
| `Histogram.SparseHistogram.At` | hydra/SparseHistogram.h:388-394 | The pair at position i is `(fBins[i], fContents[i])`, and its key is stored. On storage with distinct keys, `GetBinContent` of that key is the pair's content. |
| `Histogram.SparseHistogram1.constructor` | hydra/SparseHistogram.h:611-616 | Construction sets `fNBins = grid`, stores the limits and leaves the storage empty. |
| `Histogram.SparseHistogram1.Copy` | hydra/SparseHistogram.h:619-625 | The copy has the other's contents, grid, limits and `fNBins`, and no keys. |
| `Histogram.SparseHistogram1.Assign` | hydra/SparseHistogram.h:627-637 | Assignment copies contents, grid, limits and `fNBins` and keeps the target's keys. Self-assignment changes nothing. |
| `Histogram.SparseHistogram1.SetContents` | hydra/SparseHistogram.h:665-667 | Only the contents are replaced. |
| `Histogram.SparseHistogram1.SetBins` | hydra/SparseHistogram.h:674-677 | Only the keys are replaced. |
| `Histogram.SparseHistogram1.GetBinContent` | hydra/SparseHistogram.h:696-703 | Returns `fContents[bin]` when `bin < |fBins|` and 0.0 otherwise. The position found by the search is not used. |

## Findings

| source | as written | input that shows it | evidently intended | confidence | as-written member | corrected member |
|---|---|---|---|---|---|---|
| hydra/detail/functors/GetGlobalBin.h:137 | Overflow is flagged only when `scaled > grid[i]`. A scaled value equal to `grid[i]` truncates to `grid[i]`, one past the last bin. | 2x2 grid over [0,2)x[0,2): (0.5, 2.0) gets bin 2, the bin of (1.0, 0.5). In 1-D, x equal to the upper limit gets `fGrid`, the underflow sentinel. | Overflow when `scaled >= grid[i]` (half-open bins). | not executed | `GlobalBin.UpperEdgeAliasesInteriorBin` | `GlobalBin.HalfOpenSeparates` |
| hydra/SparseHistogram.h:701-702 | The 1-D `GetBinContent` reads `fContents[bin]` when `bin < fBins.size()`. The position found by `find` is unused. | keys [5], contents [7.0]: bin 5 reads 0.0 and bin 0 reads 7.0. | Read `fContents[index]` when `index < fBins.size()`, as the N-dimensional version does. | not executed | `Histogram.PositionalContentMissesKeys` | `Histogram.LookupStoredKey` |

The classes keep the behaviour as written. `GlobalBin.ClassifyHalfOpen` is the
corrected classification. `Histogram.Lookup`, the N-dimensional lookup, is the
corrected reading for one dimension too.

## Left out

- `Fill`, all overloads (hydra/SparseHistogram.h:401-435, 758-791): only declared here. Their bodies and the sort / reduce-by-key compaction live in `SparseHistogram.inl`, which is not part of this model. The `make_sparse_histogram` factories (hydra/SparseHistogram.h:820-953) are also declarations only.
- `GetBinsContents` and `GetBinsCenters`, both dimensionalities: these are iterator ranges over storage. The bin-center functor `GetBinCenter` is not part of this model, and its computation is floating-point geometry.
- `data()`, `begin()`/`end()` and the zip and transform iterators: these are container plumbing. `operator[]` is modelled as `At` and `size()` as `Size`, on the two sequences.
- The one-dimensional container's getters, `operator[]` and `size()`: these are field reads, and the same as the N-dimensional ones.
- Backend policies (`fSystem`) and the cross-backend copy constructors and assignments: their state changes are the same as the same-backend ones, which are modelled.
- Histogram.SparseHistogram.Multiply: the source resets the accumulator with `result = I==0 ? 1.0 : result` (hydra/SparseHistogram.h:493, 510). That expression is a `double`, so the `size_t` accumulator is converted to `double` and back at every step. Suffix products above 2^53 are rounded before `get_indexes` divides by them. The model multiplies exactly.
- Integer width: `std::size_t` products and sums are unbounded naturals, so 64-bit wrap-around of large grids is not modelled.
- Signed index types in the `Int` overloads: indexes are naturals, so conversion of negative indexes to `size_t` is not modelled.
- Floating point: scaling uses exact real arithmetic, so rounding, NaN and infinities are not modelled. A zero width is excluded because it would divide by zero.
- `tupleToArray`: the coordinate tuple is given as a sequence of reals.
