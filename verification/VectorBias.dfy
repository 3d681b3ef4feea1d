/** The layout test of FuseVectorBiasAdd: when may the gemm epilogue add a bias vector without
    looking at indices? */
module VectorBias {
  import opened Arithmetic
  import opened Ordering
  import opened Shapes

  /** A layout lists the dimensions from the fastest moving to the slowest. */
  ghost predicate IsLayout(dims: Dims, minorToMajor: seq<nat>) {
    && |minorToMajor| == |dims| && Distinct(minorToMajor)
    && forall i :: 0 <= i < |dims| ==> minorToMajor[i] < |dims|
  }

  ghost predicate InDims(ds: seq<nat>, rank: nat) {
    forall i :: 0 <= i < |ds| ==> ds[i] < rank
  }

  /** Elements in a block of the n minor-most dimensions. */
  function Extent(dims: Dims, minorToMajor: seq<nat>, n: nat): nat
    requires n <= |minorToMajor| && forall i :: 0 <= i < n ==> minorToMajor[i] < |dims|
  {
    if n == 0 then 1 else Extent(dims, minorToMajor, n - 1) * dims[minorToMajor[n - 1]]
  }

  /** Physical offset of an index, counting the n minor-most dimensions. */
  function Physical(dims: Dims, minorToMajor: seq<nat>, idx: Index, n: nat): nat
    requires |idx| == |dims| && n <= |minorToMajor| && forall i :: 0 <= i < n ==> minorToMajor[i] < |dims|
  {
    if n == 0 then 0
    else Physical(dims, minorToMajor, idx, n - 1) + idx[minorToMajor[n - 1]] * Extent(dims, minorToMajor, n - 1)
  }

  function LayoutOffset(dims: Dims, minorToMajor: seq<nat>, idx: Index): nat
    requires |idx| == |dims| && |minorToMajor| == |dims| && forall i :: 0 <= i < |dims| ==> minorToMajor[i] < |dims|
  {
    Physical(dims, minorToMajor, idx, |minorToMajor|)
  }

  /** A broadcast whose operand dimension j becomes dimension broadcastDims[j] of the result. */
  ghost predicate IsBroadcast(dims: Dims, biasDims: Dims, broadcastDims: seq<nat>) {
    && |broadcastDims| == |biasDims| && Distinct(broadcastDims)
    && forall j :: 0 <= j < |broadcastDims| ==> broadcastDims[j] < |dims| && biasDims[j] == dims[broadcastDims[j]]
  }

  /** The operand index a broadcast reads for an index of its result. */
  function BiasIndex(broadcastDims: seq<nat>, idx: Index): (b: Index)
    requires forall j :: 0 <= j < |broadcastDims| ==> broadcastDims[j] < |idx|
    ensures |b| == |broadcastDims|
  {
    seq(|broadcastDims|, j requires 0 <= j < |broadcastDims| => idx[broadcastDims[j]])
  }

  // ---------------------------------------------------------------------------------------------
  // The test

  /** The bias dimension at layout position i is the one broadcast into the gemm dimension at layout
      position i, for each of the column dimensions. */
  predicate Aligned(gemmLayout: seq<nat>, biasLayout: seq<nat>, broadcastDims: seq<nat>, columns: nat) {
    columns <= |gemmLayout| && columns <= |biasLayout| &&
    forall i :: 0 <= i < columns ==>
      biasLayout[i] < |broadcastDims| && broadcastDims[biasLayout[i]] == gemmLayout[i]
  }

  /** absl::c_find as an index; |s| when absent. */
  method Find(s: seq<nat>, x: nat) returns (p: nat)
    ensures p <= |s| && (p < |s| ==> s[p] == x) && (p == |s| <==> x !in s)
    ensures forall j :: 0 <= j < p ==> s[j] != x
  {
    p := 0;
    while p < |s| && s[p] != x
      invariant p <= |s| && forall j :: 0 <= j < p ==> s[j] != x
    {
      p := p + 1;
    }
  }

  method AcceptsBias(gemmLayout: seq<nat>, biasLayout: seq<nat>, broadcastDims: seq<nat>, columns: nat)
    returns (ok: bool)
    requires Distinct(broadcastDims) && columns <= |gemmLayout|
    ensures ok <==> |biasLayout| == columns && Aligned(gemmLayout, biasLayout, broadcastDims, columns)
  {
    if |biasLayout| != columns {
      return false;
    }
    for i := 0 to columns
      invariant Aligned(gemmLayout, biasLayout, broadcastDims, i)
    {
      var p := Find(broadcastDims, gemmLayout[i]);
      if p == |broadcastDims| || biasLayout[i] != p {
        return false;
      }
    }
    return true;
  }

  // ---------------------------------------------------------------------------------------------
  // What it guarantees

  lemma {:induction false} PhysicalInExtent(dims: Dims, layout: seq<nat>, idx: Index, n: nat)
    requires InBox(dims, idx) && n <= |layout| && forall i :: 0 <= i < n ==> layout[i] < |dims|
    ensures Physical(dims, layout, idx, n) < Extent(dims, layout, n)
  {
    if n > 0 {
      PhysicalInExtent(dims, layout, idx, n - 1);
      var e, d, x := Extent(dims, layout, n - 1), dims[layout[n - 1]], idx[layout[n - 1]];
      ChunkInside(d, e, x);
      assert x * e == e * x && e * d == d * e;
    }
  }

  /** The offset within the n minor-most dimensions is the remainder of the whole offset. */
  lemma {:induction false} MinorIsRemainder(dims: Dims, layout: seq<nat>, idx: Index, n: nat, m: nat) returns (q: nat)
    requires InBox(dims, idx) && n <= m <= |layout| && forall i :: 0 <= i < m ==> layout[i] < |dims|
    ensures Physical(dims, layout, idx, m) == q * Extent(dims, layout, n) + Physical(dims, layout, idx, n)
    decreases m
  {
    if m == n {
      q := 0;
    } else {
      var p := MinorIsRemainder(dims, layout, idx, n, m - 1);
      var r := ExtentMultiple(dims, layout, n, m - 1);
      var e, x := Extent(dims, layout, n), idx[layout[m - 1]];
      q := p + x * r;
      RegroupSum(p, x, r, e);
    }
  }

  lemma {:induction false} ExtentMultiple(dims: Dims, layout: seq<nat>, n: nat, m: nat) returns (r: nat)
    requires n <= m <= |layout| && forall i :: 0 <= i < m ==> layout[i] < |dims|
    ensures Extent(dims, layout, m) == r * Extent(dims, layout, n)
    decreases m
  {
    if m == n {
      r := 1;
    } else {
      var s := ExtentMultiple(dims, layout, n, m - 1);
      var e, d := Extent(dims, layout, n), dims[layout[m - 1]];
      r := s * d;
      RegroupProduct(s, e, d);
    }
  }

  /** An aligned bias is laid out like the minor-most dimensions of what it is broadcast to. */
  lemma {:induction false} AlignedLayouts(dims: Dims, layout: seq<nat>, biasDims: Dims, biasLayout: seq<nat>,
                                          broadcastDims: seq<nat>, idx: Index, n: nat)
    requires IsBroadcast(dims, biasDims, broadcastDims) && |idx| == |dims|
    requires Aligned(layout, biasLayout, broadcastDims, n)
    requires forall i :: 0 <= i < n ==> layout[i] < |dims|
    ensures Extent(biasDims, biasLayout, n) == Extent(dims, layout, n)
    ensures Physical(biasDims, biasLayout, BiasIndex(broadcastDims, idx), n) == Physical(dims, layout, idx, n)
  {
    if n > 0 {
      AlignedLayouts(dims, layout, biasDims, biasLayout, broadcastDims, idx, n - 1);
    }
  }

  /** The layout test is sufficient: wherever it accepts, the broadcast bias at an output index is the
      bias buffer at the physical output offset modulo the size of the column dimensions. */
  lemma {:induction false} BroadcastIsModulo(dims: Dims, layout: seq<nat>, biasDims: Dims, biasLayout: seq<nat>,
                                             broadcastDims: seq<nat>, columns: nat, idx: Index)
    requires IsLayout(dims, layout) && IsLayout(biasDims, biasLayout) && IsBroadcast(dims, biasDims, broadcastDims)
    requires columns <= |layout| && |biasLayout| == columns && Aligned(layout, biasLayout, broadcastDims, columns)
    requires InBox(dims, idx)
    ensures Extent(dims, layout, columns) > 0
    ensures LayoutOffset(biasDims, biasLayout, BiasIndex(broadcastDims, idx))
         == LayoutOffset(dims, layout, idx) % Extent(dims, layout, columns)
    ensures Extent(biasDims, biasLayout, columns) == Extent(dims, layout, columns)
  {
    AlignedLayouts(dims, layout, biasDims, biasLayout, broadcastDims, idx, columns);
    PhysicalInExtent(dims, layout, idx, columns);
    var q := MinorIsRemainder(dims, layout, idx, columns, |layout|);
    DivModUnique(LayoutOffset(dims, layout, idx), Extent(dims, layout, columns), q,
        Physical(dims, layout, idx, columns));
  }

  // ---------------------------------------------------------------------------------------------
  // And it refuses nothing that would do

  /** One step in the dimension at layout position pos, as far as the n minor-most dimensions go. */
  ghost predicate UnitStep(layout: seq<nat>, idx: Index, pos: nat, n: nat)
    requires n <= |layout| && pos < |layout| && InDims(layout, |idx|)
  {
    idx[layout[pos]] == 1 && forall k :: 0 <= k < n && k != pos ==> idx[layout[k]] == 0
  }

  lemma {:induction false} UnitPhysical(dims: Dims, layout: seq<nat>, idx: Index, pos: nat, n: nat)
    requires |idx| == |dims| && n <= |layout| && pos < |layout| && InDims(layout, |dims|)
    requires UnitStep(layout, idx, pos, n)
    ensures Physical(dims, layout, idx, n) == if pos < n then Extent(dims, layout, pos) else 0
  {
    if n > 0 {
      UnitPhysical(dims, layout, idx, pos, n - 1);
    }
  }

  ghost predicate NoUnits(dims: Dims) {
    forall d :: 0 <= d < |dims| ==> dims[d] >= 2
  }

  lemma {:induction false} ExtentGrows(dims: Dims, layout: seq<nat>, a: nat, b: nat)
    requires NoUnits(dims) && InDims(layout, |dims|) && a <= b <= |layout|
    ensures 1 <= Extent(dims, layout, a) <= Extent(dims, layout, b)
    ensures a < b ==> Extent(dims, layout, a) < Extent(dims, layout, b)
    decreases b
  {
    if a < b {
      ExtentGrows(dims, layout, a, b - 1);
      var e, d := Extent(dims, layout, b - 1), dims[layout[b - 1]];
      MulMonotone(2, d, e);
      assert e * d == d * e;
    } else if b > 0 {
      ExtentGrows(dims, layout, a - 1, b - 1);
      var e, d := Extent(dims, layout, b - 1), dims[layout[b - 1]];
      MulMonotone(2, d, e);
      assert e * d == d * e;
    }
  }

  /** One step in the dimension at position pos moves by its extent, modulo the columns. */
  lemma {:induction false} UnitModulo(dims: Dims, layout: seq<nat>, idx: Index, pos: nat, columns: nat)
    requires NoUnits(dims) && InDims(layout, |dims|) && |idx| == |dims| && |layout| == |dims|
    requires pos < |layout| && columns <= |layout| && UnitStep(layout, idx, pos, |layout|)
    ensures Extent(dims, layout, columns) > 0
    ensures LayoutOffset(dims, layout, idx) % Extent(dims, layout, columns) ==
            if pos < columns then Extent(dims, layout, pos) else 0
  {
    UnitPhysical(dims, layout, idx, pos, |layout|);
    ExtentGrows(dims, layout, 0, columns);
    if pos < columns {
      ExtentGrows(dims, layout, pos, columns);
      DivModUnique(Extent(dims, layout, pos), Extent(dims, layout, columns), 0, Extent(dims, layout, pos));
    } else {
      var r := ExtentMultiple(dims, layout, columns, pos);
      DivModUnique(Extent(dims, layout, pos), Extent(dims, layout, columns), r, 0);
    }
  }

  /** Element idx of the broadcast is the bias buffer at the offset of idx modulo the columns. */
  ghost predicate ModuloColumns(dims: Dims, layout: seq<nat>, biasDims: Dims, biasLayout: seq<nat>,
                                broadcastDims: seq<nat>, columns: nat, idx: Index)
    requires IsLayout(dims, layout) && IsLayout(biasDims, biasLayout) && IsBroadcast(dims, biasDims, broadcastDims)
    requires columns <= |layout| && |idx| == |dims|
  {
    Extent(dims, layout, columns) > 0 &&
    LayoutOffset(biasDims, biasLayout, BiasIndex(broadcastDims, idx))
    == LayoutOffset(dims, layout, idx) % Extent(dims, layout, columns)
  }

  lemma {:induction false} PositionOf(dims: Dims, layout: seq<nat>, d: nat) returns (pos: nat)
    requires IsLayout(dims, layout) && d < |dims|
    ensures pos < |layout| && layout[pos] == d
  {
    DistinctCovers(layout, |dims|);
    assert d in layout;
    pos :| 0 <= pos < |layout| && layout[pos] == d;
  }

  /** One in dimension d and zero in all others. */
  function UnitIndex(rank: nat, d: nat): (idx: Index)
    ensures |idx| == rank
  {
    seq(rank, k => if k == d then 1 else 0)
  }

  lemma {:induction false} UnitIndexSteps(dims: Dims, layout: seq<nat>, pos: nat)
    requires IsLayout(dims, layout) && NoUnits(dims) && pos < |layout|
    ensures InBox(dims, UnitIndex(|dims|, layout[pos]))
    ensures InDims(layout, |dims|) && UnitStep(layout, UnitIndex(|dims|, layout[pos]), pos, |layout|)
  {
  }

  lemma {:induction false} BiasSteps(dims: Dims, biasDims: Dims, biasLayout: seq<nat>, broadcastDims: seq<nat>, i: nat)
    requires IsLayout(biasDims, biasLayout) && IsBroadcast(dims, biasDims, broadcastDims) && i < |biasLayout|
    ensures LayoutOffset(biasDims, biasLayout, BiasIndex(broadcastDims,
                UnitIndex(|dims|, broadcastDims[biasLayout[i]]))) == Extent(biasDims, biasLayout, i)
  {
    var b := BiasIndex(broadcastDims, UnitIndex(|dims|, broadcastDims[biasLayout[i]]));
    assert InDims(biasLayout, |b|);
    assert UnitStep(biasLayout, b, i, |biasLayout|);
    UnitPhysical(biasDims, biasLayout, b, i, |biasLayout|);
  }

  lemma {:induction false} SameExtentSamePosition(dims: Dims, layout: seq<nat>, a: nat, b: nat)
    requires NoUnits(dims) && InDims(layout, |dims|) && a <= |layout| && b <= |layout|
    requires Extent(dims, layout, a) == Extent(dims, layout, b)
    ensures a == b
  {
    if a < b {
      ExtentGrows(dims, layout, a, b);
    } else {
      ExtentGrows(dims, layout, b, a);
    }
  }

  lemma {:induction false} AlignedNext(dims: Dims, layout: seq<nat>, biasDims: Dims, biasLayout: seq<nat>,
                                       broadcastDims: seq<nat>, columns: nat, i: nat)
    requires IsLayout(dims, layout) && IsLayout(biasDims, biasLayout) && IsBroadcast(dims, biasDims, broadcastDims)
    requires i < columns <= |layout| && |biasLayout| == columns && NoUnits(dims)
    requires forall idx :: InBox(dims, idx) ==>
               ModuloColumns(dims, layout, biasDims, biasLayout, broadcastDims, columns, idx)
    requires Aligned(layout, biasLayout, broadcastDims, i)
    ensures broadcastDims[biasLayout[i]] == layout[i]
  {
    var d := broadcastDims[biasLayout[i]];
    var pos := PositionOf(dims, layout, d);
    var idx := UnitIndex(|dims|, d);
    UnitIndexSteps(dims, layout, pos);
    assert ModuloColumns(dims, layout, biasDims, biasLayout, broadcastDims, columns, idx);
    UnitModulo(dims, layout, idx, pos, columns);
    BiasSteps(dims, biasDims, biasLayout, broadcastDims, i);
    AlignedLayouts(dims, layout, biasDims, biasLayout, broadcastDims, idx, i);
    ExtentGrows(dims, layout, 0, i);
    SameExtentSamePosition(dims, layout, i, pos);
  }

  lemma {:induction false} AlignedUpTo(dims: Dims, layout: seq<nat>, biasDims: Dims, biasLayout: seq<nat>,
                                       broadcastDims: seq<nat>, columns: nat, n: nat)
    requires IsLayout(dims, layout) && IsLayout(biasDims, biasLayout) && IsBroadcast(dims, biasDims, broadcastDims)
    requires n <= columns <= |layout| && |biasLayout| == columns && NoUnits(dims)
    requires forall idx :: InBox(dims, idx) ==>
               ModuloColumns(dims, layout, biasDims, biasLayout, broadcastDims, columns, idx)
    ensures Aligned(layout, biasLayout, broadcastDims, n)
  {
    if n > 0 {
      AlignedUpTo(dims, layout, biasDims, biasLayout, broadcastDims, columns, n - 1);
      AlignedNext(dims, layout, biasDims, biasLayout, broadcastDims, columns, n - 1);
    }
  }

  /** A bias with one dimension per column dimension lines up exactly when every element of its broadcast
      is the bias buffer at the offset modulo the columns, unless some dimension has size one. */
  lemma {:induction false} AlignedExactly(dims: Dims, layout: seq<nat>, biasDims: Dims, biasLayout: seq<nat>,
                                          broadcastDims: seq<nat>, columns: nat)
    requires IsLayout(dims, layout) && IsLayout(biasDims, biasLayout) && IsBroadcast(dims, biasDims, broadcastDims)
    requires columns <= |layout| && |biasLayout| == columns && NoUnits(dims)
    ensures Aligned(layout, biasLayout, broadcastDims, columns)
       <==> forall idx :: InBox(dims, idx) ==>
              ModuloColumns(dims, layout, biasDims, biasLayout, broadcastDims, columns, idx)
  {
    if Aligned(layout, biasLayout, broadcastDims, columns) {
      forall idx | InBox(dims, idx)
        ensures ModuloColumns(dims, layout, biasDims, biasLayout, broadcastDims, columns, idx)
      {
        BroadcastIsModulo(dims, layout, biasDims, biasLayout, broadcastDims, columns, idx);
      }
    } else if forall idx :: InBox(dims, idx) ==>
                ModuloColumns(dims, layout, biasDims, biasLayout, broadcastDims, columns, idx) {
      AlignedUpTo(dims, layout, biasDims, biasLayout, broadcastDims, columns, columns);
    }
  }

  // ---------------------------------------------------------------------------------------------
  // With a slice between the gemm and the addition

  /** A slice of a tensor with dimensions dims, starting at start, with dimensions sliced. */
  ghost predicate IsSlice(dims: Dims, start: Index, sliced: Dims) {
    && |start| == |dims| && |sliced| == |dims|
    && forall d :: 0 <= d < |dims| ==> start[d] + sliced[d] <= dims[d]
  }

  function Shift(idx: Index, start: Index): (r: Index)
    requires |idx| == |start|
    ensures |r| == |idx|
  {
    seq(|idx|, d requires 0 <= d < |idx| => idx[d] + start[d])
  }

  /** The slice keeps the column dimensions whole. */
  ghost predicate WholeColumns(dims: Dims, layout: seq<nat>, sliced: Dims, columns: nat)
    requires columns <= |layout| && |sliced| == |dims| && forall i :: 0 <= i < columns ==> layout[i] < |dims|
  {
    forall i :: 0 <= i < columns ==> sliced[layout[i]] == dims[layout[i]]
  }

  /** The fused call gets a bias vector of the length its epilogue expects, and every element of the
      slice sees the bias element the broadcast would have given it. */
  ghost predicate SliceFusionSound(dims: Dims, layout: seq<nat>, start: Index, sliced: Dims, biasDims: Dims,
                                   biasLayout: seq<nat>, broadcastDims: seq<nat>, columns: nat)
    requires IsLayout(dims, layout) && IsLayout(biasDims, biasLayout) && IsBroadcast(sliced, biasDims, broadcastDims)
    requires columns <= |layout| && |biasLayout| == columns && IsSlice(dims, start, sliced)
    requires Extent(dims, layout, columns) > 0
  {
    && Extent(biasDims, biasLayout, columns) == Extent(dims, layout, columns)
    && forall idx :: InBox(sliced, idx) ==>
         SeesItsBias(dims, layout, start, biasDims, biasLayout, broadcastDims, columns, idx)
  }

  /** The fused epilogue adds the bias element that the broadcast holds at this index of the slice. */
  ghost predicate SeesItsBias(dims: Dims, layout: seq<nat>, start: Index, biasDims: Dims, biasLayout: seq<nat>,
                              broadcastDims: seq<nat>, columns: nat, idx: Index)
    requires IsLayout(dims, layout) && IsLayout(biasDims, biasLayout)
    requires |broadcastDims| == |biasDims| && InDims(broadcastDims, |dims|)
    requires columns <= |layout| && |start| == |dims| == |idx| && Extent(dims, layout, columns) > 0
  {
    LayoutOffset(biasDims, biasLayout, BiasIndex(broadcastDims, idx))
    == LayoutOffset(dims, layout, Shift(idx, start)) % Extent(dims, layout, columns)
  }

  /** Fusing through a slice is sound exactly when the slice keeps the column dimensions whole, which
      the code does not test. */
  lemma {:induction false} SliceFusionExactly(dims: Dims, layout: seq<nat>, start: Index, sliced: Dims, biasDims: Dims,
                                              biasLayout: seq<nat>, broadcastDims: seq<nat>, columns: nat)
    requires IsLayout(dims, layout) && IsLayout(biasDims, biasLayout) && IsBroadcast(sliced, biasDims, broadcastDims)
    requires columns <= |layout| && |biasLayout| == columns && Aligned(layout, biasLayout, broadcastDims, columns)
    requires IsSlice(dims, start, sliced) && Extent(dims, layout, columns) > 0
    ensures SliceFusionSound(dims, layout, start, sliced, biasDims, biasLayout, broadcastDims, columns)
       <==> WholeColumns(dims, layout, sliced, columns)
  {
    AlignedLayouts(sliced, layout, biasDims, biasLayout, broadcastDims, sliced, columns);
    SmallerExtent(dims, sliced, layout, columns);
    if WholeColumns(dims, layout, sliced, columns) {
      SameColumns(dims, sliced, layout, dims, dims, columns);
      forall idx | InBox(sliced, idx)
        ensures SeesItsBias(dims, layout, start, biasDims, biasLayout, broadcastDims, columns, idx)
      {
        SliceElement(dims, layout, start, sliced, biasDims, biasLayout, broadcastDims, columns, idx);
      }
    }
  }

  lemma {:induction false} SliceElement(dims: Dims, layout: seq<nat>, start: Index, sliced: Dims, biasDims: Dims,
                                        biasLayout: seq<nat>, broadcastDims: seq<nat>, columns: nat, idx: Index)
    requires IsLayout(dims, layout) && IsLayout(biasDims, biasLayout) && IsBroadcast(sliced, biasDims, broadcastDims)
    requires columns <= |layout| && |biasLayout| == columns && Aligned(layout, biasLayout, broadcastDims, columns)
    requires IsSlice(dims, start, sliced) && WholeColumns(dims, layout, sliced, columns) && InBox(sliced, idx)
    ensures Extent(dims, layout, columns) > 0
    ensures LayoutOffset(biasDims, biasLayout, BiasIndex(broadcastDims, idx))
         == LayoutOffset(dims, layout, Shift(idx, start)) % Extent(dims, layout, columns)
  {
    var full := Shift(idx, start);
    AlignedLayouts(sliced, layout, biasDims, biasLayout, broadcastDims, idx, columns);
    SameColumns(dims, sliced, layout, full, idx, columns);
    PhysicalInExtent(dims, layout, full, columns);
    var q := MinorIsRemainder(dims, layout, full, columns, |layout|);
    DivModUnique(LayoutOffset(dims, layout, full), Extent(dims, layout, columns), q,
        Physical(dims, layout, full, columns));
  }

  lemma {:induction false} SameColumns(dims: Dims, sliced: Dims, layout: seq<nat>, i: Index, j: Index, n: nat)
    requires |dims| == |sliced| == |i| == |j| && n <= |layout|
    requires forall k :: 0 <= k < n ==>
               layout[k] < |dims| && dims[layout[k]] == sliced[layout[k]] && i[layout[k]] == j[layout[k]]
    ensures Extent(dims, layout, n) == Extent(sliced, layout, n)
    ensures Physical(dims, layout, i, n) == Physical(sliced, layout, j, n)
  {
    if n > 0 {
      SameColumns(dims, sliced, layout, i, j, n - 1);
    }
  }

  /** Cutting any column dimension down makes the block smaller. */
  lemma {:induction false} SmallerExtent(dims: Dims, sliced: Dims, layout: seq<nat>, n: nat)
    requires |dims| == |sliced| && n <= |layout|
    requires forall k :: 0 <= k < n ==> layout[k] < |dims| && sliced[layout[k]] <= dims[layout[k]]
    requires Extent(dims, layout, n) > 0
    ensures Extent(sliced, layout, n) <= Extent(dims, layout, n)
    ensures Extent(sliced, layout, n) == Extent(dims, layout, n) ==>
              forall k :: 0 <= k < n ==> sliced[layout[k]] == dims[layout[k]]
  {
    if n > 0 {
      var e, d := Extent(dims, layout, n - 1), dims[layout[n - 1]];
      PositiveFactors(e, d);
      SmallerExtent(dims, sliced, layout, n - 1);
      var e', d' := Extent(sliced, layout, n - 1), sliced[layout[n - 1]];
      ProductShrinks(e, d, e', d');
    }
  }

  lemma {:induction false} ProductShrinks(e: nat, d: nat, e': nat, d': nat)
    requires e' <= e && d' <= d && e > 0 && d > 0
    ensures e' * d' <= e * d
    ensures e' * d' == e * d ==> e' == e && d' == d
  {
    MulMonotone(e', e, d');
    MulMonotone(d', d, e);
    assert e * d' == d' * e && e * d == d * e;
    if d' < d {
      MulMonotone(d' + 1, d, e);
      assert (d' + 1) * e == d' * e + e;
    } else if e' < e {
      MulMonotone(e' + 1, e, d');
      assert (e' + 1) * d' == e' * d' + d';
    }
  }

  // ---------------------------------------------------------------------------------------------
  // From indices to whole buffers

  lemma {:induction false} PhysicalIgnores(dims: Dims, layout: seq<nat>, idx: Index, n: nat, d: nat, x: nat)
    requires |idx| == |dims| && n <= |layout| && d < |dims|
    requires forall i :: 0 <= i < n ==> layout[i] < |dims| && layout[i] != d
    ensures Physical(dims, layout, idx[d := x], n) == Physical(dims, layout, idx, n)
  {
    if n > 0 {
      PhysicalIgnores(dims, layout, idx, n - 1, d, x);
    }
  }

  lemma {:induction false} PhysicalOnto(dims: Dims, layout: seq<nat>, n: nat, p: nat) returns (idx: Index)
    requires IsLayout(dims, layout) && Positive(dims) && n <= |layout| && p < Extent(dims, layout, n)
    ensures InBox(dims, idx) && Physical(dims, layout, idx, n) == p
  {
    if n == 0 {
      idx := seq(|dims|, _ => 0);
    } else {
      var d := layout[n - 1];
      var q, r := Digits(p, dims[d], Extent(dims, layout, n - 1));
      var lower := PhysicalOnto(dims, layout, n - 1, r);
      PhysicalIgnores(dims, layout, lower, n - 1, d, q);
      idx := lower[d := q];
    }
  }

  lemma {:induction false} Digits(p: nat, d: nat, e: nat) returns (q: nat, r: nat)
    requires p < e * d
    ensures q < d && r < e && p == r + q * e
  {
    assert e * d == d * e;
    SplitIndex(p, d, e);
    q, r := p / e, p % e;
    assert q * e == e * q;
  }

  /** Every position of the buffer holds the element of some index. */
  lemma {:induction false} OffsetOnto(dims: Dims, layout: seq<nat>, p: nat) returns (idx: Index)
    requires IsLayout(dims, layout) && Positive(dims) && p < Extent(dims, layout, |layout|)
    ensures InBox(dims, idx) && LayoutOffset(dims, layout, idx) == p
  {
    idx := PhysicalOnto(dims, layout, |layout|, p);
  }
}
