/** From the layout test to the fusion step: the broadcasts that the test accepts are the ones whose
    fusion into the gemm's epilogue is sound. */
module BiasLayout {
  import opened Shapes
  import opened VectorBias
  import opened HloGraph
  import opened EpilogueFusion

  /** A broadcast bias with its dimensions, layouts and broadcast dimensions, and the columns of the gemm. */
  datatype Site = Site(dims: Dims, layout: seq<nat>, biasDims: Dims, biasLayout: seq<nat>, broadcastDims: seq<nat>,
      columns: nat)

  /** The test accepts a broadcast to dimensions target, which are laid out like the gemm. */
  ghost predicate Accepted(c: Site, target: Dims) {
    && IsLayout(c.dims, c.layout) && IsLayout(c.biasDims, c.biasLayout) &&
        IsBroadcast(target, c.biasDims, c.broadcastDims)
    && |target| == |c.dims| && Positive(c.dims) && Positive(target)
    && c.columns <= |c.layout| && |c.biasLayout| == c.columns &&
        Aligned(c.layout, c.biasLayout, c.broadcastDims, c.columns)
  }

  /** pick reads, for each position of the broadcast's buffer, the bias element its index asks for. */
  ghost predicate BroadcastsPhysically(pick: seq<nat>, c: Site, target: Dims)
    requires Accepted(c, target)
  {
    |pick| == Extent(target, c.layout, |c.layout|) &&
    forall idx :: InBox(target, idx) ==> PicksBias(pick, c, target, idx)
  }

  ghost predicate PicksBias(pick: seq<nat>, c: Site, target: Dims, idx: Index)
    requires Accepted(c, target) && InBox(target, idx)
  {
    var p := LayoutOffset(target, c.layout, idx);
    p < |pick| && pick[p] == LayoutOffset(c.biasDims, c.biasLayout, BiasIndex(c.broadcastDims, idx))
  }

  /** Likewise for a slice of the gemm. */
  ghost predicate SlicesPhysically(pick: seq<nat>, c: Site, start: Index, sliced: Dims)
    requires IsLayout(c.dims, c.layout) && IsSlice(c.dims, start, sliced)
  {
    |pick| == Extent(sliced, c.layout, |c.layout|) &&
    forall idx :: InBox(sliced, idx) ==> PicksSliced(pick, c, start, sliced, idx)
  }

  ghost predicate PicksSliced(pick: seq<nat>, c: Site, start: Index, sliced: Dims, idx: Index)
    requires IsLayout(c.dims, c.layout) && IsSlice(c.dims, start, sliced) && InBox(sliced, idx)
  {
    var p := LayoutOffset(sliced, c.layout, idx);
    p < |pick| && pick[p] == LayoutOffset(c.dims, c.layout, Shift(idx, start))
  }

  /** The node reads a bias of the given size through pick. */
  predicate BroadcastNode(g: Graph, id: Id, pick: seq<nat>, biasSize: nat) {
    && id in g.nodes && g.nodes[id].op == Broadcast(pick) && |g.nodes[id].operands| == 1
    && g.nodes[id].operands[0] in g.nodes && g.nodes[g.nodes[id].operands[0]].size == biasSize
  }

  /** The gemm has one element per row for every index of its column dimensions. */
  ghost predicate GemmNode(g: Graph, gemm: Id, c: Site)
    requires IsLayout(c.dims, c.layout) && c.columns <= |c.layout|
  {
    IsGemm(g, gemm) && g.nodes[gemm].op.config.columns == Extent(c.dims, c.layout, c.columns)
  }

  /** Where the layout test accepts a bias added to the gemm itself, fusing it is sound. */
  lemma {:induction false} AcceptedBiasMayFuse(g: Graph, gemm: Id, broadcast: Id, pick: seq<nat>, c: Site)
    requires Accepted(c, c.dims) && BroadcastsPhysically(pick, c, c.dims)
    requires GemmNode(g, gemm, c) && g.nodes[gemm].size == |pick|
    requires BroadcastNode(g, broadcast, pick, Extent(c.biasDims, c.biasLayout, c.columns))
    ensures ColumnBroadcast(g, gemm, gemm, broadcast)
  {
    BroadcastIsModulo(c.dims, c.layout, c.biasDims, c.biasLayout, c.broadcastDims, c.columns, Zeros(|c.dims|));
    forall i | 0 <= i < |pick| ensures pick[i] == i % Extent(c.dims, c.layout, c.columns) {
      var idx := OffsetOnto(c.dims, c.layout, i);
      assert PicksBias(pick, c, c.dims, idx);
      BroadcastIsModulo(c.dims, c.layout, c.biasDims, c.biasLayout, c.broadcastDims, c.columns, idx);
    }
  }

  /** A slice of the gemm with a broadcast of a bias added to it, as the layout test accepts it. */
  ghost predicate SlicedSite(g: Graph, view: Id, gemm: Id, broadcast: Id, slice: seq<nat>, pick: seq<nat>, c: Site,
                             start: Index, sliced: Dims)
  {
    && Accepted(c, sliced) && IsSlice(c.dims, start, sliced) && GemmNode(g, gemm, c)
    && BroadcastsPhysically(pick, c, sliced) && SlicesPhysically(slice, c, start, sliced)
    && view in g.nodes && g.nodes[view].op == Slice(slice) && g.nodes[view].size == |slice|
    && BroadcastNode(g, broadcast, pick, Extent(c.biasDims, c.biasLayout, c.columns))
  }

  /** Through a slice that keeps the column dimensions whole it is sound too. */
  lemma {:induction false} AcceptedSlicedBiasMayFuse(
      g: Graph, view: Id, gemm: Id, broadcast: Id, slice: seq<nat>, pick: seq<nat>, c: Site, start: Index, sliced: Dims)
    requires SlicedSite(g, view, gemm, broadcast, slice, pick, c, start, sliced)
    requires WholeColumns(c.dims, c.layout, sliced, c.columns)
    ensures ColumnBroadcast(g, view, gemm, broadcast)
  {
    var origin := Zeros(|sliced|);
    AlignedLayouts(sliced, c.layout, c.biasDims, c.biasLayout, c.broadcastDims, origin, c.columns);
    SameColumns(c.dims, sliced, c.layout, origin, origin, c.columns);
    SliceElement(c.dims, c.layout, start, sliced, c.biasDims, c.biasLayout, c.broadcastDims, c.columns, origin);
    forall i | 0 <= i < |pick| ensures pick[i] == slice[i] % Extent(c.dims, c.layout, c.columns) {
      var idx := OffsetOnto(sliced, c.layout, i);
      assert PicksBias(pick, c, sliced, idx) && PicksSliced(slice, c, start, sliced, idx);
      SliceElement(c.dims, c.layout, start, sliced, c.biasDims, c.biasLayout, c.broadcastDims, c.columns, idx);
    }
  }

  // ---------------------------------------------------------------------------------------------
  // Exactly when fusing through a slice is sound

  /** The graph the code replaces g by when it fuses the bias. */
  function FusedBias(g: Graph, sum: Id, view: Id, gemm: Id, broadcast: Id): Graph
    requires VectorBiasMatch(g, sum, view, gemm, broadcast)
  {
    FuseUnderView(g, view, gemm, VectorFusedInstr(g.nodes[gemm], g.nodes[broadcast].operands[0]), sum)
  }

  /** g' is a well-formed, acyclic graph that computes what e computes. */
  ghost predicate SoundlyBecomes(e: Sound, g': Graph) {
    exists f: Sound :: Keeps(e, f) && f.g == g'
  }

  /** The fused call and its bias in the new graph. */
  lemma {:induction false} FusedNode(g: Graph, sum: Id, view: Id, gemm: Id, fused: Instr, b: Id)
    requires view in g.nodes && view != gemm && b in g.nodes && b != sum && sum in g.nodes
    requires (forall id :: id in g.nodes ==> id < g.next)
    requires fused.operands != [] && fused.operands[|fused.operands| - 1] == b
    ensures var g' := FuseUnderView(g, view, gemm, fused, sum);
            && g.next in g'.nodes && g'.nodes[g.next].op == fused.op
            && |g'.nodes[g.next].operands| == |fused.operands|
            && g'.nodes[g.next].operands[|fused.operands| - 1] == b
            && b in g'.nodes && g'.nodes[b].size == g.nodes[b].size
  {
  }

  /** A fused call in a well-formed graph has a bias as long as its rows. */
  lemma {:induction false} FusedBiasFits(e: Sound, f: Sound, sum: Id, view: Id, gemm: Id, broadcast: Id)
    requires VectorBiasMatch(e.g, sum, view, gemm, broadcast) && view != gemm
    requires f.g == FusedBias(e.g, sum, view, gemm, broadcast)
    ensures BiasFits(e.g, e.g.nodes[broadcast].operands[0], e.g.nodes[gemm].op.config.columns)
  {
    var b, next := e.g.nodes[broadcast].operands[0], e.g.next;
    var fused := VectorFusedInstr(e.g.nodes[gemm], b);
    OperandsRanked(e, sum, view, broadcast);
    assert b in e.g.nodes && e.rank[b] < e.rank[broadcast];
    FusedNode(e.g, sum, view, gemm, fused, b);
    ConventionHolds(f, next);
  }

  lemma {:induction false} ConventionHolds(f: Sound, id: Id)
    requires id in f.g.nodes
    ensures OperandConvention(f.g, f.g.nodes[id])
  {
  }

  /** The code fuses a bias through a slice without looking at which part of the columns the slice
      keeps.  What it makes is sound exactly when the slice keeps them whole. */
  lemma {:induction false} SlicedFusionExactly(
      e: Sound, sum: Id, view: Id, gemm: Id, broadcast: Id,
      slice: seq<nat>, pick: seq<nat>, c: Site, start: Index, sliced: Dims)
    requires VectorBiasMatch(e.g, sum, view, gemm, broadcast) && view != gemm
    requires SlicedSite(e.g, view, gemm, broadcast, slice, pick, c, start, sliced)
    ensures SoundlyBecomes(e, FusedBias(e.g, sum, view, gemm, broadcast))
       <==> WholeColumns(c.dims, c.layout, sliced, c.columns)
  {
    if WholeColumns(c.dims, c.layout, sliced, c.columns) {
      AcceptedSlicedBiasMayFuse(e.g, view, gemm, broadcast, slice, pick, c, start, sliced);
      var f := VectorBiasSound(e, sum, view, gemm, broadcast);
    } else if SoundlyBecomes(e, FusedBias(e.g, sum, view, gemm, broadcast)) {
      var f: Sound :| Keeps(e, f) && f.g == FusedBias(e.g, sum, view, gemm, broadcast);
      FusedBiasFits(e, f, sum, view, gemm, broadcast);
      LongBiasMeansWhole(c, start, sliced);
    }
  }

  /** A bias as long as the gemm's rows was broadcast to a slice with whole columns. */
  lemma {:induction false} LongBiasMeansWhole(c: Site, start: Index, sliced: Dims)
    requires Accepted(c, sliced) && IsSlice(c.dims, start, sliced)
    requires Extent(c.biasDims, c.biasLayout, c.columns) == Extent(c.dims, c.layout, c.columns)
    ensures WholeColumns(c.dims, c.layout, sliced, c.columns)
  {
    AlignedLayouts(sliced, c.layout, c.biasDims, c.biasLayout, c.broadcastDims, Zeros(|sliced|), c.columns);
    PositiveExtent(c.dims, c.layout, c.columns);
    SmallerExtent(c.dims, sliced, c.layout, c.columns);
  }

  lemma {:induction false} PositiveExtent(dims: Dims, layout: seq<nat>, n: nat)
    requires IsLayout(dims, layout) && Positive(dims) && n <= |layout|
    ensures Extent(dims, layout, n) > 0
  {
    PhysicalInExtent(dims, layout, Zeros(|dims|), n);
  }

  /** A bias that the layout test accepts, added to the gemm itself, is always fused soundly. */
  lemma {:induction false} UnslicedFusionSound(e: Sound, sum: Id, gemm: Id, broadcast: Id, pick: seq<nat>, c: Site)
    requires VectorBiasMatch(e.g, sum, gemm, gemm, broadcast)
    requires Accepted(c, c.dims) && BroadcastsPhysically(pick, c, c.dims) && GemmNode(e.g, gemm, c)
    requires e.g.nodes[gemm].size == |pick|
    requires BroadcastNode(e.g, broadcast, pick, Extent(c.biasDims, c.biasLayout, c.columns))
    ensures SoundlyBecomes(e, FusedBias(e.g, sum, gemm, gemm, broadcast))
  {
    AcceptedBiasMayFuse(e.g, gemm, broadcast, pick, c);
    var f := VectorBiasSound(e, sum, gemm, gemm, broadcast);
  }

  // ---------------------------------------------------------------------------------------------
  // Values alone

  /** Whatever the factors and the bias hold: at every element of the slice, the fused call gives the sum of
      the gemm and the broadcast bias. */
  ghost predicate ValuesKept(config: GemmConfig, size: nat, slice: seq<nat>, pick: seq<nat>, biasSize: nat) {
    forall sem, args, bias :: KeptWith(sem, args, bias, config, size, slice, pick, biasSize)
  }

  ghost predicate KeptWith(sem: Semantics, args: seq<Value>, bias: Buffer, config: GemmConfig, size: nat,
                           slice: seq<nat>, pick: seq<nat>, biasSize: nat)
  {
    |args| == 2 + (if config.beta then 1 else 0) && |bias| == biasSize ==>
      forall i :: 0 <= i < |slice| && i < |pick| ==> ValueKept(sem, config, args, bias, size, slice[i], pick[i])
  }

  ghost predicate ValueKept(
      sem: Semantics, config: GemmConfig, args: seq<Value>, bias: Buffer, size: nat, behind: nat, picked: nat)
  {
    behind < size ==>
      PreActivation(sem, config, args, behind) + Elem(bias, picked)
      == PreActivation(sem, config.(epilogue := Bias), args + [Array(bias)], behind)
  }

  lemma {:induction false} FusedAdds(
      sem: Semantics, config: GemmConfig, args: seq<Value>, bias: Buffer, size: nat, behind: nat, picked: nat)
    requires config.epilogue.Default? && config.columns > 0 && |args| == 2 + (if config.beta then 1 else 0) &&
               behind < size
    ensures ValueKept(sem, config, args, bias, size, behind, picked)
       <==> Elem(bias, picked) == Elem(bias, behind % config.columns)
  {
    VectorFused(sem, config, args, Array(bias), behind);
    assert Arg([Array(bias)], 0) == bias;
  }

  /** A bias whose elements are all different, and none is zero. */
  function Ramp(n: nat): (b: Buffer)
    ensures |b| == n && forall i :: 0 <= i < n ==> b[i] == (i + 1) as real
  {
    seq(n, i requires 0 <= i < n => (i + 1) as real)
  }

  lemma {:induction false} ValuesKeptExactly(
      config: GemmConfig, size: nat, slice: seq<nat>, pick: seq<nat>, biasSize: nat)
    requires config.epilogue.Default? && config.columns > 0 && |slice| == |pick|
    requires forall i :: 0 <= i < |slice| ==> slice[i] < size && pick[i] < biasSize
    ensures ValuesKept(config, size, slice, pick, biasSize)
       <==> forall i :: 0 <= i < |slice| ==> pick[i] == slice[i] % config.columns
  {
    if forall i :: 0 <= i < |slice| ==> pick[i] == slice[i] % config.columns {
      forall sem, args, bias ensures KeptWith(sem, args, bias, config, size, slice, pick, biasSize) {
        AgreeingIsKept(sem, args, bias, config, size, slice, pick, biasSize);
      }
    } else {
      var i :| 0 <= i < |slice| && pick[i] != slice[i] % config.columns;
      DisagreeingIsLost(config, size, slice, pick, biasSize, i);
    }
  }

  lemma {:induction false} AgreeingIsKept(sem: Semantics, args: seq<Value>, bias: Buffer, config: GemmConfig, size: nat,
                                          slice: seq<nat>, pick: seq<nat>, biasSize: nat)
    requires config.epilogue.Default? && config.columns > 0 && |slice| == |pick|
    requires forall i :: 0 <= i < |slice| ==> slice[i] < size && pick[i] == slice[i] % config.columns
    ensures KeptWith(sem, args, bias, config, size, slice, pick, biasSize)
  {
    if |args| == 2 + (if config.beta then 1 else 0) {
      forall i | 0 <= i < |slice| ensures ValueKept(sem, config, args, bias, size, slice[i], pick[i]) {
        FusedAdds(sem, config, args, bias, size, slice[i], pick[i]);
      }
    }
  }

  lemma {:induction false} DisagreeingIsLost(
      config: GemmConfig, size: nat, slice: seq<nat>, pick: seq<nat>, biasSize: nat, i: nat)
    requires config.epilogue.Default? && config.columns > 0 && i < |slice| == |pick|
    requires slice[i] < size && pick[i] < biasSize && pick[i] != slice[i] % config.columns
    ensures !ValuesKept(config, size, slice, pick, biasSize)
  {
    var sem, bias := OneConstant().sem, Ramp(biasSize);
    var args := seq(2 + (if config.beta then 1 else 0), _ => Array([]));
    FusedAdds(sem, config, args, bias, size, slice[i], pick[i]);
    assert Elem(bias, pick[i]) != Elem(bias, slice[i] % config.columns);
    assert !KeptWith(sem, args, bias, config, size, slice, pick, biasSize);
  }

  /** A slice of the gemm and a broadcast to it, with the gemm's configuration. */
  ghost predicate SlicedBuffers(config: GemmConfig, slice: seq<nat>, pick: seq<nat>, c: Site, start: Index,
      sliced: Dims) {
    && Accepted(c, sliced) && IsSlice(c.dims, start, sliced)
    && BroadcastsPhysically(pick, c, sliced) && SlicesPhysically(slice, c, start, sliced)
    && config.epilogue.Default? && config.columns == Extent(c.dims, c.layout, c.columns)
  }

  /** One element: it sees its bias element exactly when the positions agree. */
  lemma {:induction false} SeesItsBiasAt(
      config: GemmConfig, slice: seq<nat>, pick: seq<nat>, c: Site, start: Index, sliced: Dims, idx: Index)
    requires SlicedBuffers(config, slice, pick, c, start, sliced) && config.columns > 0 && InBox(sliced, idx)
    ensures var i := LayoutOffset(sliced, c.layout, idx);
            && i < |pick| == |slice| && slice[i] < Extent(c.dims, c.layout, |c.layout|)
            && pick[i] < Extent(c.biasDims, c.biasLayout, c.columns)
            && (SeesItsBias(c.dims, c.layout, start, c.biasDims, c.biasLayout, c.broadcastDims, c.columns, idx)
                <==> pick[i] == slice[i] % config.columns)
  {
    assert PicksBias(pick, c, sliced, idx) && PicksSliced(slice, c, start, sliced, idx);
    PhysicalInExtent(c.dims, c.layout, Shift(idx, start), |c.layout|);
    PhysicalInExtent(c.biasDims, c.biasLayout, BiasIndex(c.broadcastDims, idx), |c.biasLayout|);
  }

  /** For every slice, whole columns or not: the fused call keeps all values of the sum, whatever the factors
      and the bias hold, exactly when every element of the slice sees its bias element. */
  lemma {:induction false} SlicedValuesExactly(
      config: GemmConfig, slice: seq<nat>, pick: seq<nat>, c: Site, start: Index, sliced: Dims)
    requires SlicedBuffers(config, slice, pick, c, start, sliced) && config.columns > 0
    ensures ValuesKept(config, Extent(c.dims, c.layout, |c.layout|), slice, pick,
                       Extent(c.biasDims, c.biasLayout, c.columns))
       <==> forall idx :: InBox(sliced, idx) ==>
              SeesItsBias(c.dims, c.layout, start, c.biasDims, c.biasLayout, c.broadcastDims, c.columns, idx)
  {
    var size, biasSize := Extent(c.dims, c.layout, |c.layout|), Extent(c.biasDims, c.biasLayout, c.columns);
    forall i | 0 <= i < |slice| ensures slice[i] < size && pick[i] < biasSize {
      var idx := OffsetOnto(sliced, c.layout, i);
      SeesItsBiasAt(config, slice, pick, c, start, sliced, idx);
    }
    ValuesKeptExactly(config, size, slice, pick, biasSize);
    if forall i :: 0 <= i < |slice| ==> pick[i] == slice[i] % config.columns {
      forall idx | InBox(sliced, idx)
        ensures SeesItsBias(c.dims, c.layout, start, c.biasDims, c.biasLayout, c.broadcastDims, c.columns, idx)
      {
        SeesItsBiasAt(config, slice, pick, c, start, sliced, idx);
      }
    }
    if forall idx :: InBox(sliced, idx) ==>
         SeesItsBias(c.dims, c.layout, start, c.biasDims, c.biasLayout, c.broadcastDims, c.columns, idx) {
      forall i | 0 <= i < |slice| ensures pick[i] == slice[i] % config.columns {
        var idx := OffsetOnto(sliced, c.layout, i);
        SeesItsBiasAt(config, slice, pick, c, start, sliced, idx);
      }
    }
  }
}
