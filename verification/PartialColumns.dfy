/** A bias that the code fuses through a slice of part of the columns, and what becomes of the value: a
    2 x 4 gemm, its columns 2 and 3, and a bias of two elements. */
module PartialColumns {
  import opened Shapes
  import opened VectorBias
  import opened HloGraph
  import opened EpilogueFusion
  import opened BiasLayout

  /** The product is zero everywhere and all inputs are one. */
  function Sem(): Semantics {
    Semantics((n, a, b) => [], (name: nat, args: seq<Value>, n: nat) => Filled(1.0, n), (x, y) => 0.0, x => x, 0.0, 0.0)
  }

  function Filled(c: real, n: nat): (b: Buffer)
    ensures |b| == n && forall i :: 0 <= i < n ==> b[i] == c
  {
    seq(n, _ => c)
  }

  function Input(size: nat): Instr { Instr(Opaque(0), [], size) }
  function Gemm8(): Instr { Instr(Gemm(GemmConfig(0, 4, true, FusableFloat, false, Default)), [0, 0], 8) }
  function SliceOf(): Instr { Instr(Slice([2, 3, 6, 7]), [2], 4) }
  function BroadcastOf(): Instr { Instr(Broadcast([0, 1, 0, 1]), [1], 4) }
  function SumOf(): Instr { Instr(Add, [3, 4], 4) }

  function G(): Graph {
    Graph(map[0 := Input(1), 1 := Input(2), 2 := Gemm8(), 3 := SliceOf(), 4 := BroadcastOf(), 5 := SumOf()], 5, 6)
  }

  function V(): Valuation {
    map[0 := Array(Filled(1.0, 1)), 1 := Array(Filled(1.0, 2)), 2 := Array(Filled(0.0, 8)),
        3 := Array(Filled(0.0, 4)), 4 := Array(Filled(1.0, 4)), 5 := Array(Filled(1.0, 4))]
  }

  function Ranks(): map<Id, nat> {
    map[0 := 0, 1 := 1, 2 := 2, 3 := 3, 4 := 4, 5 := 5]
  }

  function E(): Evaluated { Evaluated(Sem(), G(), V(), Ranks()) }

  lemma {:induction false} InputOk(id: Id)
    requires id == 0 || id == 1
    ensures NodeOk(Sem(), G().nodes[id], V(), id)
  {
  }

  lemma {:induction false} GemmOk()
    ensures NodeOk(Sem(), Gemm8(), V(), 2)
  {
    var args := Args(V(), [0, 0]);
    var c := Gemm8().op.config;
    forall i | 0 <= i < 8 ensures PreActivation(Sem(), c, args, i) == 0.0 {
      assert Sem().product(c.product, Arg(args, 0), Arg(args, 1)) == [];
    }
    SameArray(GemmValue(Sem(), c, args, 8), Array(Filled(0.0, 8)), 8);
  }

  lemma {:induction false} SliceOk()
    ensures NodeOk(Sem(), SliceOf(), V(), 3)
  {
    var args := Args(V(), [2]);
    assert Arg(args, 0) == Filled(0.0, 8);
    SameArray(Eval(Sem(), SliceOf(), args), Array(Filled(0.0, 4)), 4);
  }

  lemma {:induction false} BroadcastOk()
    ensures NodeOk(Sem(), BroadcastOf(), V(), 4)
  {
    var args := Args(V(), [1]);
    assert Arg(args, 0) == Filled(1.0, 2);
    SameArray(Eval(Sem(), BroadcastOf(), args), Array(Filled(1.0, 4)), 4);
  }

  lemma {:induction false} SumOk()
    ensures NodeOk(Sem(), SumOf(), V(), 5)
  {
    var args := Args(V(), [3, 4]);
    assert Arg(args, 0) == Filled(0.0, 4) && Arg(args, 1) == Filled(1.0, 4);
    SameArray(Eval(Sem(), SumOf(), args), Array(Filled(1.0, 4)), 4);
  }

  lemma {:induction false} IsModelled()
    ensures Models(Sem(), G(), V())
  {
    forall id | id in G().nodes ensures id in V() && NodeOk(Sem(), G().nodes[id], V(), id) {
      if id <= 1 {
        InputOk(id);
      } else if id == 2 {
        GemmOk();
      } else if id == 3 {
        SliceOk();
      } else if id == 4 {
        BroadcastOk();
      } else {
        SumOk();
      }
    }
  }

  lemma {:induction false} IsWellFormed()
    ensures Closed(G()) && Conventional(G())
  {
  }

  lemma {:induction false} IsRanked()
    ensures Ranked(G(), Ranks())
  {
  }

  lemma {:induction false} IsSound()
    ensures Good(E().sem, E().g, E().v) && Ranked(E().g, E().rank)
  {
    IsModelled();
    IsWellFormed();
    IsRanked();
  }

  /** The code's own tests pass. */
  lemma {:induction false} IsMatched()
    ensures VectorBiasMatch(G(), 5, 3, 2, 4)
  {
    assert Users(G(), 2) == {3} && Users(G(), 3) == {5};
  }

  function Layouts(): Site {
    Site([2, 4], [1, 0], [2], [0], [1], 1)
  }

  lemma {:induction false} Extents()
    ensures Extent([2, 4], [1, 0], 1) == 4 && Extent([2, 2], [1, 0], 2) == 4 && Extent([2], [0], 1) == 2
  {
    assert Extent([2, 4], [1, 0], 0) == 1 && Extent([2, 2], [1, 0], 0) == 1 && Extent([2], [0], 0) == 1;
    assert Extent([2, 2], [1, 0], 1) == 2;
  }

  /** Offsets in the slice, in the bias and in the gemm. */
  lemma {:induction false} Offsets(idx: Index)
    requires InBox([2, 2], idx)
    ensures LayoutOffset([2, 2], [1, 0], idx) == idx[1] + idx[0] * 2
    ensures LayoutOffset([2, 4], [1, 0], Shift(idx, [0, 2])) == idx[1] + 2 + idx[0] * 4
    ensures BiasIndex([1], idx) == [idx[1]] && LayoutOffset([2], [0], [idx[1]]) == idx[1]
  {
    OffsetInRows(2, 2, idx);
    OffsetInRows(2, 4, Shift(idx, [0, 2]));
    assert Physical([2], [0], [idx[1]], 0) == 0 && Extent([2], [0], 0) == 1;
    assert [0][1 - 1] == 0;
  }

  lemma {:induction false} OffsetInRows(n: nat, m: nat, idx: Index)
    requires |idx| == 2
    ensures LayoutOffset([n, m], [1, 0], idx) == idx[1] + idx[0] * m
  {
    var dims, layout := [n, m], [1, 0];
    assert Extent(dims, layout, 0) == 1 && Extent(dims, layout, 1) == m;
    assert Physical(dims, layout, idx, 0) == 0 && Physical(dims, layout, idx, 1) == idx[1];
    assert Physical(dims, layout, idx, 2) == idx[1] + idx[0] * m;
  }

  lemma {:induction false} IsSlicedSite()
    ensures SlicedSite(G(), 3, 2, 4, [2, 3, 6, 7], [0, 1, 0, 1], Layouts(), [0, 2], [2, 2])
  {
    var c, slice, pick := Layouts(), [2, 3, 6, 7], [0, 1, 0, 1];
    Extents();
    assert Accepted(c, [2, 2]);
    forall idx | InBox([2, 2], idx)
      ensures PicksBias(pick, c, [2, 2], idx) && PicksSliced(slice, c, [0, 2], [2, 2], idx)
    {
      Offsets(idx);
    }
  }

  /** The layout test accepts, the code fuses, and the result is wrong: the sum was one, the fused call
      reads past the end of the bias and gives zero. */
  lemma {:induction false} PartialColumnsAreMiscompiled()
    ensures Good(E().sem, E().g, E().v) && Ranked(E().g, E().rank)
    ensures VectorBiasMatch(G(), 5, 3, 2, 4) && Aligned([1, 0], [0], [1], 1)
    ensures !WholeColumns([2, 4], [1, 0], [2, 2], 1) && !SoundlyBecomes(E(), FusedBias(G(), 5, 3, 2, 4))
    ensures var fused := VectorFusedInstr(Gemm8(), 1);
            var value := Eval(Sem(), fused, Args(V(), fused.operands));
            value.Array? && |value.data| == 8 && value.data[Behind(G(), 3, 0)] == 0.0 && V()[5].data[0] == 1.0
  {
    IsSound();
    IsMatched();
    IsSlicedSite();
    SlicedFusionExactly(E(), 5, 3, 2, 4, [2, 3, 6, 7], [0, 1, 0, 1], Layouts(), [0, 2], [2, 2]);
    FusedElement();
  }

  lemma {:induction false} FusedElement()
    ensures var fused := VectorFusedInstr(Gemm8(), 1);
            var value := Eval(Sem(), fused, Args(V(), fused.operands));
            value.Array? && |value.data| == 8 && value.data[2] == 0.0
  {
    var fused := VectorFusedInstr(Gemm8(), 1);
    assert fused.operands == [0, 0, 1];
    var args := Args(V(), fused.operands);
    assert Arg(args, 2) == Filled(1.0, 2) && BiasAt(4, args, 2) == 0.0;
    assert Sem().product(0, Arg(args, 0), Arg(args, 1)) == [];
    assert PreActivation(Sem(), fused.op.config, args, 2) == 0.0;
  }

  // ---------------------------------------------------------------------------------------------
  // The leading columns

  lemma {:induction false} LeadingOffsets(idx: Index)
    requires InBox([2, 2], idx)
    ensures LayoutOffset([2, 2], [1, 0], idx) == idx[1] + idx[0] * 2
    ensures LayoutOffset([2, 4], [1, 0], Shift(idx, [0, 0])) == idx[1] + idx[0] * 4
    ensures BiasIndex([1], idx) == [idx[1]] && LayoutOffset([2], [0], [idx[1]]) == idx[1]
  {
    Offsets(idx);
    OffsetInRows(2, 4, Shift(idx, [0, 0]));
  }

  lemma {:induction false} LeadingBuffers()
    ensures SlicedBuffers(Gemm8().op.config, [0, 1, 4, 5], [0, 1, 0, 1], Layouts(), [0, 0], [2, 2])
  {
    var c, slice, pick := Layouts(), [0, 1, 4, 5], [0, 1, 0, 1];
    Extents();
    assert Accepted(c, [2, 2]);
    forall idx | InBox([2, 2], idx)
      ensures PicksBias(pick, c, [2, 2], idx) && PicksSliced(slice, c, [0, 0], [2, 2], idx)
    {
      LeadingOffsets(idx);
    }
  }

  /** Columns 0 and 1 of the same gemm: every value of the sum is kept, although the slice does not keep the
      columns whole and the fused call has a bias that is too short for it. */
  lemma {:induction false} LeadingColumnsKeepTheValue()
    ensures SlicedBuffers(Gemm8().op.config, [0, 1, 4, 5], [0, 1, 0, 1], Layouts(), [0, 0], [2, 2])
    ensures ValuesKept(Gemm8().op.config, 8, [0, 1, 4, 5], [0, 1, 0, 1], 2)
    ensures !WholeColumns([2, 4], [1, 0], [2, 2], 1)
  {
    LeadingBuffers();
    LeadingValues(Gemm8().op.config, [0, 1, 4, 5], [0, 1, 0, 1]);
  }

  lemma {:induction false} LeadingValues(config: GemmConfig, slice: seq<nat>, pick: seq<nat>)
    requires config.epilogue.Default? && config.columns == 4 && slice == [0, 1, 4, 5] && pick == [0, 1, 0, 1]
    ensures ValuesKept(config, 8, slice, pick, 2)
  {
    ValuesKeptExactly(config, 8, slice, pick, 2);
  }
}
