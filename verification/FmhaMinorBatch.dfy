/** The other two operand transposes of the attention rewriter when the minor-most dimension is a batch
    dimension: the lhs of the first product, and the rhs of the second. */
module FmhaMinorBatch {
  import opened Ordering
  import opened Shapes
  import opened Tensors
  import opened FmhaRewriter

  // ---------------------------------------------------------------------------------------------
  // The rhs of the second product: free and minor-most dimension trade places, and the free dimension is
  // contracted from then on

  ghost predicate KeepsSecond(l: Tensor, r: Tensor, dn: DotDims, f: nat, m: nat)
    requires ValidDot(l.dims, r.dims, dn) && f < |r.dims| && m < |r.dims|
  {
    var dn' := dn.(rhsContracting := [f]);
    ValidDot(l.dims, TransposeOperand(r, f, m).dims, dn') && Dot(l, TransposeOperand(r, f, m), dn') == Dot(l, r, dn)
  }

  ghost predicate KeepsSecondMeaning(lhs: Dims, rhs: Dims, dn: DotDims, f: nat, m: nat)
    requires ValidDot(lhs, rhs, dn) && f < |rhs| && m < |rhs|
  {
    forall l, r :: Valid(l) && Valid(r) && l.dims == lhs && r.dims == rhs ==> KeepsSecond(l, r, dn, f, m)
  }

  /** If the rewritten dot is well typed, three sizes coincide. */
  lemma {:induction false} SecondIsTyped(lhs: Dims, rhs: Dims, dn: DotDims, c: nat, f: nat, m: nat)
    requires ValidDot(lhs, rhs, dn) && dn.rhsContracting == [c] && MatrixOperand(rhs, dn.rhsBatch, c, f)
    requires m in dn.rhsBatch && m < |rhs| && ValidDot(lhs, Exchange(rhs, f, m), dn.(rhsContracting := [f]))
    ensures rhs[m] == rhs[c] == rhs[f]
  {
    var rhs', p := Exchange(rhs, f, m), PositionIn(dn.rhsBatch, m);
    SingleSize(rhs, [c]);
    SingleSize(rhs', [f]);
    assert Sizes(rhs', dn.rhsBatch)[p] == Sizes(rhs, dn.rhsBatch)[p];
  }

  /** The row that the rewritten dot reads at its corner lies at coordinate zero of dimension c. */
  lemma {:induction false} SecondRowIsZero(rhs: Dims, batch: seq<nat>, c: nat, f: nat, m: nat, n: nat)
    requires MatrixOperand(rhs, batch, f, c) && m in batch && m < |rhs| && rhs[m] == rhs[f] && Positive(rhs)
    requires n < rhs[f]
    ensures FreeDims(|rhs|, batch, [f]) == [c]
    ensures var r := TransposeOperand(Tabulate(rhs, Coordinate(c)), f, m);
            |r.dims| == |rhs| && At(r, OperandIndex(|rhs|, batch, [f], Zeros(|batch|), [0], [n])) == 0
  {
    RowIndex(rhs, batch, f, c, n);
    var idx := OperandIndex(|rhs|, batch, [f], Zeros(|batch|), [0], [n]);
    MovedCoordinate(rhs, c, f, m, idx);
  }

  lemma {:induction false} MovedCoordinate(rhs: Dims, c: nat, f: nat, m: nat, idx: Index)
    requires f < |rhs| && m < |rhs| && c < |rhs| && c != f && c != m && rhs[m] == rhs[f] && InBox(rhs, idx)
    ensures var r := TransposeOperand(Tabulate(rhs, Coordinate(c)), f, m); |r.dims| == |rhs| && At(r, idx) == idx[c]
  {
    SwapExchanges(rhs, f, m);
    SwapExchanges(idx, f, m);
    assert Exchange(rhs, f, m) == rhs;
    TransposeAt(Tabulate(rhs, Coordinate(c)), SwapPerm(|rhs|, f, m), idx);
    TabulateAt(rhs, Coordinate(c), Exchange(idx, f, m));
  }

  lemma {:induction false} SecondWitnessAfter(lhs: Dims, rhs: Dims, dn: DotDims, c: nat, f: nat, m: nat, r: Tensor)
    requires ValidDot(lhs, rhs, dn) && dn.rhsContracting == [f] && MatrixOperand(rhs, dn.rhsBatch, f, c)
    requires m in dn.rhsBatch && m < |rhs| && rhs[m] == rhs[f] && Positive(lhs) && Positive(rhs)
    requires r == TransposeOperand(Tabulate(rhs, Coordinate(c)), f, m) && r.dims == rhs
    ensures Fits(lhs, rhs, dn, Corner(lhs, rhs, dn))
    ensures DotAt(Tabulate(lhs, One()), r, dn, Corner(lhs, rhs, dn)) == 0
  {
    CornerFits(lhs, rhs, dn, f, c);
    SingleFreeDim(rhs, dn.rhsBatch, f, c);
    forall n | 0 <= n < rhs[f] ensures At(r, OperandIndex(|rhs|, dn.rhsBatch, [f], Zeros(|dn.rhsBatch|), [0], [n])) ==
        0 {
      SecondRowIsZero(rhs, dn.rhsBatch, c, f, m, n);
    }
    ZeroCorner(lhs, r, dn, f, c);
  }

  lemma {:induction false} SecondWitnessBreaks(lhs: Dims, rhs: Dims, dn: DotDims, c: nat, f: nat, m: nat)
    requires ValidDot(lhs, rhs, dn) && dn.rhsContracting == [c] && MatrixOperand(rhs, dn.rhsBatch, c, f)
    requires m in dn.rhsBatch && m < |rhs| && rhs[m] == rhs[c] == rhs[f] && Positive(lhs) && Positive(rhs) && rhs[c] > 1
    ensures !KeepsSecond(Tabulate(lhs, One()), Tabulate(rhs, Coordinate(c)), dn, f, m)
  {
    var l, r, dn' := Tabulate(lhs, One()), Tabulate(rhs, Coordinate(c)), dn.(rhsContracting := [f]);
    WitnessBefore(lhs, rhs, dn, c, f);
    var x := Corner(lhs, rhs, dn);
    DotElement(l, r, dn, x);
    if ValidDot(lhs, TransposeOperand(r, f, m).dims, dn') {
      assert Exchange(rhs, f, m) == rhs;
      SecondWitnessAfter(lhs, rhs, dn', c, f, m, TransposeOperand(r, f, m));
      DotElement(l, TransposeOperand(r, f, m), dn', x);
    }
  }

  /** The transpose of the second product's rhs keeps the dot exactly when all three dimensions involved
      have size one. */
  lemma {:induction false} SecondProductExactly(lhs: Dims, rhs: Dims, dn: DotDims, c: nat, f: nat, m: nat)
    requires ValidDot(lhs, rhs, dn) && dn.rhsContracting == [c] && MatrixOperand(rhs, dn.rhsBatch, c, f)
    requires m in dn.rhsBatch && m < |rhs| && Positive(lhs) && Positive(rhs)
    ensures KeepsSecondMeaning(lhs, rhs, dn, f, m) <==> rhs[m] == rhs[c] == rhs[f] == 1
  {
    var l0, r0 := Tabulate(lhs, One()), Tabulate(rhs, Coordinate(c));
    if rhs[m] == rhs[c] == rhs[f] == 1 {
      forall l, r | Valid(l) && Valid(r) && l.dims == lhs && r.dims == rhs ensures KeepsSecond(l, r, dn, f, m) {
        UnitSwapIsIdentity(r, f, m);
        UnitSwapIsIdentity(r, c, f);
        RhsTransposePreservesMeaning(l, r, dn, c, f);
      }
    } else if KeepsSecond(l0, r0, dn, f, m) {
      SecondIsTyped(lhs, rhs, dn, c, f, m);
      SecondWitnessBreaks(lhs, rhs, dn, c, f, m);
    }
  }

  // ---------------------------------------------------------------------------------------------
  // The lhs of the first product

  ghost predicate KeepsLhs(l: Tensor, r: Tensor, dn: DotDims, c: nat, f: nat, m: nat)
    requires ValidDot(l.dims, r.dims, dn) && c < |l.dims| && m < |l.dims|
  {
    var dn' := dn.(lhsContracting := [f]);
    ValidDot(TransposeOperand(l, c, m).dims, r.dims, dn') && Dot(TransposeOperand(l, c, m), r, dn') == Dot(l, r, dn)
  }

  ghost predicate KeepsLhsMeaning(lhs: Dims, rhs: Dims, dn: DotDims, c: nat, f: nat, m: nat)
    requires ValidDot(lhs, rhs, dn) && c < |lhs| && m < |lhs|
  {
    forall l, r :: Valid(l) && Valid(r) && l.dims == lhs && r.dims == rhs ==> KeepsLhs(l, r, dn, c, f, m)
  }

  /** Two dots with one free dimension per operand agree exactly when they agree with sides exchanged. */
  lemma {:induction false} ExchangedAgree(l: Tensor, r: Tensor, dn: DotDims, l': Tensor, dn': DotDims)
    requires ValidDot(l.dims, r.dims, dn) && ValidDot(l'.dims, r.dims, dn')
    requires OneFreeDim(l.dims, dn.lhsBatch, dn.lhsContracting) && OneFreeDim(r.dims, dn.rhsBatch, dn.rhsContracting)
    requires OneFreeDim(l'.dims, dn'.lhsBatch, dn'.lhsContracting)
    requires OneFreeDim(r.dims, dn'.rhsBatch, dn'.rhsContracting)
    ensures ValidDot(r.dims, l.dims, SwapSides(dn)) && ValidDot(r.dims, l'.dims, SwapSides(dn'))
    ensures Dot(l', r, dn') == Dot(l, r, dn) <==> Dot(r, l', SwapSides(dn')) == Dot(r, l, SwapSides(dn))
  {
    SwapSidesValid(l.dims, r.dims, dn);
    SwapSidesValid(l'.dims, r.dims, dn');
    if Dot(r, l', SwapSides(dn')) == Dot(r, l, SwapSides(dn)) {
      SameCanonical(l, r, dn, l', dn');
    }
    if Dot(l', r, dn') == Dot(l, r, dn) {
      assert SwapSides(SwapSides(dn)) == dn && SwapSides(SwapSides(dn')) == dn';
      CanonicalizationPreservesMeaning(r, l, SwapSides(dn));
      CanonicalizationPreservesMeaning(r, l', SwapSides(dn'));
    }
  }

  lemma {:induction false} LhsIsRhsExchanged(l: Tensor, r: Tensor, dn: DotDims, c: nat, f: nat, m: nat)
    requires ValidDot(l.dims, r.dims, dn) && dn.lhsContracting == [c] && MatrixOperand(l.dims, dn.lhsBatch, c, f)
    requires m in dn.lhsBatch && m < |l.dims| && OneFreeDim(r.dims, dn.rhsBatch, dn.rhsContracting)
    ensures ValidDot(r.dims, l.dims, SwapSides(dn))
    ensures KeepsLhs(l, r, dn, c, f, m) <==> KeepsThis(r, l, SwapSides(dn), c, f, m)
  {
    SwapSidesValid(l.dims, r.dims, dn);
    var l', dn' := TransposeOperand(l, c, m), dn.(lhsContracting := [f]);
    assert SwapSides(dn') == SwapSides(dn).(rhsContracting := [f]);
    TypedEitherWay(l'.dims, r.dims, dn');
    if ValidDot(l'.dims, r.dims, dn') {
      SingleFreeDim(l.dims, dn.lhsBatch, c, f);
      OtherFreeDim(l.dims, l'.dims, dn.lhsBatch, c, f);
      ExchangedAgree(l, r, dn, l', dn');
    }
  }

  lemma {:induction false} TypedEitherWay(lhs: Dims, rhs: Dims, dn: DotDims)
    ensures ValidDot(lhs, rhs, dn) <==> ValidDot(rhs, lhs, SwapSides(dn))
  {
  }

  lemma {:induction false} OtherFreeDim(dims: Dims, dims': Dims, batch: seq<nat>, c: nat, f: nat)
    requires MatrixOperand(dims, batch, c, f) && |dims'| == |dims| && ValidOperand(dims', batch, [f])
    ensures OneFreeDim(dims', batch, [f])
  {
    AscendingSingleton(FreeDims(|dims'|, batch, [f]), c);
  }

  /** The transpose of the first product's lhs keeps the dot exactly when all three dimensions involved
      have size one. */
  lemma {:induction false} FirstLhsExactly(lhs: Dims, rhs: Dims, dn: DotDims, c: nat, f: nat, m: nat)
    requires ValidDot(lhs, rhs, dn) && dn.lhsContracting == [c] && MatrixOperand(lhs, dn.lhsBatch, c, f)
    requires m in dn.lhsBatch && m < |lhs| && Positive(lhs) && Positive(rhs)
    requires OneFreeDim(rhs, dn.rhsBatch, dn.rhsContracting)
    ensures KeepsLhsMeaning(lhs, rhs, dn, c, f, m) <==> lhs[m] == lhs[c] == lhs[f] == 1
  {
    SwapSidesValid(lhs, rhs, dn);
    MinorBatchExactly(rhs, lhs, SwapSides(dn), c, f, m);
    forall l: Tensor, r: Tensor | l.dims == lhs && r.dims == rhs
      ensures KeepsLhs(l, r, dn, c, f, m) <==> KeepsThis(r, l, SwapSides(dn), c, f, m)
    {
      LhsIsRhsExchanged(l, r, dn, c, f, m);
    }
  }
}
