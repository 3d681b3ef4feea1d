/** The operand swaps and transposes with which fused_mha_rewriter.cc prepares its batched matrix
    products. */
module FmhaRewriter {
  import opened Ordering
  import opened Shapes
  import opened Tensors

  /** The identity permutation with two entries exchanged. */
  function SwapPerm(rank: nat, a: nat, b: nat): (perm: seq<nat>)
    requires a < rank && b < rank
    ensures |perm| == rank
  {
    seq(rank, i => if i == a then b else if i == b then a else i)
  }

  /** std::iota followed by std::swap. */
  method BuildSwapPerm(rank: nat, a: nat, b: nat) returns (perm: seq<nat>)
    requires a < rank && b < rank
    ensures perm == SwapPerm(rank, a, b) && IsPermutation(perm)
  {
    var p := new nat[rank](i => i);
    p[a], p[b] := p[b], p[a];
    perm := p[..];
    SwapIsPermutation(rank, a, b);
  }

  function Exchange(s: seq<nat>, a: nat, b: nat): (t: seq<nat>)
    requires a < |s| && b < |s|
    ensures |t| == |s|
  {
    s[a := s[b]][b := s[a]]
  }

  lemma {:induction false} SwapIsPermutation(rank: nat, a: nat, b: nat)
    requires a < rank && b < rank
    ensures IsPermutation(SwapPerm(rank, a, b))
  {
    var p := SwapPerm(rank, a, b);
    forall d | 0 <= d < rank ensures d in p {
      assert p[if d == a then b else if d == b then a else d] == d;
    }
  }

  lemma {:induction false} SwapExchanges(s: seq<nat>, a: nat, b: nat)
    requires a < |s| && b < |s|
    ensures IsPermutation(SwapPerm(|s|, a, b))
    ensures Permute(s, SwapPerm(|s|, a, b)) == Exchange(s, a, b)
    ensures Unpermute(SwapPerm(|s|, a, b), s) == Exchange(s, a, b)
  {
    var p := SwapPerm(|s|, a, b);
    SwapIsPermutation(|s|, a, b);
    forall d | 0 <= d < |s| ensures Unpermute(p, s)[d] == Exchange(s, a, b)[d] {
      var q := if d == a then b else if d == b then a else d;
      assert p[q] == d;
      PositionInDistinct(p, q);
    }
  }

  // ---------------------------------------------------------------------------------------------
  // CanonicalizeBatchedGemmForcuDNNFMHA

  function SwapSides(dn: DotDims): DotDims {
    DotDims(dn.rhsBatch, dn.lhsBatch, dn.rhsContracting, dn.lhsContracting)
  }

  ghost predicate OneFreeDim(dims: Dims, batch: seq<nat>, contracting: seq<nat>) {
    |FreeDims(|dims|, batch, contracting)| == 1
  }

  lemma {:induction false} SwapSidesValid(lhs: Dims, rhs: Dims, dn: DotDims)
    requires ValidDot(lhs, rhs, dn)
    ensures ValidDot(rhs, lhs, SwapSides(dn))
  {
  }

  lemma {:induction false} SwapSidesElement(l: Tensor, r: Tensor, dn: DotDims, c: Coordinates)
    requires Fits(l.dims, r.dims, dn, c)
    ensures Fits(r.dims, l.dims, SwapSides(dn), Coordinates(c.batch, c.rhsFree, c.lhsFree))
    ensures DotAt(r, l, SwapSides(dn), Coordinates(c.batch, c.rhsFree, c.lhsFree)) == DotAt(l, r, dn, c)
  {
    var c' := Coordinates(c.batch, c.rhsFree, c.lhsFree);
    SwapSidesValid(l.dims, r.dims, dn);
    forall n | 0 <= n < Product(Sizes(l.dims, dn.lhsContracting))
      ensures Term(r, l, SwapSides(dn), c', n) == Term(l, r, dn, c, n)
    {
    }
    assert Terms(r, l, SwapSides(dn), c') == Terms(l, r, dn, c);
  }

  /** The dot with its sides exchanged, transposed in its last two dimensions. */
  ghost function Canonicalized(l: Tensor, r: Tensor, dn: DotDims): Tensor
    requires ValidDot(l.dims, r.dims, dn)
    requires OneFreeDim(l.dims, dn.lhsBatch, dn.lhsContracting) && OneFreeDim(r.dims, dn.rhsBatch, dn.rhsContracting)
  {
    SwapSidesValid(l.dims, r.dims, dn);
    var swapped := Dot(r, l, SwapSides(dn));
    var rank := |swapped.dims|;
    SwapIsPermutation(rank, rank - 1, rank - 2);
    Transpose(swapped, SwapPerm(rank, rank - 1, rank - 2))
  }

  /** Canonicalising a batched product keeps its value, for any rank, batch and contracting dimensions. */
  lemma {:induction false} CanonicalizationPreservesMeaning(l: Tensor, r: Tensor, dn: DotDims)
    requires ValidDot(l.dims, r.dims, dn)
    requires OneFreeDim(l.dims, dn.lhsBatch, dn.lhsContracting) && OneFreeDim(r.dims, dn.rhsBatch, dn.rhsContracting)
    ensures Canonicalized(l, r, dn) == Dot(l, r, dn)
  {
    SwapSidesValid(l.dims, r.dims, dn);
    var inner, t, u := Dot(r, l, SwapSides(dn)), Canonicalized(l, r, dn), Dot(l, r, dn);
    var rank := |inner.dims|;
    SwapExchanges(inner.dims, rank - 1, rank - 2);
    assert Exchange(inner.dims, rank - 1, rank - 2) == u.dims;
    forall o | InBox(t.dims, o) ensures At(t, o) == At(u, o) {
      var c := Split(l.dims, r.dims, dn, o);
      DotElement(l, r, dn, c);
      CanonicalizedElement(l, r, dn, c);
    }
    Extensional(t, u);
  }

  lemma {:induction false} CanonicalizedElement(l: Tensor, r: Tensor, dn: DotDims, c: Coordinates)
    requires Fits(l.dims, r.dims, dn, c)
    requires OneFreeDim(l.dims, dn.lhsBatch, dn.lhsContracting) && OneFreeDim(r.dims, dn.rhsBatch, dn.rhsContracting)
    requires InBox(Canonicalized(l, r, dn).dims, c.batch + c.lhsFree + c.rhsFree)
    ensures At(Canonicalized(l, r, dn), c.batch + c.lhsFree + c.rhsFree) == DotAt(l, r, dn, c)
  {
    SwapSidesValid(l.dims, r.dims, dn);
    var inner := Dot(r, l, SwapSides(dn));
    var rank := |inner.dims|;
    var o, c' := c.batch + c.lhsFree + c.rhsFree, Coordinates(c.batch, c.rhsFree, c.lhsFree);
    SwapExchanges(o, rank - 1, rank - 2);
    assert Exchange(o, rank - 1, rank - 2) == c'.batch + c'.lhsFree + c'.rhsFree;
    TransposeAt(inner, SwapPerm(rank, rank - 1, rank - 2), o);
    SwapSidesElement(l, r, dn, c);
    DotElement(r, l, SwapSides(dn), c');
  }

  // ---------------------------------------------------------------------------------------------
  // The operand transposes of FuseMultiHeadedAttentionBlock

  /** An operand whose dimensions are the batch dimensions, one contracting dimension c and one free
      dimension f. */
  ghost predicate MatrixOperand(dims: Dims, batch: seq<nat>, c: nat, f: nat) {
    && ValidOperand(dims, batch, [c])
    && c < |dims| && f < |dims| && f != c && c !in batch && f !in batch
    && forall d: nat :: d < |dims| && d != c && d != f ==> d in batch
  }

  lemma {:induction false} SingleFreeDim(dims: Dims, batch: seq<nat>, c: nat, f: nat)
    requires MatrixOperand(dims, batch, c, f)
    ensures FreeDims(|dims|, batch, [c]) == [f]
  {
    AscendingSingleton(FreeDims(|dims|, batch, [c]), f);
  }

  lemma {:induction false} ExchangedOperand(dims: Dims, batch: seq<nat>, c: nat, f: nat)
    requires MatrixOperand(dims, batch, c, f)
    ensures MatrixOperand(Exchange(dims, c, f), batch, f, c)
    ensures Sizes(Exchange(dims, c, f), batch) == Sizes(dims, batch)
  {
    assert forall i :: 0 <= i < |batch| ==> batch[i] in batch;
  }

  /** k at dimension c, j at dimension f, b at the batch dimensions. */
  ghost function MatrixPoint(rank: nat, batch: seq<nat>, c: nat, f: nat, b: Index, j: nat, k: nat): (idx: Index)
    requires |b| == |batch| && forall d: nat :: d < rank && d != c && d != f ==> d in batch
    ensures |idx| == rank
  {
    seq(rank, d requires 0 <= d < rank => if d == c then k else if d == f then j else b[PositionIn(batch, d)])
  }

  lemma {:induction false} MatrixIndex(dims: Dims, batch: seq<nat>, c: nat, f: nat, b: Index, j: nat, k: nat)
    requires MatrixOperand(dims, batch, c, f) && |b| == |batch|
    ensures FreeDims(|dims|, batch, [c]) == [f]
    ensures OperandIndex(|dims|, batch, [c], b, [j], [k]) == MatrixPoint(|dims|, batch, c, f, b, j, k)
  {
    SingleFreeDim(dims, batch, c, f);
  }

  lemma {:induction false} ExchangedPoint(dims: Dims, batch: seq<nat>, c: nat, f: nat, b: Index, j: nat, k: nat)
    requires MatrixOperand(dims, batch, c, f)
    requires InBox(Sizes(dims, batch), b) && j < dims[f] && k < dims[c]
    ensures var i' := MatrixPoint(|dims|, batch, f, c, b, j, k);
            InBox(Exchange(dims, c, f), i') && Exchange(i', c, f) == MatrixPoint(|dims|, batch, c, f, b, j, k)
  {
    forall d | 0 <= d < |dims| && d != c && d != f ensures b[PositionIn(batch, d)] < dims[d] {
      var p := PositionIn(batch, d);
      assert b[p] < Sizes(dims, batch)[p];
    }
  }

  /** Reading the transposed operand with its contracting and free dimensions exchanged is reading
      the operand. */
  lemma {:induction false} ExchangedElement(t: Tensor, batch: seq<nat>, c: nat, f: nat, b: Index, j: nat, k: nat)
    requires MatrixOperand(t.dims, batch, c, f)
    requires InBox(Sizes(t.dims, batch), b) && j < t.dims[f] && k < t.dims[c]
    ensures FreeDims(|t.dims|, batch, [c]) == [f] && FreeDims(|t.dims|, batch, [f]) == [c]
    ensures IsPermutation(SwapPerm(|t.dims|, c, f))
    ensures At(Transpose(t, SwapPerm(|t.dims|, c, f)), OperandIndex(|t.dims|, batch, [f], b, [j], [k]))
            == At(t, OperandIndex(|t.dims|, batch, [c], b, [j], [k]))
  {
    var rank := |t.dims|;
    ExchangedIndex(t.dims, batch, c, f, b, j, k);
    var i, i' := OperandIndex(rank, batch, [c], b, [j], [k]), OperandIndex(rank, batch, [f], b, [j], [k]);
    SwapExchanges(t.dims, c, f);
    SwapExchanges(i', c, f);
    TransposeAt(t, SwapPerm(rank, c, f), i');
  }

  lemma {:induction false} ExchangedIndex(dims: Dims, batch: seq<nat>, c: nat, f: nat, b: Index, j: nat, k: nat)
    requires MatrixOperand(dims, batch, c, f)
    requires InBox(Sizes(dims, batch), b) && j < dims[f] && k < dims[c]
    ensures FreeDims(|dims|, batch, [c]) == [f] && FreeDims(|dims|, batch, [f]) == [c]
    ensures var i, i' := OperandIndex(|dims|, batch, [c], b, [j], [k]), OperandIndex(|dims|, batch, [f], b, [j], [k]);
            InBox(Exchange(dims, c, f), i') && Exchange(i', c, f) == i
  {
    ExchangedOperand(dims, batch, c, f);
    MatrixIndex(dims, batch, c, f, b, j, k);
    MatrixIndex(Exchange(dims, c, f), batch, f, c, b, j, k);
    ExchangedPoint(dims, batch, c, f, b, j, k);
  }

  ghost function TransposeOperand(t: Tensor, c: nat, m: nat): (u: Tensor)
    requires c < |t.dims| && m < |t.dims|
    ensures Valid(u) && u.dims == Exchange(t.dims, c, m)
  {
    SwapExchanges(t.dims, c, m);
    Transpose(t, SwapPerm(|t.dims|, c, m))
  }

  /** Making the rhs contracting dimension the fastest moving one keeps the value of the dot when the
      minor-most dimension it trades places with is the rhs free dimension. */
  lemma {:induction false} RhsTransposePreservesMeaning(l: Tensor, r: Tensor, dn: DotDims, c: nat, f: nat)
    requires ValidDot(l.dims, r.dims, dn) && dn.rhsContracting == [c] && MatrixOperand(r.dims, dn.rhsBatch, c, f)
    ensures ValidDot(l.dims, TransposeOperand(r, c, f).dims, dn.(rhsContracting := [f]))
    ensures Dot(l, TransposeOperand(r, c, f), dn.(rhsContracting := [f])) == Dot(l, r, dn)
  {
    var r', dn' := TransposeOperand(r, c, f), dn.(rhsContracting := [f]);
    ExchangedRhs(l.dims, r.dims, dn, c, f);
    forall x | Fits(l.dims, r.dims, dn, x)
      ensures Fits(l.dims, r'.dims, dn', x) && DotAt(l, r', dn', x) == DotAt(l, r, dn, x)
    {
      RhsTerms(l, r, dn, c, f, x);
    }
    DotsAgree(l, r, dn, l, r', dn');
  }

  lemma {:induction false} ExchangedRhs(lhs: Dims, rhs: Dims, dn: DotDims, c: nat, f: nat)
    requires ValidDot(lhs, rhs, dn) && dn.rhsContracting == [c] && MatrixOperand(rhs, dn.rhsBatch, c, f)
    ensures var rhs', dn' := Exchange(rhs, c, f), dn.(rhsContracting := [f]);
            && ValidDot(lhs, rhs', dn')
            && OutDims(lhs, rhs', dn') == OutDims(lhs, rhs, dn)
            && forall x :: Fits(lhs, rhs, dn, x) ==> Fits(lhs, rhs', dn', x)
  {
    ExchangedSizes(rhs, dn.rhsBatch, c, f);
  }

  lemma {:induction false} ExchangedSizes(dims: Dims, batch: seq<nat>, c: nat, f: nat)
    requires MatrixOperand(dims, batch, c, f)
    ensures var dims' := Exchange(dims, c, f);
            && ValidOperand(dims', batch, [f])
            && FreeDims(|dims|, batch, [c]) == [f] && FreeDims(|dims'|, batch, [f]) == [c]
            && Sizes(dims', batch) == Sizes(dims, batch)
            && Sizes(dims', [f]) == Sizes(dims, [c]) && Sizes(dims', [c]) == Sizes(dims, [f])
  {
    var dims' := Exchange(dims, c, f);
    ExchangedOperand(dims, batch, c, f);
    SingleFreeDim(dims, batch, c, f);
    SingleFreeDim(dims', batch, f, c);
    SingleSize(dims, [c]);
    SingleSize(dims, [f]);
    SingleSize(dims', [c]);
    SingleSize(dims', [f]);
  }

  lemma {:induction false} RhsTerms(l: Tensor, r: Tensor, dn: DotDims, c: nat, f: nat, x: Coordinates)
    requires ValidDot(l.dims, r.dims, dn) && dn.rhsContracting == [c] && MatrixOperand(r.dims, dn.rhsBatch, c, f)
    requires Fits(l.dims, r.dims, dn, x)
    requires Fits(l.dims, TransposeOperand(r, c, f).dims, dn.(rhsContracting := [f]), x)
    ensures Terms(l, TransposeOperand(r, c, f), dn.(rhsContracting := [f]), x) == Terms(l, r, dn, x)
  {
    var r', dn' := TransposeOperand(r, c, f), dn.(rhsContracting := [f]);
    var ks := Sizes(l.dims, dn.lhsContracting);
    forall n | 0 <= n < Product(ks) ensures Term(l, r', dn', x, n) == Term(l, r, dn, x, n) {
      var k := Delinearize(ks, n);
      SingleFreeDim(r.dims, dn.rhsBatch, c, f);
      assert ks == Sizes(r.dims, [c]) && ks[0] == r.dims[c];
      assert k == [k[0]] && x.rhsFree == [x.rhsFree[0]];
      ExchangedElement(r, dn.rhsBatch, c, f, x.batch, x.rhsFree[0], k[0]);
    }
  }

  /** The same for the lhs. */
  lemma {:induction false} LhsTransposePreservesMeaning(l: Tensor, r: Tensor, dn: DotDims, c: nat, f: nat)
    requires ValidDot(l.dims, r.dims, dn) && dn.lhsContracting == [c] && MatrixOperand(l.dims, dn.lhsBatch, c, f)
    requires OneFreeDim(r.dims, dn.rhsBatch, dn.rhsContracting)
    ensures ValidDot(TransposeOperand(l, c, f).dims, r.dims, dn.(lhsContracting := [f]))
    ensures Dot(TransposeOperand(l, c, f), r, dn.(lhsContracting := [f])) == Dot(l, r, dn)
  {
    SwapSidesValid(l.dims, r.dims, dn);
    var l', dn' := TransposeOperand(l, c, f), dn.(lhsContracting := [f]);
    RhsTransposePreservesMeaning(r, l, SwapSides(dn), c, f);
    SwapSidesValid(r.dims, l'.dims, SwapSides(dn'));
    SingleFreeDim(l.dims, dn.lhsBatch, c, f);
    ExchangedOperand(l.dims, dn.lhsBatch, c, f);
    SingleFreeDim(l'.dims, dn.lhsBatch, f, c);
    SameCanonical(l, r, dn, l', dn');
  }

  /** Dots that agree with their sides exchanged agree. */
  lemma {:induction false} SameCanonical(l: Tensor, r: Tensor, dn: DotDims, l': Tensor, dn': DotDims)
    requires ValidDot(l.dims, r.dims, dn) && ValidDot(l'.dims, r.dims, dn')
    requires ValidDot(r.dims, l.dims, SwapSides(dn)) && ValidDot(r.dims, l'.dims, SwapSides(dn'))
    requires OneFreeDim(l.dims, dn.lhsBatch, dn.lhsContracting) && OneFreeDim(r.dims, dn.rhsBatch, dn.rhsContracting)
    requires OneFreeDim(l'.dims, dn'.lhsBatch, dn'.lhsContracting)
    requires OneFreeDim(r.dims, dn'.rhsBatch, dn'.rhsContracting)
    requires Dot(r, l', SwapSides(dn')) == Dot(r, l, SwapSides(dn))
    ensures Dot(l', r, dn') == Dot(l, r, dn)
  {
    CanonicalizationPreservesMeaning(l, r, dn);
    CanonicalizationPreservesMeaning(l', r, dn');
  }

  /** When the minor-most dimension is a batch dimension, which the code does not rule out, the
      rewritten dot is well typed only if three sizes happen to coincide. */
  lemma {:induction false} MinorBatchDimension(l: Tensor, r: Tensor, dn: DotDims, c: nat, f: nat, m: nat)
    requires ValidDot(l.dims, r.dims, dn) && dn.rhsContracting == [c] && MatrixOperand(r.dims, dn.rhsBatch, c, f)
    requires m in dn.rhsBatch
    ensures m < |r.dims|
    ensures ValidDot(l.dims, TransposeOperand(r, c, m).dims, dn.(rhsContracting := [f])) <==>
            r.dims[m] == r.dims[c] == r.dims[f]
  {
    ExchangedOperand(r.dims, dn.rhsBatch, c, f);
    var p := PositionIn(dn.rhsBatch, m);
    SwapExchanges(r.dims, c, m);
    var d, dn' := TransposeOperand(r, c, m).dims, dn.(rhsContracting := [f]);
    assert ValidOperand(d, dn'.rhsBatch, [f]);
    assert Sizes(d, [f]) == [r.dims[f]] && Sizes(l.dims, dn.lhsContracting) == Sizes(r.dims, [c]) == [r.dims[c]];
    assert Sizes(r.dims, dn.rhsBatch)[p] == r.dims[m] && Sizes(d, dn.rhsBatch)[p] == r.dims[c];
    if r.dims[m] == r.dims[c] {
      assert d == r.dims;
    }
  }

  // ---------------------------------------------------------------------------------------------
  // What happens when the minor-most dimension is a batch dimension

  function Tabulate(dims: Dims, g: Index -> int): (t: Tensor)
    ensures t.dims == dims && |t.data| == Product(dims)
  {
    Tensor(dims, seq(Product(dims), n requires 0 <= n < Product(dims) => g(Delinearize(dims, n))))
  }

  lemma {:induction false} TabulateAt(dims: Dims, g: Index -> int, idx: Index)
    requires InBox(dims, idx)
    ensures At(Tabulate(dims, g), idx) == g(idx)
  {
    IndexRoundTrip(dims, idx);
  }

  lemma {:induction false} SumAtLeast(xs: seq<int>, i: nat)
    requires i < |xs| && forall n :: 0 <= n < |xs| ==> xs[n] >= 0
    ensures Sum(xs) >= xs[i]
  {
    SumNonNegative(xs[..|xs| - 1]);
    if i < |xs| - 1 {
      SumAtLeast(xs[..|xs| - 1], i);
    }
  }

  lemma {:induction false} SumNonNegative(xs: seq<int>)
    requires forall n :: 0 <= n < |xs| ==> xs[n] >= 0
    ensures Sum(xs) >= 0 && ((forall n :: 0 <= n < |xs| ==> xs[n] == 0) ==> Sum(xs) == 0)
  {
    if xs != [] {
      SumNonNegative(xs[..|xs| - 1]);
    }
  }

  /** The operand index with all coordinates zero but the contracting one. */
  lemma {:induction false} RowIndex(dims: Dims, batch: seq<nat>, c: nat, f: nat, k: nat)
    requires MatrixOperand(dims, batch, c, f) && Positive(dims) && k < dims[c]
    ensures FreeDims(|dims|, batch, [c]) == [f]
    ensures var idx := OperandIndex(|dims|, batch, [c], Zeros(|batch|), [0], [k]);
            InBox(dims, idx) && idx[c] == k && forall d :: 0 <= d < |dims| && d != c ==> idx[d] == 0
  {
    MatrixIndex(dims, batch, c, f, Zeros(|batch|), 0, k);
    RowPoint(dims, batch, c, f, k);
  }

  lemma {:induction false} RowPoint(dims: Dims, batch: seq<nat>, c: nat, f: nat, k: nat)
    requires MatrixOperand(dims, batch, c, f) && Positive(dims) && k < dims[c]
    ensures var idx := MatrixPoint(|dims|, batch, c, f, Zeros(|batch|), 0, k);
            InBox(dims, idx) && idx[c] == k && forall d :: 0 <= d < |dims| && d != c ==> idx[d] == 0
  {
  }

  function Coordinate(c: nat): Index -> int {
    (idx: Index) => if c < |idx| then idx[c] else 0
  }

  function One(): Index -> int {
    (idx: Index) => 1
  }

  /** All coordinates of the result zero. */
  ghost function Corner(lhs: Dims, rhs: Dims, dn: DotDims): Coordinates
    requires ValidDot(lhs, rhs, dn)
  {
    Coordinates(Zeros(|dn.lhsBatch|), Zeros(|FreeDims(|lhs|, dn.lhsBatch, dn.lhsContracting)|), [0])
  }

  lemma {:induction false} CornerFits(lhs: Dims, rhs: Dims, dn: DotDims, c: nat, f: nat)
    requires ValidDot(lhs, rhs, dn) && dn.rhsContracting == [c] && MatrixOperand(rhs, dn.rhsBatch, c, f)
    requires Positive(lhs) && Positive(rhs)
    ensures Fits(lhs, rhs, dn, Corner(lhs, rhs, dn)) && |dn.lhsBatch| == |dn.rhsBatch| && |dn.lhsContracting| == 1
    ensures Sizes(lhs, dn.lhsContracting) == [rhs[c]]
  {
    SameCounts(lhs, rhs, dn, c);
    SingleFreeDim(rhs, dn.rhsBatch, c, f);
    var lf := FreeDims(|lhs|, dn.lhsBatch, dn.lhsContracting);
    ZerosInBox(lhs, dn.lhsBatch);
    ZerosInBox(lhs, lf);
    SingleSize(rhs, [f]);
  }

  lemma {:induction false} SameCounts(lhs: Dims, rhs: Dims, dn: DotDims, c: nat)
    requires ValidDot(lhs, rhs, dn) && dn.rhsContracting == [c] && c < |rhs|
    ensures |dn.lhsBatch| == |dn.rhsBatch| && |dn.lhsContracting| == 1 && Sizes(lhs, dn.lhsContracting) == [rhs[c]]
  {
    assert |Sizes(lhs, dn.lhsBatch)| == |Sizes(rhs, dn.rhsBatch)|;
    SingleSize(rhs, [c]);
  }

  lemma {:induction false} ZerosInBox(dims: Dims, ds: seq<nat>)
    requires Positive(dims) && forall i :: 0 <= i < |ds| ==> ds[i] < |dims|
    ensures InBox(Sizes(dims, ds), Zeros(|ds|))
  {
  }

  lemma {:induction false} SingleDelinearize(count: nat, n: nat)
    requires n < count
    ensures Product([count]) == count && Delinearize([count], n) == [n]
  {
    SingleProduct([count]);
    PositionRoundTrip([count], n);
    var k := Delinearize([count], n);
    assert [count][1..] == [] && k[1..] == [] && k == [k[0]];
  }

  /** A tensor of ones: every element it is asked for at the corner is one. */
  lemma {:induction false} OnesAt(lhs: Dims, batch: seq<nat>, contracting: seq<nat>, k: Index)
    requires ValidOperand(lhs, batch, contracting) && Positive(lhs) && InBox(Sizes(lhs, contracting), k)
    ensures var f := Zeros(|FreeDims(|lhs|, batch, contracting)|);
            At(Tabulate(lhs, One()), OperandIndex(|lhs|, batch, contracting, Zeros(|batch|), f, k)) == 1
  {
    var f := Zeros(|FreeDims(|lhs|, batch, contracting)|);
    var idx := OperandIndex(|lhs|, batch, contracting, Zeros(|batch|), f, k);
    forall d | 0 <= d < |lhs| ensures idx[d] < lhs[d] {
      if d !in batch && d in contracting {
        assert k[PositionIn(contracting, d)] < Sizes(lhs, contracting)[PositionIn(contracting, d)];
      }
    }
    TabulateAt(lhs, One(), idx);
  }

  /** The products summed at the corner are the rhs elements along its contracting dimension. */
  lemma {:induction false} CornerTerm(lhs: Dims, r: Tensor, dn: DotDims, c: nat, f: nat, n: nat)
    requires ValidDot(lhs, r.dims, dn) && dn.rhsContracting == [c] && MatrixOperand(r.dims, dn.rhsBatch, c, f)
    requires Positive(lhs) && Positive(r.dims) && n < r.dims[c]
    requires Fits(lhs, r.dims, dn, Corner(lhs, r.dims, dn)) && n < Product(Sizes(lhs, dn.lhsContracting))
    ensures |dn.lhsBatch| == |dn.rhsBatch| && FreeDims(|r.dims|, dn.rhsBatch, [c]) == [f]
    ensures Term(Tabulate(lhs, One()), r, dn, Corner(lhs, r.dims, dn), n)
         == At(r, OperandIndex(|r.dims|, dn.rhsBatch, [c], Zeros(|dn.rhsBatch|), [0], [n]))
  {
    SameCounts(lhs, r.dims, dn, c);
    SingleFreeDim(r.dims, dn.rhsBatch, c, f);
    SingleDelinearize(r.dims[c], n);
    OnesAt(lhs, dn.lhsBatch, dn.lhsContracting, [n]);
  }

  /** The witness: ones on the left, the contracting coordinate on the right. */
  lemma {:induction false} WitnessBefore(lhs: Dims, rhs: Dims, dn: DotDims, c: nat, f: nat)
    requires ValidDot(lhs, rhs, dn) && dn.rhsContracting == [c] && MatrixOperand(rhs, dn.rhsBatch, c, f)
    requires Positive(lhs) && Positive(rhs) && rhs[c] > 1
    ensures Fits(lhs, rhs, dn, Corner(lhs, rhs, dn))
    ensures DotAt(Tabulate(lhs, One()), Tabulate(rhs, Coordinate(c)), dn, Corner(lhs, rhs, dn)) >= 1
  {
    CornerFits(lhs, rhs, dn, c, f);
    var l, r, x := Tabulate(lhs, One()), Tabulate(rhs, Coordinate(c)), Corner(lhs, rhs, dn);
    var ts := Terms(l, r, dn, x);
    SingleProduct([rhs[c]]);
    forall n | 0 <= n < |ts| ensures ts[n] == n {
      CornerTerm(lhs, r, dn, c, f, n);
      RowIndex(rhs, dn.rhsBatch, c, f, n);
      TabulateAt(rhs, Coordinate(c), OperandIndex(|rhs|, dn.rhsBatch, [c], Zeros(|dn.rhsBatch|), [0], [n]));
    }
    SumAtLeast(ts, 1);
  }

  lemma {:induction false} ZeroCorner(lhs: Dims, r: Tensor, dn: DotDims, c: nat, f: nat)
    requires ValidDot(lhs, r.dims, dn) && dn.rhsContracting == [c] && MatrixOperand(r.dims, dn.rhsBatch, c, f)
    requires Positive(lhs) && Positive(r.dims) && Fits(lhs, r.dims, dn, Corner(lhs, r.dims, dn))
    requires FreeDims(|r.dims|, dn.rhsBatch, [c]) == [f]
    requires forall n :: 0 <= n < r.dims[c] ==>
               At(r, OperandIndex(|r.dims|, dn.rhsBatch, [c], Zeros(|dn.rhsBatch|), [0], [n])) == 0
    ensures DotAt(Tabulate(lhs, One()), r, dn, Corner(lhs, r.dims, dn)) == 0
  {
    var ts := Terms(Tabulate(lhs, One()), r, dn, Corner(lhs, r.dims, dn));
    SameCounts(lhs, r.dims, dn, c);
    SingleProduct([r.dims[c]]);
    forall n | 0 <= n < |ts| ensures ts[n] == 0 {
      CornerTerm(lhs, r, dn, c, f, n);
    }
    SumNonNegative(ts);
  }

  /** After the transpose the same corner reads the witness at contracting coordinate zero only. */
  lemma {:induction false} WitnessAfter(lhs: Dims, rhs: Dims, dn: DotDims, c: nat, f: nat, m: nat, r: Tensor)
    requires ValidDot(lhs, rhs, dn) && dn.rhsContracting == [f] && MatrixOperand(rhs, dn.rhsBatch, f, c)
    requires m in dn.rhsBatch && m < |rhs| && rhs[m] == rhs[c] && Positive(lhs) && Positive(rhs)
    requires r == TransposeOperand(Tabulate(rhs, Coordinate(c)), c, m) && r.dims == rhs
    ensures Fits(lhs, rhs, dn, Corner(lhs, rhs, dn))
    ensures DotAt(Tabulate(lhs, One()), r, dn, Corner(lhs, rhs, dn)) == 0
  {
    CornerFits(lhs, rhs, dn, f, c);
    SingleFreeDim(rhs, dn.rhsBatch, f, c);
    forall n | 0 <= n < rhs[f] ensures At(r, OperandIndex(|rhs|, dn.rhsBatch, [f], Zeros(|dn.rhsBatch|), [0], [n])) ==
        0 {
      RowIsZero(rhs, dn.rhsBatch, c, f, m, n);
    }
    ZeroCorner(lhs, r, dn, f, c);
  }

  lemma {:induction false} RowIsZero(rhs: Dims, batch: seq<nat>, c: nat, f: nat, m: nat, n: nat)
    requires MatrixOperand(rhs, batch, f, c) && m in batch && m < |rhs| && rhs[m] == rhs[c] && Positive(rhs)
    requires n < rhs[f]
    ensures FreeDims(|rhs|, batch, [f]) == [c]
    ensures var r := TransposeOperand(Tabulate(rhs, Coordinate(c)), c, m);
            |r.dims| == |rhs| && At(r, OperandIndex(|rhs|, batch, [f], Zeros(|batch|), [0], [n])) == 0
  {
    RowIndex(rhs, batch, f, c, n);
    var idx := OperandIndex(|rhs|, batch, [f], Zeros(|batch|), [0], [n]);
    UnmovedElement(Tabulate(rhs, Coordinate(c)), c, m, idx);
    TabulateAt(rhs, Coordinate(c), idx);
  }

  /** Exchanging two dimensions with equal coordinates moves nothing. */
  lemma {:induction false} UnmovedElement(t: Tensor, a: nat, b: nat, idx: Index)
    requires a < |t.dims| && b < |t.dims| && t.dims[a] == t.dims[b] && InBox(t.dims, idx) && idx[a] == idx[b]
    ensures At(TransposeOperand(t, a, b), idx) == At(t, idx)
  {
    SwapExchanges(t.dims, a, b);
    SwapExchanges(idx, a, b);
    assert Exchange(t.dims, a, b) == t.dims && Exchange(idx, a, b) == idx;
    TransposeAt(t, SwapPerm(|t.dims|, a, b), idx);
  }

  lemma {:induction false} UnitSwapIsIdentity(t: Tensor, a: nat, b: nat)
    requires Valid(t) && a < |t.dims| && b < |t.dims| && t.dims[a] == t.dims[b] == 1
    ensures TransposeOperand(t, a, b) == t
  {
    assert Exchange(t.dims, a, b) == t.dims;
    forall idx | InBox(t.dims, idx) ensures At(TransposeOperand(t, a, b), idx) == At(t, idx) {
      UnmovedElement(t, a, b, idx);
    }
    Extensional(TransposeOperand(t, a, b), t);
  }

  /** The transpose of dimensions c and m with the contracting dimension renumbered to f keeps every dot
      of these shapes. */
  ghost predicate KeepsMeaning(lhs: Dims, rhs: Dims, dn: DotDims, c: nat, f: nat, m: nat)
    requires ValidDot(lhs, rhs, dn) && c < |rhs| && m < |rhs|
  {
    forall l, r :: Valid(l) && Valid(r) && l.dims == lhs && r.dims == rhs ==> KeepsThis(l, r, dn, c, f, m)
  }

  ghost predicate KeepsThis(l: Tensor, r: Tensor, dn: DotDims, c: nat, f: nat, m: nat)
    requires ValidDot(l.dims, r.dims, dn) && c < |r.dims| && m < |r.dims|
  {
    var dn' := dn.(rhsContracting := [f]);
    ValidDot(l.dims, TransposeOperand(r, c, m).dims, dn') && Dot(l, TransposeOperand(r, c, m), dn') == Dot(l, r, dn)
  }

  lemma {:induction false} WitnessBreaks(lhs: Dims, rhs: Dims, dn: DotDims, c: nat, f: nat, m: nat)
    requires ValidDot(lhs, rhs, dn) && dn.rhsContracting == [c] && MatrixOperand(rhs, dn.rhsBatch, c, f)
    requires m in dn.rhsBatch && m < |rhs| && rhs[m] == rhs[c] == rhs[f] && Positive(lhs) && Positive(rhs) && rhs[c] > 1
    ensures !KeepsThis(Tabulate(lhs, One()), Tabulate(rhs, Coordinate(c)), dn, c, f, m)
  {
    var l, r, dn' := Tabulate(lhs, One()), Tabulate(rhs, Coordinate(c)), dn.(rhsContracting := [f]);
    WitnessBefore(lhs, rhs, dn, c, f);
    var x := Corner(lhs, rhs, dn);
    DotElement(l, r, dn, x);
    if ValidDot(lhs, TransposeOperand(r, c, m).dims, dn') {
      assert Exchange(rhs, c, m) == rhs;
      WitnessAfter(lhs, rhs, dn', c, f, m, TransposeOperand(r, c, m));
      DotElement(l, TransposeOperand(r, c, m), dn', x);
    }
  }

  /** If the minor-most dimension is a batch dimension, which the code does not rule out, the transpose
      keeps the dot exactly when all three dimensions involved have size one. */
  lemma {:induction false} MinorBatchExactly(lhs: Dims, rhs: Dims, dn: DotDims, c: nat, f: nat, m: nat)
    requires ValidDot(lhs, rhs, dn) && dn.rhsContracting == [c] && MatrixOperand(rhs, dn.rhsBatch, c, f)
    requires m in dn.rhsBatch && Positive(lhs) && Positive(rhs)
    ensures m < |rhs|
    ensures KeepsMeaning(lhs, rhs, dn, c, f, m) <==> rhs[m] == rhs[c] == rhs[f] == 1
  {
    var l0, r0 := Tabulate(lhs, One()), Tabulate(rhs, Coordinate(c));
    MinorBatchDimension(l0, r0, dn, c, f, m);
    if rhs[m] == rhs[c] == rhs[f] == 1 {
      forall l, r | Valid(l) && Valid(r) && l.dims == lhs && r.dims == rhs ensures KeepsThis(l, r, dn, c, f, m) {
        UnitSwapIsIdentity(r, c, m);
        UnitSwapIsIdentity(r, c, f);
        RhsTransposePreservesMeaning(l, r, dn, c, f);
      }
    } else {
      if rhs[m] == rhs[c] == rhs[f] {
        WitnessBreaks(lhs, rhs, dn, c, f, m);
      }
      assert !KeepsThis(l0, r0, dn, c, f, m);
    }
  }
}
