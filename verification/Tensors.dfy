/** Dense tensors and the HLO operations the rewrites use, after the DotGeneral, Reshape and
    Transpose entries of the XLA Operation Semantics.  Elements are integers. */
module Tensors {
  import opened Ordering
  import opened Shapes

  /** Elements in row-major order. */
  datatype Tensor = Tensor(dims: Dims, data: seq<int>)

  ghost predicate Valid(t: Tensor) {
    |t.data| == Product(t.dims)
  }

  /** The element at an index; indices outside the box read as zero. */
  function At(t: Tensor, idx: Index): int
    requires |idx| == |t.dims|
  {
    var n := Linearize(t.dims, idx);
    if n < |t.data| then t.data[n] else 0
  }

  /** Reshape keeps the row-major order. */
  function Reshape(t: Tensor, dims: Dims): Tensor {
    Tensor(dims, t.data)
  }

  ghost function PositionIn(ds: seq<nat>, d: nat): (p: nat)
    requires d in ds
    ensures p < |ds| && ds[p] == d
  {
    var p :| 0 <= p < |ds| && ds[p] == d;
    p
  }

  lemma {:induction false} PositionInDistinct(ds: seq<nat>, p: nat)
    requires p < |ds| && Distinct(ds)
    ensures PositionIn(ds, ds[p]) == p
  {
  }

  /** The index into the operand of a transpose for an index into its result. */
  ghost function Unpermute(perm: seq<nat>, o: Index): (i: Index)
    requires |o| == |perm| && forall d :: 0 <= d < |perm| ==> d in perm
  {
    seq(|perm|, d requires 0 <= d < |perm| => o[PositionIn(perm, d)])
  }

  function Permute(dims: Dims, perm: seq<nat>): Dims
    requires |perm| == |dims| && forall i :: 0 <= i < |perm| ==> perm[i] < |dims|
  {
    seq(|perm|, i requires 0 <= i < |perm| => dims[perm[i]])
  }

  ghost predicate IsPermutation(perm: seq<nat>) {
    && Distinct(perm)
    && (forall i :: 0 <= i < |perm| ==> perm[i] < |perm|)
    && (forall d :: 0 <= d < |perm| ==> d in perm)
  }

  ghost function Transpose(t: Tensor, perm: seq<nat>): (u: Tensor)
    requires IsPermutation(perm) && |perm| == |t.dims|
    ensures Valid(u) && u.dims == Permute(t.dims, perm)
  {
    var dims := Permute(t.dims, perm);
    Tensor(dims, seq(Product(dims), n requires 0 <= n < Product(dims) =>
                   At(t, Unpermute(perm, Delinearize(dims, n)))))
  }

  lemma {:induction false} TransposeAt(t: Tensor, perm: seq<nat>, o: Index)
    requires IsPermutation(perm) && |perm| == |t.dims| && InBox(Permute(t.dims, perm), o)
    ensures At(Transpose(t, perm), o) == At(t, Unpermute(perm, o))
  {
    IndexRoundTrip(Permute(t.dims, perm), o);
  }

  // ---------------------------------------------------------------------------------------------
  // DotGeneral

  datatype DotDims = DotDims(lhsBatch: seq<nat>, rhsBatch: seq<nat>, lhsContracting: seq<nat>, rhsContracting: seq<nat>)

  /** The dimensions that are neither batch nor contracting, ascending. */
  function FreeDims(rank: nat, batch: seq<nat>, contracting: seq<nat>): (ds: seq<nat>)
    ensures forall d: nat :: d in ds <==> d < rank && d !in batch && d !in contracting
    ensures Ascending(ds) && forall i :: 0 <= i < |ds| ==> ds[i] < rank
  {
    if rank == 0 then []
    else
      var ds := FreeDims(rank - 1, batch, contracting);
      if rank - 1 in batch || rank - 1 in contracting then ds else ds + [rank - 1]
  }

  function Sizes(dims: Dims, ds: seq<nat>): (s: Dims)
    requires forall i :: 0 <= i < |ds| ==> ds[i] < |dims|
    ensures |s| == |ds|
  {
    seq(|ds|, i requires 0 <= i < |ds| => dims[ds[i]])
  }

  ghost predicate ValidOperand(dims: Dims, batch: seq<nat>, contracting: seq<nat>) {
    && (forall i :: 0 <= i < |batch| ==> batch[i] < |dims| && batch[i] !in contracting)
    && (forall i :: 0 <= i < |contracting| ==> contracting[i] < |dims|)
    && Distinct(batch) && Distinct(contracting)
  }

  ghost predicate ValidDot(lhs: Dims, rhs: Dims, dn: DotDims) {
    && ValidOperand(lhs, dn.lhsBatch, dn.lhsContracting)
    && ValidOperand(rhs, dn.rhsBatch, dn.rhsContracting)
    && Sizes(lhs, dn.lhsBatch) == Sizes(rhs, dn.rhsBatch)
    && Sizes(lhs, dn.lhsContracting) == Sizes(rhs, dn.rhsContracting)
  }

  function OutDims(lhs: Dims, rhs: Dims, dn: DotDims): Dims
    requires ValidDot(lhs, rhs, dn)
  {
    Sizes(lhs, dn.lhsBatch)
    + Sizes(lhs, FreeDims(|lhs|, dn.lhsBatch, dn.lhsContracting))
    + Sizes(rhs, FreeDims(|rhs|, dn.rhsBatch, dn.rhsContracting))
  }

  lemma {:induction false} SingleSize(dims: Dims, ds: seq<nat>)
    requires |ds| == 1 && ds[0] < |dims|
    ensures Sizes(dims, ds) == [dims[ds[0]]] && Product(Sizes(dims, ds)) == dims[ds[0]]
  {
    SingleProduct(Sizes(dims, ds));
  }

  /** The operand index with batch coordinates b, contracting coordinates k, free coordinates f. */
  ghost function OperandIndex(rank: nat, batch: seq<nat>, contracting: seq<nat>, b: Index, f: Index,
      k: Index): (idx: Index)
    requires |b| == |batch| && |k| == |contracting| && |f| == |FreeDims(rank, batch, contracting)|
    ensures |idx| == rank
  {
    var free := FreeDims(rank, batch, contracting);
    seq(rank, d requires 0 <= d < rank =>
      if d in batch then b[PositionIn(batch, d)]
      else if d in contracting then k[PositionIn(contracting, d)]
      else f[PositionIn(free, d)])
  }

  /** The coordinates of one element of the result: batch, lhs free, rhs free. */
  datatype Coordinates = Coordinates(batch: Index, lhsFree: Index, rhsFree: Index)

  ghost predicate Fits(lhs: Dims, rhs: Dims, dn: DotDims, c: Coordinates) {
    && ValidDot(lhs, rhs, dn)
    && InBox(Sizes(lhs, dn.lhsBatch), c.batch)
    && InBox(Sizes(lhs, FreeDims(|lhs|, dn.lhsBatch, dn.lhsContracting)), c.lhsFree)
    && InBox(Sizes(rhs, FreeDims(|rhs|, dn.rhsBatch, dn.rhsContracting)), c.rhsFree)
  }

  /** The nth product summed for one element of the result. */
  ghost function Term(l: Tensor, r: Tensor, dn: DotDims, c: Coordinates, n: nat): int
    requires Fits(l.dims, r.dims, dn, c) && n < Product(Sizes(l.dims, dn.lhsContracting))
  {
    var k := Delinearize(Sizes(l.dims, dn.lhsContracting), n);
    At(l, OperandIndex(|l.dims|, dn.lhsBatch, dn.lhsContracting, c.batch, c.lhsFree, k)) *
    At(r, OperandIndex(|r.dims|, dn.rhsBatch, dn.rhsContracting, c.batch, c.rhsFree, k))
  }

  ghost function Terms(l: Tensor, r: Tensor, dn: DotDims, c: Coordinates): (ts: seq<int>)
    requires Fits(l.dims, r.dims, dn, c)
    ensures |ts| == Product(Sizes(l.dims, dn.lhsContracting))
  {
    var count := Product(Sizes(l.dims, dn.lhsContracting));
    seq(count, n requires 0 <= n < count => Term(l, r, dn, c, n))
  }

  function Sum(xs: seq<int>): int {
    if xs == [] then 0 else Sum(xs[..|xs| - 1]) + xs[|xs| - 1]
  }

  ghost function DotAt(l: Tensor, r: Tensor, dn: DotDims, c: Coordinates): int
    requires Fits(l.dims, r.dims, dn, c)
  {
    Sum(Terms(l, r, dn, c))
  }

  function Split(lhs: Dims, rhs: Dims, dn: DotDims, o: Index): (c: Coordinates)
    requires ValidDot(lhs, rhs, dn) && InBox(OutDims(lhs, rhs, dn), o)
    ensures Fits(lhs, rhs, dn, c)
    ensures o == c.batch + c.lhsFree + c.rhsFree
  {
    var b := Sizes(lhs, dn.lhsBatch);
    var lf := Sizes(lhs, FreeDims(|lhs|, dn.lhsBatch, dn.lhsContracting));
    var rf := Sizes(rhs, FreeDims(|rhs|, dn.rhsBatch, dn.rhsContracting));
    var c := Coordinates(o[..|b|], o[|b|..|b| + |lf|], o[|b| + |lf|..]);
    assert o == c.batch + c.lhsFree + c.rhsFree;
    InBoxParts(b, lf, rf, c.batch, c.lhsFree, c.rhsFree);
    c
  }

  ghost function Dot(l: Tensor, r: Tensor, dn: DotDims): (t: Tensor)
    requires ValidDot(l.dims, r.dims, dn)
    ensures Valid(t) && t.dims == OutDims(l.dims, r.dims, dn)
  {
    var dims := OutDims(l.dims, r.dims, dn);
    Tensor(dims, seq(Product(dims), n requires 0 <= n < Product(dims) =>
                   DotAt(l, r, dn, Split(l.dims, r.dims, dn, Delinearize(dims, n)))))
  }

  lemma {:induction false} SplitUnique(lhs: Dims, rhs: Dims, dn: DotDims, c: Coordinates)
    requires Fits(lhs, rhs, dn, c)
    ensures InBox(OutDims(lhs, rhs, dn), c.batch + c.lhsFree + c.rhsFree)
    ensures Split(lhs, rhs, dn, c.batch + c.lhsFree + c.rhsFree) == c
  {
    InBoxParts(Sizes(lhs, dn.lhsBatch),
               Sizes(lhs, FreeDims(|lhs|, dn.lhsBatch, dn.lhsContracting)),
               Sizes(rhs, FreeDims(|rhs|, dn.rhsBatch, dn.rhsContracting)), c.batch, c.lhsFree, c.rhsFree);
    var o := c.batch + c.lhsFree + c.rhsFree;
    assert o[..|c.batch|] == c.batch;
    assert o[|c.batch|..|c.batch| + |c.lhsFree|] == c.lhsFree;
    assert o[|c.batch| + |c.lhsFree|..] == c.rhsFree;
  }

  lemma {:induction false} DotElement(l: Tensor, r: Tensor, dn: DotDims, c: Coordinates)
    requires Fits(l.dims, r.dims, dn, c)
    ensures At(Dot(l, r, dn), c.batch + c.lhsFree + c.rhsFree) == DotAt(l, r, dn, c)
  {
    SplitUnique(l.dims, r.dims, dn, c);
    IndexRoundTrip(OutDims(l.dims, r.dims, dn), c.batch + c.lhsFree + c.rhsFree);
  }

  /** Tensors with the same dimensions and the same elements are equal. */
  lemma {:induction false} Extensional(t: Tensor, u: Tensor)
    requires Valid(t) && Valid(u) && t.dims == u.dims
    requires forall idx :: InBox(t.dims, idx) ==> At(t, idx) == At(u, idx)
    ensures t == u
  {
    forall n | 0 <= n < |t.data| ensures t.data[n] == u.data[n] {
      var idx := Delinearize(t.dims, n);
      PositionRoundTrip(t.dims, n);
      assert At(t, idx) == At(u, idx);
    }
    assert t.data == u.data;
  }

  /** Dots whose operands have the same batch and free sizes are equal if they agree at all
      coordinates. */
  lemma {:induction false} DotsAgree(l: Tensor, r: Tensor, dn: DotDims, l': Tensor, r': Tensor, dn': DotDims)
    requires ValidDot(l.dims, r.dims, dn) && ValidDot(l'.dims, r'.dims, dn')
    requires OutDims(l'.dims, r'.dims, dn') == OutDims(l.dims, r.dims, dn)
    requires forall c :: Fits(l.dims, r.dims, dn, c) ==>
               Fits(l'.dims, r'.dims, dn', c) && DotAt(l', r', dn', c) == DotAt(l, r, dn, c)
    ensures Dot(l', r', dn') == Dot(l, r, dn)
  {
    var t, u := Dot(l, r, dn), Dot(l', r', dn');
    forall o | InBox(t.dims, o) ensures At(t, o) == At(u, o) {
      var c := Split(l.dims, r.dims, dn, o);
      DotElement(l, r, dn, c);
      DotElement(l', r', dn', c);
    }
    Extensional(t, u);
  }
}
