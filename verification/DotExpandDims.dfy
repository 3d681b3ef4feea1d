/** ExpandDotDims: give every dot operand an explicit non-contracting dimension by reshaping, and
    reshape the result back. */
module DotExpandDims {
  import opened Ordering
  import opened Shapes
  import opened Tensors

  /** Internal: the "Unsupported Dot dims" status.  CheckFailed: a CHECK that aborts the process. */
  datatype Outcome<+T> = Ok(value: T) | Internal | CheckFailed

  datatype Operand = Operand(dims: Dims, batch: seq<nat>, contracting: seq<nat>)

  datatype Plan = Plan(lhs: Dims, rhs: Dims, dn: DotDims, dotDims: Dims)

  /** The dimensions below rank that are listed in ds, ascending. */
  function Select(rank: nat, ds: seq<nat>): (s: seq<nat>)
    ensures forall d: nat :: d in s <==> d < rank && d in ds
    ensures Ascending(s) && forall i :: 0 <= i < |s| ==> s[i] < rank
  {
    if rank == 0 then []
    else if rank - 1 in ds then Select(rank - 1, ds) + [rank - 1] else Select(rank - 1, ds)
  }

  function FreeSize(dims: Dims, batch: seq<nat>, contracting: seq<nat>): nat {
    Product(Sizes(dims, FreeDims(|dims|, batch, contracting)))
  }

  function AddOne(ds: seq<nat>): seq<nat> {
    seq(|ds|, i requires 0 <= i < |ds| => ds[i] + 1)
  }

  /** What happens to one operand.  The unit dimension goes before the contracting one on the left
      and after it on the right. */
  function ExpandOperand(dims: Dims, batch: seq<nat>, contracting: seq<nat>, batchSizes: Dims,
      left: bool): Outcome<Operand>
    requires ValidOperand(dims, batch, contracting)
  {
    if FreeSize(dims, batch, contracting) != 1 then Ok(Operand(dims, batch, contracting))
    else if |contracting| != 1 then CheckFailed
    else
      var c := contracting[0];
      var size := Product(Sizes(dims, Select(|dims|, contracting)));
      var matrix := if left then [1, size] else [size, 1];
      if c == |batch| then Ok(Operand(batchSizes + matrix, batch, [if left then c + 1 else c]))
      else if c == 0 then Ok(Operand(matrix + batchSizes, AddOne(batch), [if left then 1 else 0]))
      else Internal
  }

  function PlanFor(lhs: Dims, rhs: Dims, dn: DotDims): Outcome<Plan>
    requires ValidDot(lhs, rhs, dn)
  {
    var batchSizes := Sizes(lhs, Select(|lhs|, dn.lhsBatch));
    match ExpandOperand(lhs, dn.lhsBatch, dn.lhsContracting, batchSizes, true)
    case Internal => Internal
    case CheckFailed => CheckFailed
    case Ok(l) =>
      match ExpandOperand(rhs, dn.rhsBatch, dn.rhsContracting, batchSizes, false)
      case Internal => Internal
      case CheckFailed => CheckFailed
      case Ok(r) =>
        Ok(Plan(l.dims, r.dims, DotDims(l.batch, r.batch, l.contracting, r.contracting),
                batchSizes + [FreeSize(lhs, dn.lhsBatch, dn.lhsContracting),
                    FreeSize(rhs, dn.rhsBatch, dn.rhsContracting)]))
  }

  // ---------------------------------------------------------------------------------------------
  // The loops

  lemma {:induction false} ProductAppend(xs: Dims, x: nat)
    ensures Product(xs + [x]) == Product(xs) * x
  {
    if xs == [] {
      assert [x][1..] == [];
      assert xs + [x] == [x];
    } else {
      ProductAppend(xs[1..], x);
      assert (xs + [x])[1..] == xs[1..] + [x];
      assert xs[0] * (Product(xs[1..]) * x) == (xs[0] * Product(xs[1..])) * x;
    }
  }

  lemma {:induction false} OneMoreDimension(dims: Dims, batch: seq<nat>, contracting: seq<nat>, i: nat)
    requires ValidOperand(dims, batch, contracting) && i < |dims|
    ensures Sizes(dims, Select(i + 1, batch)) == Sizes(dims, Select(i, batch)) + (if i in batch then [dims[i]] else [])
    ensures Product(Sizes(dims, Select(i + 1, contracting)))
         == Product(Sizes(dims, Select(i, contracting))) * (if i in contracting then dims[i] else 1)
    ensures Product(Sizes(dims, FreeDims(i + 1, batch, contracting)))
         == Product(Sizes(dims, FreeDims(i, batch, contracting)))
            * (if i in contracting || i in batch then 1 else dims[i])
  {
    OneMoreSelected(dims, batch, i);
    OneMoreSelected(dims, contracting, i);
    OneMoreFree(dims, batch, contracting, i);
  }

  lemma {:induction false} OneMoreSelected(dims: Dims, ds: seq<nat>, i: nat)
    requires i < |dims|
    ensures Sizes(dims, Select(i + 1, ds)) == Sizes(dims, Select(i, ds)) + (if i in ds then [dims[i]] else [])
    ensures Product(Sizes(dims, Select(i + 1, ds))) == Product(Sizes(dims,
              Select(i, ds))) * (if i in ds then dims[i] else 1)
  {
    if i in ds {
      ProductAppend(Sizes(dims, Select(i, ds)), dims[i]);
    }
  }

  lemma {:induction false} OneMoreFree(dims: Dims, batch: seq<nat>, contracting: seq<nat>, i: nat)
    requires i < |dims|
    ensures Product(Sizes(dims, FreeDims(i + 1, batch, contracting)))
         == Product(Sizes(dims, FreeDims(i, batch, contracting)))
            * (if i in contracting || i in batch then 1 else dims[i])
  {
    if i !in contracting && i !in batch {
      ProductAppend(Sizes(dims, FreeDims(i, batch, contracting)), dims[i]);
      assert Sizes(dims, FreeDims(i + 1, batch, contracting)) ==
          Sizes(dims, FreeDims(i, batch, contracting)) + [dims[i]];
    }
  }

  /** The size loop over one operand's dimensions. */
  method CollectSizes(dims: Dims, batch: seq<nat>, contracting: seq<nat>)
    returns (batchSizes: Dims, contractingSize: nat, freeSize: nat)
    requires ValidOperand(dims, batch, contracting)
    ensures batchSizes == Sizes(dims, Select(|dims|, batch))
    ensures contractingSize == Product(Sizes(dims, Select(|dims|, contracting)))
    ensures freeSize == FreeSize(dims, batch, contracting)
  {
    batchSizes, contractingSize, freeSize := [], 1, 1;
    assert forall d: nat :: d in batch ==> d !in contracting;
    for i := 0 to |dims|
      invariant batchSizes == Sizes(dims, Select(i, batch))
      invariant contractingSize == Product(Sizes(dims, Select(i, contracting)))
      invariant freeSize == Product(Sizes(dims, FreeDims(i, batch, contracting)))
    {
      OneMoreDimension(dims, batch, contracting, i);
      if i in contracting {
        contractingSize := contractingSize * dims[i];
      } else if i in batch {
        batchSizes := batchSizes + [dims[i]];
      } else {
        freeSize := freeSize * dims[i];
      }
    }
  }

  method ExpandLhs(dims: Dims, batch: seq<nat>, contracting: seq<nat>, batchSizes: Dims, contractingSize: nat,
      freeSize: nat)
    returns (r: Outcome<Operand>)
    requires ValidOperand(dims, batch, contracting)
    requires contractingSize == Product(Sizes(dims, Select(|dims|, contracting)))
    requires freeSize == FreeSize(dims, batch, contracting)
    ensures r == ExpandOperand(dims, batch, contracting, batchSizes, true)
  {
    if freeSize != 1 {
      return Ok(Operand(dims, batch, contracting));
    }
    if |contracting| != 1 {
      return CheckFailed;
    }
    var c := contracting[0];
    if c == |batch| {
      return Ok(Operand(batchSizes + [freeSize, contractingSize], batch, [c + 1]));
    } else if c == 0 {
      var shifted := Increment(batch);
      return Ok(Operand([freeSize, contractingSize] + batchSizes, shifted, [1]));
    }
    return Internal;
  }

  method ExpandRhs(dims: Dims, batch: seq<nat>, contracting: seq<nat>, batchSizes: Dims, contractingSize: nat,
      freeSize: nat)
    returns (r: Outcome<Operand>)
    requires ValidOperand(dims, batch, contracting)
    requires contractingSize == Product(Sizes(dims, Select(|dims|, contracting)))
    requires freeSize == FreeSize(dims, batch, contracting)
    ensures r == ExpandOperand(dims, batch, contracting, batchSizes, false)
  {
    if freeSize != 1 {
      return Ok(Operand(dims, batch, contracting));
    }
    if |contracting| != 1 {
      return CheckFailed;
    }
    var c := contracting[0];
    if c == |batch| {
      return Ok(Operand(batchSizes + [contractingSize, freeSize], batch, [c]));
    } else if c == 0 {
      var shifted := Increment(batch);
      return Ok(Operand([contractingSize, freeSize] + batchSizes, shifted, [0]));
    }
    return Internal;
  }

  method ExpandDotDims(lhs: Dims, rhs: Dims, dn: DotDims) returns (plan: Outcome<Plan>)
    requires ValidDot(lhs, rhs, dn)
    ensures plan == PlanFor(lhs, rhs, dn)
  {
    var batchSizes, lhsContracting, lhsFree := CollectSizes(lhs, dn.lhsBatch, dn.lhsContracting);
    var l := ExpandLhs(lhs, dn.lhsBatch, dn.lhsContracting, batchSizes, lhsContracting, lhsFree);
    if l.Internal? { return Internal; }
    if l.CheckFailed? { return CheckFailed; }
    var _, rhsContracting, rhsFree := CollectSizes(rhs, dn.rhsBatch, dn.rhsContracting);
    var r := ExpandRhs(rhs, dn.rhsBatch, dn.rhsContracting, batchSizes, rhsContracting, rhsFree);
    if r.Internal? { return Internal; }
    if r.CheckFailed? { return CheckFailed; }
    plan := Ok(Plan(l.value.dims, r.value.dims,
                    DotDims(l.value.batch, r.value.batch, l.value.contracting, r.value.contracting),
                    batchSizes + [lhsFree, rhsFree]));
  }

  method Increment(ds: seq<nat>) returns (r: seq<nat>)
    ensures r == AddOne(ds)
  {
    r := ds;
    for i := 0 to |ds|
      invariant |r| == |ds|
      invariant forall j :: 0 <= j < |ds| ==> r[j] == if j < i then ds[j] + 1 else ds[j]
    {
      r := r[i := r[i] + 1];
    }
  }
}
