/** When the dot that ExpandDotDims puts in place computes what the original one does: exactly when its
    operands meet a test on their dimension numbers and sizes. */
module DotExpandMeaning {
  import opened Ordering
  import opened Shapes
  import opened Tensors
  import opened DotExpandDims
  import opened DotExpandOperand

  function Lift(f: Index): Index {
    if |f| == 1 then f else [0]
  }

  function LiftDims(d: Dims): Dims {
    [Product(d)]
  }

  lemma {:induction false} LiftSingle(d: Dims)
    requires |d| == 1
    ensures LiftDims(d) == d
  {
    SingleProduct(d);
  }

  /** What the pass makes of an operand keeps every size and has a single free dimension. */
  ghost predicate SameSizes(o: Operand, e: Operand) {
    && ValidOperand(o.dims, o.batch, o.contracting) && ValidOperand(e.dims, e.batch, e.contracting)
    && Sizes(e.dims, e.batch) == Sizes(o.dims, o.batch)
    && Sizes(e.dims, e.contracting) == Sizes(o.dims, o.contracting)
    && Sizes(e.dims, FreeDims(|e.dims|, e.batch, e.contracting))
       == LiftDims(Sizes(o.dims, FreeDims(|o.dims|, o.batch, o.contracting)))
    && Product(e.dims) == Product(o.dims)
  }

  // ---------------------------------------------------------------------------------------------
  // One operand

  /** The test that an operand has to meet: with a free size other than one it has a single free dimension;
      with free size one its batch dimensions are placed where the pass takes them to be. */
  ghost predicate SideOk(o: Operand, sizes: Dims, left: bool)
    requires ValidOperand(o.dims, o.batch, o.contracting) && |sizes| == |o.batch|
  {
    if FreeSize(o.dims, o.batch, o.contracting) != 1 then |FreeDims(|o.dims|, o.batch, o.contracting)| == 1
    else |o.contracting| == 1 && Placed(o.dims, o.batch, o.contracting[0], sizes, left)
  }

  ghost predicate Expands(o: Operand, sizes: Dims, left: bool, e: Operand) {
    && ValidOperand(o.dims, o.batch, o.contracting)
    && ExpandOperand(o.dims, o.batch, o.contracting, sizes, left) == Ok(e)
  }

  /** An accepted operand is kept or expanded. */
  lemma {:induction false} Ways(o: Operand, sizes: Dims, left: bool, e: Operand)
    requires Expands(o, sizes, left, e)
    ensures FreeSize(o.dims, o.batch, o.contracting) != 1 ==> e == o
    ensures FreeSize(o.dims, o.batch, o.contracting) == 1 ==>
              && |o.contracting| == 1 && o.contracting == [o.contracting[0]] && o.contracting[0] < |o.dims|
              && Expandable(o.dims, o.batch, o.contracting[0])
              && e == Expanded(o.dims, o.batch, o.contracting[0], sizes, left)
    ensures |e.batch| == |o.batch|
  {
    ExpandOperandIs(o.dims, o.batch, o.contracting, sizes, left);
  }

  /** An accepted operand that meets the test, and what becomes of it. */
  ghost predicate GoodSide(o: Operand, left: bool, e: Operand) {
    && ValidOperand(o.dims, o.batch, o.contracting)
    && Expands(o, Sizes(o.dims, o.batch), left, e) && SideOk(o, Sizes(o.dims, o.batch), left)
  }

  lemma {:induction false} SideSizes(o: Operand, left: bool, e: Operand)
    requires GoodSide(o, left, e)
    ensures SameSizes(o, e)
  {
    var sizes := Sizes(o.dims, o.batch);
    Ways(o, sizes, left, e);
    if FreeSize(o.dims, o.batch, o.contracting) != 1 {
      LiftSingle(Sizes(o.dims, FreeDims(|o.dims|, o.batch, o.contracting)));
    } else {
      ExpandedSizes(o.dims, o.batch, o.contracting[0], sizes, left);
    }
  }

  lemma {:induction false} ExpandedSizes(dims: Dims, batch: seq<nat>, c: nat, sizes: Dims, left: bool)
    requires Expandable(dims, batch, c) && sizes == Sizes(dims, batch) && Placed(dims, batch, c, sizes, left)
    ensures c < |dims| && SameSizes(Operand(dims, batch, [c]), Expanded(dims, batch, c, sizes, left))
  {
    PlacedIsLaidOut(dims, batch, c, sizes, left);
    Layout(dims, batch, c, sizes, left);
    PlacedIsValid(dims, batch, c, sizes, left);
    ExpandedFree(dims, batch, c, sizes, left);
    ExpandedProduct(dims, batch, c, sizes, left);
  }

  lemma {:induction false} ExpandedProduct(dims: Dims, batch: seq<nat>, c: nat, sizes: Dims, left: bool)
    requires |sizes| == |batch| < |dims| && c < |dims|
    requires dims == (if c == |batch| then sizes + [dims[c]] else [dims[c]] + sizes) + Ones(|dims| - |batch| - 1)
    ensures Product(Expanded(dims, batch, c, sizes, left).dims) == Product(dims)
  {
    if c == |batch| {
      UnitAtEitherEnd(sizes, [dims[c]], sizes, [0], |dims| - |batch| - 1, left);
    } else {
      UnitAroundHead([dims[c]], sizes, [0], sizes, |dims| - |batch| - 1, left);
    }
  }

  /** An operand that meets the test is read, after expansion, at the same place in memory. */
  lemma {:induction false} SideReads(o: Operand, left: bool, e: Operand, b: Index, f: Index, k: Index)
    requires GoodSide(o, left, e)
    requires InBox(Sizes(o.dims, o.batch), b) && |k| == |o.contracting|
    requires InBox(Sizes(o.dims, FreeDims(|o.dims|, o.batch, o.contracting)), f)
    ensures |e.batch| == |b| && |e.contracting| == |k| && |FreeDims(|e.dims|, e.batch, e.contracting)| == 1
    ensures Linearize(e.dims, OperandIndex(|e.dims|, e.batch, e.contracting, b, Lift(f), k))
         == Linearize(o.dims, OperandIndex(|o.dims|, o.batch, o.contracting, b, f, k))
  {
    var sizes := Sizes(o.dims, o.batch);
    Ways(o, sizes, left, e);
    if FreeSize(o.dims, o.batch, o.contracting) == 1 {
      var c := o.contracting[0];
      UnitIndex(o.dims, o.batch, o.contracting, f);
      assert Lift(f) == [0] && k == [k[0]];
      ReadsTheSame(o.dims, o.batch, c, sizes, left, b, f, k[0]);
    }
  }

  /** The expanded operand holds, at the lifted index, what the original one holds. */
  lemma {:induction false} SideElement(t: Tensor, o: Operand, left: bool, e: Operand, b: Index, f: Index, k: Index)
    requires t.dims == o.dims && GoodSide(o, left, e)
    requires InBox(Sizes(o.dims, o.batch), b) && |k| == |o.contracting|
    requires InBox(Sizes(o.dims, FreeDims(|o.dims|, o.batch, o.contracting)), f)
    ensures |e.batch| == |b| && |e.contracting| == |k| && |FreeDims(|e.dims|, e.batch, e.contracting)| == 1
    ensures At(Reshape(t, e.dims), OperandIndex(|e.dims|, e.batch, e.contracting, b, Lift(f), k))
         == At(t, OperandIndex(|o.dims|, o.batch, o.contracting, b, f, k))
  {
    SideReads(o, left, e, b, f, k);
  }

  // ---------------------------------------------------------------------------------------------
  // The dot

  function Lhs(lhs: Dims, dn: DotDims): Operand { Operand(lhs, dn.lhsBatch, dn.lhsContracting) }
  function Rhs(rhs: Dims, dn: DotDims): Operand { Operand(rhs, dn.rhsBatch, dn.rhsContracting) }

  /** The batch sizes in the order of the lhs dimensions, which is how the pass collects them. */
  function Collected(lhs: Dims, dn: DotDims): Dims {
    Sizes(lhs, Select(|lhs|, dn.lhsBatch))
  }

  /** The whole test: the batch sizes come in the order of the lhs dimensions, and both sides meet theirs. */
  ghost predicate MeetsTest(lhs: Dims, rhs: Dims, dn: DotDims)
    requires ValidDot(lhs, rhs, dn)
  {
    var sizes := Sizes(lhs, dn.lhsBatch);
    Collected(lhs, dn) == sizes && SideOk(Lhs(lhs, dn), sizes, true) && SideOk(Rhs(rhs, dn), sizes, false)
  }

  ghost predicate Planned(lhs: Dims, rhs: Dims, dn: DotDims, plan: Plan) {
    ValidDot(lhs, rhs, dn) && PlanFor(lhs, rhs, dn) == Ok(plan)
  }

  /** The plan's operands. */
  lemma {:induction false} PlanSides(lhs: Dims, rhs: Dims, dn: DotDims, plan: Plan)
    requires Planned(lhs, rhs, dn, plan)
    ensures Expands(Lhs(lhs, dn), Collected(lhs, dn), true, Lhs(plan.lhs, plan.dn))
    ensures Expands(Rhs(rhs, dn), Collected(lhs, dn), false, Rhs(plan.rhs, plan.dn))
    ensures plan.dotDims == Collected(lhs, dn)
            + [FreeSize(lhs, dn.lhsBatch, dn.lhsContracting), FreeSize(rhs, dn.rhsBatch, dn.rhsContracting)]
  {
  }

  lemma {:induction false} PlanIsWellTyped(lhs: Dims, rhs: Dims, dn: DotDims, plan: Plan)
    requires Planned(lhs, rhs, dn, plan) && MeetsTest(lhs, rhs, dn)
    ensures SameSizes(Lhs(lhs, dn), Lhs(plan.lhs, plan.dn)) && SameSizes(Rhs(rhs, dn), Rhs(plan.rhs, plan.dn))
    ensures ValidDot(plan.lhs, plan.rhs, plan.dn) && OutDims(plan.lhs, plan.rhs, plan.dn) == plan.dotDims
  {
    PlanSides(lhs, rhs, dn, plan);
    SideSizes(Lhs(lhs, dn), true, Lhs(plan.lhs, plan.dn));
    SideSizes(Rhs(rhs, dn), false, Rhs(plan.rhs, plan.dn));
  }

  ghost function LiftCoordinates(c: Coordinates): Coordinates {
    Coordinates(c.batch, Lift(c.lhsFree), Lift(c.rhsFree))
  }

  lemma {:induction false} LiftInBox(d: Dims, f: Index)
    requires InBox(d, f) && (|d| == 1 || Product(d) == 1)
    ensures InBox(LiftDims(d), Lift(f))
  {
    if |d| == 1 {
      LiftSingle(d);
    }
  }

  lemma {:induction false} LiftFits(lhs: Dims, rhs: Dims, dn: DotDims, plan: Plan, c: Coordinates)
    requires Planned(lhs, rhs, dn, plan) && MeetsTest(lhs, rhs, dn) && Fits(lhs, rhs, dn, c)
    ensures Fits(plan.lhs, plan.rhs, plan.dn, LiftCoordinates(c))
  {
    PlanIsWellTyped(lhs, rhs, dn, plan);
    LiftInBox(Sizes(lhs, FreeDims(|lhs|, dn.lhsBatch, dn.lhsContracting)), c.lhsFree);
    LiftInBox(Sizes(rhs, FreeDims(|rhs|, dn.rhsBatch, dn.rhsContracting)), c.rhsFree);
  }

  lemma {:induction false} SameDotElement(l: Tensor, r: Tensor, dn: DotDims, plan: Plan, c: Coordinates)
    requires Planned(l.dims, r.dims, dn, plan) && MeetsTest(l.dims, r.dims, dn)
    requires Fits(l.dims, r.dims, dn, c) && Fits(plan.lhs, plan.rhs, plan.dn, LiftCoordinates(c))
    ensures DotAt(Reshape(l, plan.lhs), Reshape(r, plan.rhs), plan.dn, LiftCoordinates(c)) == DotAt(l, r, dn, c)
  {
    PlanIsWellTyped(l.dims, r.dims, dn, plan);
    var l', r', c' := Reshape(l, plan.lhs), Reshape(r, plan.rhs), LiftCoordinates(c);
    var ks := Sizes(l.dims, dn.lhsContracting);
    forall n | 0 <= n < Product(ks) ensures Term(l', r', plan.dn, c', n) == Term(l, r, dn, c, n) {
      SameTerm(l, r, dn, plan, c, n);
    }
    assert Terms(l', r', plan.dn, c') == Terms(l, r, dn, c);
  }

  lemma {:induction false} SameTerm(l: Tensor, r: Tensor, dn: DotDims, plan: Plan, c: Coordinates, n: nat)
    requires Planned(l.dims, r.dims, dn, plan) && MeetsTest(l.dims, r.dims, dn)
    requires Fits(l.dims, r.dims, dn, c) && Fits(plan.lhs, plan.rhs, plan.dn, LiftCoordinates(c))
    requires Sizes(plan.lhs, plan.dn.lhsContracting) == Sizes(l.dims, dn.lhsContracting)
    requires n < Product(Sizes(l.dims, dn.lhsContracting))
    ensures Term(Reshape(l, plan.lhs), Reshape(r, plan.rhs), plan.dn, LiftCoordinates(c), n) == Term(l, r, dn, c, n)
  {
    PlanSides(l.dims, r.dims, dn, plan);
    var k := Delinearize(Sizes(l.dims, dn.lhsContracting), n);
    assert |Sizes(l.dims, dn.lhsContracting)| == |Sizes(r.dims, dn.rhsContracting)|;
    SideElement(l, Lhs(l.dims, dn), true, Lhs(plan.lhs, plan.dn), c.batch, c.lhsFree, k);
    SideElement(r, Rhs(r.dims, dn), false, Rhs(plan.rhs, plan.dn), c.batch, c.rhsFree, k);
  }

  // ---------------------------------------------------------------------------------------------
  // The result

  lemma {:induction false} LiftInside(b: Dims, x: Dims, y: Dims, i: Index, j: Index, k: Index)
    requires |b| == |i| && |x| == |j| && |y| == |k| && InBox(x, j) && (|x| == 1 || Product(x) == 1)
    ensures Linearize(b + LiftDims(x) + y, i + Lift(j) + k) == Linearize(b + x + y, i + j + k)
    ensures Product(b + LiftDims(x) + y) == Product(b + x + y)
  {
    if |x| == 1 {
      LiftSingle(x);
      assert Lift(j) == j;
    } else {
      ProductOne(x);
      assert x == Ones(|x|) && j == Zeros(|x|) && LiftDims(x) == Ones(1) && Lift(j) == Zeros(1);
      UnitsInside(b, y, i, k, |x|);
      UnitsInside(b, y, i, k, 1);
    }
  }

  /** The result of the new dot sits in memory where the result of the old one does. */
  lemma {:induction false} SameResultPosition(b: Dims, x: Dims, y: Dims, i: Index, j: Index, k: Index)
    requires |b| == |i| && InBox(x, j) && InBox(y, k) && (|x| == 1 || Product(x) == 1) && (|y| == 1 || Product(y) == 1)
    ensures Linearize(b + LiftDims(x) + LiftDims(y), i + Lift(j) + Lift(k)) == Linearize(b + x + y, i + j + k)
    ensures Product(b + LiftDims(x) + LiftDims(y)) == Product(b + x + y)
  {
    LiftInside(b, x, LiftDims(y), i, j, Lift(k));
    LiftInside(b + x, y, [], i + j, k, []);
    assert b + x + LiftDims(y) + [] == b + x + LiftDims(y) && i + j + Lift(k) + [] == i + j + Lift(k);
    assert b + x + y + [] == b + x + y && i + j + k + [] == i + j + k;
  }

  lemma {:induction false} LiftedCount(b: Dims, x: Dims, y: Dims)
    ensures Product(b + LiftDims(x) + LiftDims(y)) == Product(b + x + y)
  {
    LiftedProduct(b + LiftDims(x), y);
    LiftedProduct(b, x);
    ProductJoin(b + LiftDims(x), y);
    ProductJoin(b + x, y);
  }

  lemma {:induction false} LiftedProduct(b: Dims, x: Dims)
    ensures Product(b + LiftDims(x)) == Product(b + x)
  {
    ProductJoin(b, LiftDims(x));
    ProductJoin(b, x);
    assert LiftDims(x)[1..] == [];
  }

  lemma {:induction false} OutPositionAt(lhs: Dims, rhs: Dims, dn: DotDims, plan: Plan, c: Coordinates)
    requires Planned(lhs, rhs, dn, plan) && MeetsTest(lhs, rhs, dn) && Fits(lhs, rhs, dn, c)
    ensures var c' := LiftCoordinates(c);
            var o, o' := c.batch + c.lhsFree + c.rhsFree, c'.batch + c'.lhsFree + c'.rhsFree;
            |o| == |OutDims(lhs, rhs, dn)| && |o'| == |plan.dotDims| &&
            Linearize(plan.dotDims, o') == Linearize(OutDims(lhs, rhs, dn), o)
  {
    PlanSides(lhs, rhs, dn, plan);
    SamePosition(Sizes(lhs, dn.lhsBatch),
                 Sizes(lhs, FreeDims(|lhs|, dn.lhsBatch, dn.lhsContracting)),
                 Sizes(rhs, FreeDims(|rhs|, dn.rhsBatch, dn.rhsContracting)),
                 c, plan.dotDims);
  }

  lemma {:induction false} SamePosition(b: Dims, x: Dims, y: Dims, c: Coordinates, dims: Dims)
    requires InBox(b, c.batch) && InBox(x, c.lhsFree) && InBox(y, c.rhsFree)
    requires (|x| == 1 || Product(x) == 1) && (|y| == 1 || Product(y) == 1) && dims == b + [Product(x), Product(y)]
    ensures var c' := LiftCoordinates(c);
            var o, o' := c.batch + c.lhsFree + c.rhsFree, c'.batch + c'.lhsFree + c'.rhsFree;
            |o| == |b + x + y| && |o'| == |dims| && Linearize(dims, o') == Linearize(b + x + y, o)
  {
    assert dims == b + LiftDims(x) + LiftDims(y);
    SameResultPosition(b, x, y, c.batch, c.lhsFree, c.rhsFree);
  }

  /** Reshaping the operands, taking the new dot and reshaping the result gives the original dot. */
  ghost predicate SameDot(l: Tensor, r: Tensor, dn: DotDims, plan: Plan)
    requires ValidDot(l.dims, r.dims, dn) && ValidDot(plan.lhs, plan.rhs, plan.dn)
  {
    Reshape(Dot(Reshape(l, plan.lhs), Reshape(r, plan.rhs), plan.dn), OutDims(l.dims, r.dims, dn)) == Dot(l, r, dn)
  }

  lemma {:induction false} SameDotHolds(l: Tensor, r: Tensor, dn: DotDims, plan: Plan)
    requires Planned(l.dims, r.dims, dn, plan) && MeetsTest(l.dims, r.dims, dn)
    requires ValidDot(plan.lhs, plan.rhs, plan.dn) && OutDims(plan.lhs, plan.rhs, plan.dn) == plan.dotDims
    requires Product(plan.dotDims) == Product(OutDims(l.dims, r.dims, dn))
    ensures SameDot(l, r, dn, plan)
  {
    var out := OutDims(l.dims, r.dims, dn);
    var t, u := Reshape(Dot(Reshape(l, plan.lhs), Reshape(r, plan.rhs), plan.dn), out), Dot(l, r, dn);
    forall o | InBox(out, o) ensures At(t, o) == At(u, o) {
      SameElement(l, r, dn, plan, o);
    }
    Extensional(t, u);
  }

  lemma {:induction false} SameElement(l: Tensor, r: Tensor, dn: DotDims, plan: Plan, o: Index)
    requires Planned(l.dims, r.dims, dn, plan) && MeetsTest(l.dims, r.dims, dn)
    requires ValidDot(plan.lhs, plan.rhs, plan.dn) && OutDims(plan.lhs, plan.rhs, plan.dn) == plan.dotDims
    requires InBox(OutDims(l.dims, r.dims, dn), o)
    ensures At(Reshape(Dot(Reshape(l, plan.lhs), Reshape(r, plan.rhs), plan.dn), OutDims(l.dims, r.dims, dn)), o)
         == At(Dot(l, r, dn), o)
  {
    var c := Split(l.dims, r.dims, dn, o);
    var c' := LiftCoordinates(c);
    LiftFits(l.dims, r.dims, dn, plan, c);
    SameDotElement(l, r, dn, plan, c);
    DotElement(l, r, dn, c);
    DotElement(Reshape(l, plan.lhs), Reshape(r, plan.rhs), plan.dn, c');
    OutPositionAt(l.dims, r.dims, dn, plan, c);
  }

  // ---------------------------------------------------------------------------------------------
  // Exactness

  /** The plan is a well-typed dot of the announced shape, its reshapes keep the number of elements, and
      for all operands of these shapes it computes the original dot. */
  ghost predicate Preserves(lhs: Dims, rhs: Dims, dn: DotDims, plan: Plan)
    requires ValidDot(lhs, rhs, dn)
  {
    && ValidDot(plan.lhs, plan.rhs, plan.dn) && OutDims(plan.lhs, plan.rhs, plan.dn) == plan.dotDims
    && Product(plan.lhs) == Product(lhs) && Product(plan.rhs) == Product(rhs)
    && Product(plan.dotDims) == Product(OutDims(lhs, rhs, dn))
    && forall l: Tensor, r: Tensor :: l.dims == lhs && r.dims == rhs && Valid(l) && Valid(r) ==> SameDot(l, r, dn, plan)
  }

  lemma {:induction false} TestIsEnough(lhs: Dims, rhs: Dims, dn: DotDims, plan: Plan)
    requires Planned(lhs, rhs, dn, plan) && MeetsTest(lhs, rhs, dn)
    ensures Preserves(lhs, rhs, dn, plan)
  {
    PlanIsWellTyped(lhs, rhs, dn, plan);
    PlanSides(lhs, rhs, dn, plan);
    LiftedCount(Sizes(lhs, dn.lhsBatch),
                Sizes(lhs, FreeDims(|lhs|, dn.lhsBatch, dn.lhsContracting)),
                Sizes(rhs, FreeDims(|rhs|, dn.rhsBatch, dn.rhsContracting)));
    forall l: Tensor, r: Tensor | l.dims == lhs && r.dims == rhs && Valid(l) && Valid(r)
      ensures SameDot(l, r, dn, plan)
    {
      SameDotHolds(l, r, dn, plan);
    }
  }

  lemma {:induction false} SelectCount(rank: nat, ds: seq<nat>)
    requires Distinct(ds) && forall i :: 0 <= i < |ds| ==> ds[i] < rank
    ensures |Select(rank, ds)| == |ds|
  {
    var s := Select(rank, ds);
    DistinctCount(s);
    DistinctCount(ds);
    assert Elements(s) == Elements(ds);
  }

  /** The shape announced tells the batch sizes and the number of free dimensions of the new dot. */
  lemma {:induction false} ShapeTells(a: Dims, x: Dims, y: Dims, b: Dims, p: nat, q: nat)
    requires |a| == |b| && a + x + y == b + [p, q]
    ensures a == b && |x| + |y| == 2
  {
    assert a == (a + x + y)[..|a|] && b == (b + [p, q])[..|b|];
  }

  /** An accepted operand that is well formed has a free dimension; an expanded one has exactly one. */
  lemma {:induction false} SomeFree(o: Operand, sizes: Dims, left: bool, e: Operand)
    requires Expands(o, sizes, left, e) && ValidOperand(e.dims, e.batch, e.contracting) && |sizes| == |o.batch|
    ensures |FreeDims(|e.dims|, e.batch, e.contracting)| >= 1
  {
    Ways(o, sizes, left, e);
    if FreeSize(o.dims, o.batch, o.contracting) == 1 {
      RankCount(e.dims, e.batch, e.contracting);
    }
  }

  lemma {:induction false} SelectIsRange(rank: nat, batch: seq<nat>, lo: nat)
    requires Distinct(batch) && lo + |batch| <= rank && forall i :: 0 <= i < |batch| ==> lo <= batch[i] < lo + |batch|
    ensures Select(rank, batch) == seq(|batch|, i requires 0 <= i < |batch| => lo + i)
  {
    var s := Select(rank, batch);
    SelectCount(rank, batch);
    forall i | 0 <= i < |s| ensures lo <= s[i] < lo + |s| {
      assert s[i] in s;
      var j :| 0 <= j < |batch| && batch[j] == s[i];
    }
    AscendingIsRange(s, lo);
  }

  /** A lhs that is well formed after expansion has its batch dimensions first, or right after the
      contracting one. */
  lemma {:induction false} LhsLeads(dims: Dims, batch: seq<nat>, c: nat, sizes: Dims, i: nat)
    requires c < |dims| && (c == |batch| || c == 0) && |sizes| == |batch| && i < |batch| && batch[i] != c
    requires var e := Expanded(dims, batch, c, sizes, true); e.batch[i] < |e.dims| && e.batch[i] !in e.contracting
    ensures var lo := if c == |batch| then 0 else 1;
            lo <= batch[i] < lo + |batch| && Expanded(dims, batch, c, sizes, true).dims[
              Expanded(dims, batch, c, sizes, true).batch[i]] == sizes[batch[i] - lo]
  {
    var e := Expanded(dims, batch, c, sizes, true);
    assert e.batch[i] == if c == |batch| then batch[i] else batch[i] + 1;
  }

  /** It has the batch sizes it had. */
  lemma {:induction false} LhsKeepsSizes(dims: Dims, batch: seq<nat>, c: nat, sizes: Dims)
    requires ValidOperand(dims, batch, [c]) && c < |dims| && (c == |batch| || c == 0) && |batch| < |dims|
    requires sizes == Sizes(dims, Select(|dims|, batch)) && |sizes| == |batch|
    requires var e := Expanded(dims, batch, c, sizes, true); ValidOperand(e.dims, e.batch, e.contracting)
    ensures var e := Expanded(dims, batch, c, sizes, true); Sizes(e.dims, e.batch) == Sizes(dims, batch)
  {
    var n, e := |batch|, Expanded(dims, batch, c, sizes, true);
    var lo := if c == n then 0 else 1;
    forall i | 0 <= i < n ensures lo <= batch[i] < lo + n && e.dims[e.batch[i]] == sizes[batch[i] - lo] {
      assert batch[i] !in [c] && e.batch[i] < |e.dims| && e.batch[i] !in e.contracting;
      LhsLeads(dims, batch, c, sizes, i);
    }
    SelectIsRange(|dims|, batch, lo);
    forall i | 0 <= i < n ensures e.dims[e.batch[i]] == dims[batch[i]] {
      assert Select(|dims|, batch)[batch[i] - lo] == batch[i];
    }
  }

  lemma {:induction false} LhsNeeded(o: Operand, sizes: Dims, e: Operand)
    requires Expands(o, sizes, true, e) && ValidOperand(e.dims, e.batch, e.contracting)
    requires sizes == Sizes(o.dims, Select(|o.dims|, o.batch)) && |sizes| == |o.batch|
    requires Sizes(e.dims, e.batch) == sizes && |FreeDims(|e.dims|, e.batch, e.contracting)| == 1
    ensures sizes == Sizes(o.dims, o.batch) && SideOk(o, sizes, true)
  {
    Ways(o, sizes, true, e);
    if FreeSize(o.dims, o.batch, o.contracting) == 1 {
      var c := o.contracting[0];
      Basics(o.dims, o.batch, c);
      LhsKeepsSizes(o.dims, o.batch, c, sizes);
      PlacedExactly(o.dims, o.batch, c, sizes, true);
    }
  }

  lemma {:induction false} RhsNeeded(o: Operand, sizes: Dims, e: Operand)
    requires Expands(o, sizes, false, e) && ValidOperand(e.dims, e.batch, e.contracting)
    requires sizes == Sizes(o.dims, o.batch) && Sizes(e.dims, e.batch) == sizes
    requires |FreeDims(|e.dims|, e.batch, e.contracting)| == 1
    ensures SideOk(o, sizes, false)
  {
    Ways(o, sizes, false, e);
    if FreeSize(o.dims, o.batch, o.contracting) == 1 {
      PlacedExactly(o.dims, o.batch, o.contracting[0], sizes, false);
    }
  }

  lemma {:induction false} TestIsNeeded(lhs: Dims, rhs: Dims, dn: DotDims, plan: Plan)
    requires Planned(lhs, rhs, dn, plan)
    requires ValidDot(plan.lhs, plan.rhs, plan.dn) && OutDims(plan.lhs, plan.rhs, plan.dn) == plan.dotDims
    ensures MeetsTest(lhs, rhs, dn)
  {
    PlanSides(lhs, rhs, dn, plan);
    var lo, le, ro, re := Lhs(lhs, dn), Lhs(plan.lhs, plan.dn), Rhs(rhs, dn), Rhs(plan.rhs, plan.dn);
    var sizes := Collected(lhs, dn);
    SelectCount(|lhs|, dn.lhsBatch);
    Ways(lo, sizes, true, le);
    assert |Sizes(lhs, dn.lhsBatch)| == |Sizes(rhs, dn.rhsBatch)|;
    ShapeTells(Sizes(plan.lhs, plan.dn.lhsBatch),
               Sizes(plan.lhs, FreeDims(|plan.lhs|, plan.dn.lhsBatch, plan.dn.lhsContracting)),
               Sizes(plan.rhs, FreeDims(|plan.rhs|, plan.dn.rhsBatch, plan.dn.rhsContracting)),
               sizes, FreeSize(lhs, dn.lhsBatch, dn.lhsContracting), FreeSize(rhs, dn.rhsBatch, dn.rhsContracting));
    SomeFree(lo, sizes, true, le);
    SomeFree(ro, sizes, false, re);
    LhsNeeded(lo, sizes, le);
    RhsNeeded(ro, sizes, re);
  }

  /** ExpandDotDims, exactly: for every dot that the pass accepts, of any rank and with any batch and
      contracting dimensions, what it puts in place is well typed and computes the original dot for all
      operands if and only if the dot meets the test. */
  lemma {:induction false} ExpandDotDimsExactly(lhs: Dims, rhs: Dims, dn: DotDims, plan: Plan)
    requires Planned(lhs, rhs, dn, plan)
    ensures Preserves(lhs, rhs, dn, plan) <==> MeetsTest(lhs, rhs, dn)
  {
    if MeetsTest(lhs, rhs, dn) {
      TestIsEnough(lhs, rhs, dn, plan);
    } else if Preserves(lhs, rhs, dn, plan) {
      TestIsNeeded(lhs, rhs, dn, plan);
    }
  }

  // ---------------------------------------------------------------------------------------------
  // Canonical dots, and dots that go wrong

  /** One contracting dimension, ascending batch dimensions, at most one free dimension and no explicit one of
      size one. */
  ghost predicate Canonical(o: Operand) {
    && ValidOperand(o.dims, o.batch, o.contracting) && |o.contracting| == 1 && Ascending(o.batch)
    && var free := FreeDims(|o.dims|, o.batch, o.contracting);
       |free| <= 1 && (|free| == 1 ==> o.dims[free[0]] != 1)
  }

  lemma {:induction false} CanonicalMeetsTest(o: Operand, left: bool, e: Operand)
    requires Canonical(o) && Expands(o, Sizes(o.dims, o.batch), left, e)
    ensures SideOk(o, Sizes(o.dims, o.batch), left)
  {
    var sizes, free := Sizes(o.dims, o.batch), FreeDims(|o.dims|, o.batch, o.contracting);
    Ways(o, sizes, left, e);
    if |free| == 1 {
      SingleSize(o.dims, free);
    } else {
      RankCount(o.dims, o.batch, o.contracting);
      Basics(o.dims, o.batch, o.contracting[0]);
      AscendingIsPlaced(o.dims, o.batch, o.contracting[0], sizes, left);
    }
  }

  lemma {:induction false} AscendingIsPlaced(dims: Dims, batch: seq<nat>, c: nat, sizes: Dims, left: bool)
    requires |dims| == |batch| + 1 && |sizes| == |batch| && (c == |batch| || c == 0) && c !in batch && Ascending(batch)
    requires forall i :: 0 <= i < |batch| ==> batch[i] < |dims| && sizes[i] == dims[batch[i]]
    ensures Placed(dims, batch, c, sizes, left)
  {
    var lo := if c == |batch| then 0 else 1;
    forall i | 0 <= i < |batch| ensures lo <= batch[i] < lo + |batch| {
      assert batch[i] in batch;
    }
    AscendingIsRange(batch, lo);
  }

  lemma {:induction false} SelectAscending(rank: nat, ds: seq<nat>)
    requires Ascending(ds) && forall i :: 0 <= i < |ds| ==> ds[i] < rank
    ensures Select(rank, ds) == ds
  {
    AscendingUnique(Select(rank, ds), ds);
  }

  /** ExpandDotDims preserves the meaning of every canonical dot it accepts. */
  lemma {:induction false} ExpandDotDimsPreservesMeaning(lhs: Dims, rhs: Dims, dn: DotDims, plan: Plan)
    requires Planned(lhs, rhs, dn, plan) && Canonical(Lhs(lhs, dn)) && Canonical(Rhs(rhs, dn))
    ensures Preserves(lhs, rhs, dn, plan)
  {
    PlanSides(lhs, rhs, dn, plan);
    SelectAscending(|lhs|, dn.lhsBatch);
    CanonicalMeetsTest(Lhs(lhs, dn), true, Lhs(plan.lhs, plan.dn));
    CanonicalMeetsTest(Rhs(rhs, dn), false, Rhs(plan.rhs, plan.dn));
    TestIsEnough(lhs, rhs, dn, plan);
  }

  lemma {:induction false} OneFree(dims: Dims, batch: seq<nat>, contracting: seq<nat>, f: nat)
    requires f < |dims| && forall d: nat :: d < |dims| ==> (d == f <==> d !in batch && d !in contracting)
    ensures FreeDims(|dims|, batch, contracting) == [f] && FreeSize(dims, batch, contracting) == dims[f]
  {
    AscendingSingleton(FreeDims(|dims|, batch, contracting), f);
    SingleSize(dims, [f]);
  }

  /** The pass accepts an operand with a free size other than one, or with a single contracting dimension that
      comes first or right after the batch dimensions. */
  predicate Acceptable(o: Operand) {
    FreeSize(o.dims, o.batch, o.contracting) != 1 ||
    (|o.contracting| == 1 && (o.contracting[0] == |o.batch| || o.contracting[0] == 0))
  }

  lemma {:induction false} AcceptedWhen(lhs: Dims, rhs: Dims, dn: DotDims)
    requires ValidDot(lhs, rhs, dn) && Acceptable(Lhs(lhs, dn)) && Acceptable(Rhs(rhs, dn))
    ensures PlanFor(lhs, rhs, dn).Ok?
  {
  }

  /** An explicit unit dimension in front of the lhs: (1, k, b) times (b, k, n), batch dimensions 2 and 0.
      The pass accepts it and does not keep it. */
  lemma {:induction false} LeadingUnitDimensionBreaks(lhs: Dims, rhs: Dims, dn: DotDims, b: nat, k: nat, n: nat)
    requires n != 1 && lhs == [1, k, b] && rhs == [b, k, n] && dn == DotDims([2], [0], [1], [1])
    ensures ValidDot(lhs, rhs, dn) && PlanFor(lhs, rhs, dn).Ok?
    ensures !Preserves(lhs, rhs, dn, PlanFor(lhs, rhs, dn).value)
  {
    assert ValidDot(lhs, rhs, dn);
    OneFree(lhs, dn.lhsBatch, dn.lhsContracting, 0);
    OneFree(rhs, dn.rhsBatch, dn.rhsContracting, 2);
    AcceptedWhen(lhs, rhs, dn);
    FailingLhsBreaks(lhs, rhs, dn);
  }

  lemma {:induction false} FailingLhsBreaks(lhs: Dims, rhs: Dims, dn: DotDims)
    requires ValidDot(lhs, rhs, dn) && PlanFor(lhs, rhs, dn).Ok?
    requires var free := |FreeDims(|lhs|, dn.lhsBatch, dn.lhsContracting)|;
             if FreeSize(lhs, dn.lhsBatch, dn.lhsContracting) != 1 then free != 1
             else |dn.lhsContracting| == 1 && dn.lhsContracting[0] == |dn.lhsBatch| == 1 && dn.lhsBatch[0] != 0
    ensures !Preserves(lhs, rhs, dn, PlanFor(lhs, rhs, dn).value)
  {
    ExpandDotDimsExactly(lhs, rhs, dn, PlanFor(lhs, rhs, dn).value);
    var sizes := Sizes(lhs, dn.lhsBatch);
    if FreeSize(lhs, dn.lhsBatch, dn.lhsContracting) == 1 {
      assert !PlacedAt(lhs, dn.lhsBatch, dn.lhsContracting[0], sizes, true, 0);
    }
  }

  /** Two free dimensions: (x, y, k) times (k, n), such as (2, 3, 4) times (4, 5).  The pass accepts it and
      announces a result of rank two for a dot of rank three. */
  lemma {:induction false} TwoFreeDimensionsBreak(lhs: Dims, rhs: Dims, dn: DotDims, x: nat, y: nat, k: nat, n: nat)
    requires x * y != 1 && n != 1 && lhs == [x, y, k] && rhs == [k, n] && dn == DotDims([], [], [2], [0])
    ensures ValidDot(lhs, rhs, dn) && PlanFor(lhs, rhs, dn).Ok?
    ensures !Preserves(lhs, rhs, dn, PlanFor(lhs, rhs, dn).value)
  {
    assert ValidDot(lhs, rhs, dn);
    OneFree(rhs, dn.rhsBatch, dn.rhsContracting, 1);
    TwoFree(lhs, dn.lhsBatch, dn.lhsContracting, x, y, k);
    AcceptedWhen(lhs, rhs, dn);
    FailingLhsBreaks(lhs, rhs, dn);
  }

  lemma {:induction false} TwoFree(dims: Dims, batch: seq<nat>, contracting: seq<nat>, x: nat, y: nat, k: nat)
    requires dims == [x, y, k] && batch == [] && contracting == [2]
    ensures |FreeDims(|dims|, batch, contracting)| == 2 && FreeSize(dims, batch, contracting) == x * y
  {
    var free := FreeDims(|dims|, batch, contracting);
    AscendingUnique(free, [0, 1]);
    var d := Sizes(dims, free);
    assert d == [x, y];
    SingleProduct(d[1..]);
    assert Product(d) == x * Product(d[1..]);
  }

  /** Batch dimensions out of order: (a, b, m, k) times (a, b, k, n) with batch dimensions 1 and 0.  The pass
      accepts it, and announces the batch sizes the other way round unless they are equal. */
  lemma {:induction false} UnsortedBatchBreaks(
      lhs: Dims, rhs: Dims, dn: DotDims, a: nat, b: nat, m: nat, k: nat, n: nat)
    requires m != 1 && n != 1 && lhs == [a, b, m, k] && rhs == [a, b, k, n] && dn == DotDims([1, 0], [1, 0], [3], [2])
    ensures ValidDot(lhs, rhs, dn) && PlanFor(lhs, rhs, dn).Ok?
    ensures Preserves(lhs, rhs, dn, PlanFor(lhs, rhs, dn).value) <==> a == b
  {
    UnsortedIsDot(lhs, rhs, dn, a, b, m, k, n);
    UnsortedFree(lhs, dn.lhsBatch, dn.lhsContracting, 3, 2);
    UnsortedFree(rhs, dn.rhsBatch, dn.rhsContracting, 2, 3);
    CollectedInOrder(lhs, dn, a, b, m, k);
    KeptExactly(lhs, rhs, dn);
  }

  lemma {:induction false} UnsortedFree(dims: Dims, batch: seq<nat>, contracting: seq<nat>, c: nat, f: nat)
    requires |dims| == 4 && batch == [1, 0] && contracting == [c] && ((c == 3 && f == 2) || (c == 2 && f == 3))
    ensures |FreeDims(|dims|, batch, contracting)| == 1 && FreeSize(dims, batch, contracting) == dims[f]
  {
    OneFree(dims, batch, contracting, f);
  }

  lemma {:induction false} CollectedInOrder(lhs: Dims, dn: DotDims, a: nat, b: nat, m: nat, k: nat)
    requires lhs == [a, b, m, k] && dn.lhsBatch == [1, 0]
    ensures Collected(lhs, dn) == [a, b]
  {
    AscendingUnique(Select(|lhs|, dn.lhsBatch), [0, 1]);
  }

  /** Two operands that are kept as they are, each with a single free dimension. */
  lemma {:induction false} KeptExactly(lhs: Dims, rhs: Dims, dn: DotDims)
    requires ValidDot(lhs, rhs, dn)
    requires FreeSize(lhs, dn.lhsBatch, dn.lhsContracting) != 1 && FreeSize(rhs, dn.rhsBatch, dn.rhsContracting) != 1
    requires |FreeDims(|lhs|, dn.lhsBatch, dn.lhsContracting)| == |FreeDims(|rhs|, dn.rhsBatch, dn.rhsContracting)| == 1
    ensures PlanFor(lhs, rhs, dn).Ok?
    ensures Preserves(lhs, rhs, dn, PlanFor(lhs, rhs, dn).value) <==> Collected(lhs, dn) == Sizes(lhs, dn.lhsBatch)
  {
    AcceptedWhen(lhs, rhs, dn);
    ExpandDotDimsExactly(lhs, rhs, dn, PlanFor(lhs, rhs, dn).value);
    assert |Sizes(lhs, dn.lhsBatch)| == |Sizes(rhs, dn.rhsBatch)|;
  }

  lemma {:induction false} UnsortedIsDot(lhs: Dims, rhs: Dims, dn: DotDims, a: nat, b: nat, m: nat, k: nat, n: nat)
    requires lhs == [a, b, m, k] && rhs == [a, b, k, n] && dn == DotDims([1, 0], [1, 0], [3], [2])
    ensures ValidDot(lhs, rhs, dn) && Sizes(lhs, dn.lhsBatch) == [b, a]
  {
    assert Sizes(lhs, dn.lhsBatch) == [b, a] && Sizes(rhs, dn.rhsBatch) == [b, a];
    assert Sizes(lhs, dn.lhsContracting) == [k] && Sizes(rhs, dn.rhsContracting) == [k];
  }

  /** A plain row vector times a matrix, (1, k) times (k, n), is refused. */
  lemma {:induction false} RowVectorIsRefused(lhs: Dims, rhs: Dims, dn: DotDims, k: nat, n: nat)
    requires lhs == [1, k] && rhs == [k, n] && dn == DotDims([], [], [1], [0])
    ensures ValidDot(lhs, rhs, dn) && PlanFor(lhs, rhs, dn).Internal?
  {
    assert ValidDot(lhs, rhs, dn);
    OneFree(lhs, dn.lhsBatch, dn.lhsContracting, 0);
    RefusedWhen(lhs, rhs, dn);
  }

  lemma {:induction false} RefusedWhen(lhs: Dims, rhs: Dims, dn: DotDims)
    requires ValidDot(lhs, rhs, dn) && |dn.lhsContracting| == 1 && !Acceptable(Lhs(lhs, dn))
    ensures PlanFor(lhs, rhs, dn).Internal?
  {
  }
}
