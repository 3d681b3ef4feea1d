/** What ExpandDotDims makes of one operand whose free size is one: when it is well formed with the right
    sizes, and that it then reads the same memory. */
module DotExpandOperand {
  import opened Ordering
  import opened Shapes
  import opened Tensors
  import opened DotExpandDims

  /** An operand with free size one, whose contracting dimension comes first or after the batch dimensions,
      as the pass expands it; sizes are the batch sizes it uses. */
  function Expanded(dims: Dims, batch: seq<nat>, c: nat, sizes: Dims, left: bool): Operand
    requires c < |dims|
  {
    var matrix := if left then [1, dims[c]] else [dims[c], 1];
    if c == |batch| then Operand(sizes + matrix, batch, [if left then c + 1 else c])
    else Operand(matrix + sizes, AddOne(batch), [if left then 1 else 0])
  }

  lemma {:induction false} ExpandOperandIs(dims: Dims, batch: seq<nat>, contracting: seq<nat>, sizes: Dims, left: bool)
    requires ValidOperand(dims, batch, contracting)
    ensures |contracting| == 1 ==> contracting[0] < |dims|
    ensures ExpandOperand(dims, batch, contracting, sizes, left) ==
            if FreeSize(dims, batch, contracting) != 1 then Ok(Operand(dims, batch, contracting))
            else if |contracting| != 1 then CheckFailed
            else if contracting[0] == |batch| || contracting[0] == 0
            then Ok(Expanded(dims, batch, contracting[0], sizes, left))
            else Internal
  {
    if |contracting| == 1 {
      AscendingSingleton(Select(|dims|, contracting), contracting[0]);
      SingleSize(dims, Select(|dims|, contracting));
    }
  }

  /** The test on dimension numbers and sizes: the batch dimensions are where the pass takes them to be, in
      places of the right sizes.  If the contracting dimension comes after them, a rhs may also have a batch
      dimension of size one right after that. */
  predicate Placed(dims: Dims, batch: seq<nat>, c: nat, sizes: Dims, left: bool)
    requires |sizes| == |batch| && forall i :: 0 <= i < |batch| ==> batch[i] < |dims|
  {
    forall i :: 0 <= i < |batch| ==> PlacedAt(dims, batch, c, sizes, left, i)
  }

  predicate PlacedAt(dims: Dims, batch: seq<nat>, c: nat, sizes: Dims, left: bool, i: nat)
    requires |sizes| == |batch| && i < |batch| && batch[i] < |dims|
  {
    var n, p := |batch|, batch[i];
    if c == n then (p < n && sizes[p] == dims[p]) || (!left && p == n + 1 && dims[p] == 1)
    else 1 <= p <= n && sizes[p - 1] == dims[p]
  }

  /** An operand that the pass expands. */
  ghost predicate Expandable(dims: Dims, batch: seq<nat>, c: nat) {
    ValidOperand(dims, batch, [c]) && FreeSize(dims, batch, [c]) == 1 && (c == |batch| || c == 0)
  }

  lemma {:induction false} Basics(dims: Dims, batch: seq<nat>, c: nat)
    requires Expandable(dims, batch, c)
    ensures c < |dims| && c !in batch && |batch| < |dims|
  {
    assert [c][0] < |dims|;
    forall i | 0 <= i < |batch| ensures batch[i] != c {
      assert batch[i] !in [c];
    }
    RankCount(dims, batch, [c]);
  }

  /** Batch, contracting and free dimensions are all the dimensions. */
  lemma {:induction false} RankCount(dims: Dims, batch: seq<nat>, contracting: seq<nat>)
    requires ValidOperand(dims, batch, contracting)
    ensures |dims| == |batch| + |contracting| + |FreeDims(|dims|, batch, contracting)|
  {
    var free := FreeDims(|dims|, batch, contracting);
    DistinctCount(batch);
    DistinctCount(contracting);
    DistinctCount(free);
    assert Elements(batch) !! Elements(contracting) !! Elements(free);
    assert Elements(batch) + Elements(contracting) + Elements(free) == Below(|dims|);
  }

  /** A free size of one means that all free dimensions have size one. */
  lemma {:induction false} UnitFree(dims: Dims, batch: seq<nat>, contracting: seq<nat>)
    requires FreeSize(dims, batch, contracting) == 1
    ensures forall d: nat :: d < |dims| && d !in batch && d !in contracting ==> dims[d] == 1
  {
    var free := FreeDims(|dims|, batch, contracting);
    ProductOne(Sizes(dims, free));
    forall d: nat | d in free ensures dims[d] == 1 {
      var i :| 0 <= i < |free| && free[i] == d;
      assert Sizes(dims, free)[i] == 1;
    }
  }

  // ---------------------------------------------------------------------------------------------
  // Well formed with the right sizes, exactly when placed

  lemma {:induction false} PlacedExactly(dims: Dims, batch: seq<nat>, c: nat, sizes: Dims, left: bool)
    requires ValidOperand(dims, batch, [c]) && (c == |batch| || c == 0) && sizes == Sizes(dims, batch) && c < |dims|
    ensures var e := Expanded(dims, batch, c, sizes, left);
            (ValidOperand(e.dims, e.batch, e.contracting) && Sizes(e.dims, e.batch) == sizes)
            <==> Placed(dims, batch, c, sizes, left)
  {
    var e := Expanded(dims, batch, c, sizes, left);
    if Placed(dims, batch, c, sizes, left) {
      PlacedIsValid(dims, batch, c, sizes, left);
    }
    if ValidOperand(e.dims, e.batch, e.contracting) && Sizes(e.dims, e.batch) == sizes {
      forall i | 0 <= i < |batch| ensures PlacedAt(dims, batch, c, sizes, left, i) {
        assert batch[i] !in [c] && e.batch[i] < |e.dims| && e.batch[i] !in e.contracting;
        assert Sizes(e.dims, e.batch)[i] == sizes[i] == dims[batch[i]];
        FitsAt(dims, batch, c, sizes, left, i);
      }
    }
  }

  /** One batch dimension: it is in range, not contracted and of the right size exactly when placed. */
  lemma {:induction false} FitsAt(dims: Dims, batch: seq<nat>, c: nat, sizes: Dims, left: bool, i: nat)
    requires i < |batch| == |sizes| && (c == |batch| || c == 0) && c < |dims| && batch[i] < |dims| && batch[i] != c
    requires sizes[i] == dims[batch[i]]
    ensures var e := Expanded(dims, batch, c, sizes, left);
            (e.batch[i] < |e.dims| && e.batch[i] !in e.contracting && e.dims[e.batch[i]] == sizes[i])
            <==> PlacedAt(dims, batch, c, sizes, left, i)
  {
    var e := Expanded(dims, batch, c, sizes, left);
    if c == |batch| {
      assert e.batch[i] == batch[i];
    } else {
      assert e.batch[i] == batch[i] + 1;
    }
  }

  lemma {:induction false} PlacedIsValid(dims: Dims, batch: seq<nat>, c: nat, sizes: Dims, left: bool)
    requires ValidOperand(dims, batch, [c]) && (c == |batch| || c == 0) && sizes == Sizes(dims, batch) && c < |dims|
    requires Placed(dims, batch, c, sizes, left)
    ensures var e := Expanded(dims, batch, c, sizes, left);
            && ValidOperand(e.dims, e.batch, e.contracting) && Sizes(e.dims, e.batch) == sizes
            && Sizes(e.dims, e.contracting) == Sizes(dims, [c])
  {
    var e := Expanded(dims, batch, c, sizes, left);
    forall i | 0 <= i < |batch|
      ensures e.batch[i] < |e.dims| && e.batch[i] !in e.contracting && e.dims[e.batch[i]] == sizes[i]
    {
      assert batch[i] !in [c] && PlacedAt(dims, batch, c, sizes, left, i);
      FitsAt(dims, batch, c, sizes, left, i);
    }
    assert Sizes(e.dims, e.batch) == sizes;
    SingleSize(dims, [c]);
    SingleSize(e.dims, e.contracting);
  }

  // ---------------------------------------------------------------------------------------------
  // The layout of a placed operand

  /** Numbers below n, each sent to another one or out of range: values that go along cannot sit in a hole. */
  lemma {:induction false} HoleIsUnit(batch: seq<nat>, sizes: Dims, j: nat)
    requires |sizes| == |batch| && Distinct(batch) && j < |batch| && j !in batch
    requires forall i :: 0 <= i < |batch| ==> if batch[i] < |batch| then sizes[batch[i]] == sizes[i] else sizes[i] == 1
    ensures sizes[j] == 1
  {
    if sizes[j] != 1 {
      var same := set i: nat | i < |batch| && sizes[i] == sizes[j];
      var image := Image(batch, same);
      ImageCount(batch, same);
      assert image <= same - {j};
      SubsetCount(image, same - {j});
    }
  }

  ghost function Image(batch: seq<nat>, xs: set<nat>): set<nat>
    requires forall i :: i in xs ==> i < |batch|
  {
    set i | i in xs :: batch[i]
  }

  lemma {:induction false} ImageCount(batch: seq<nat>, xs: set<nat>)
    requires Distinct(batch) && forall i :: i in xs ==> i < |batch|
    ensures |Image(batch, xs)| == |xs|
  {
    if |xs| == 0 {
      assert Image(batch, xs) == {};
    } else {
      var x :| x in xs;
      ImageCount(batch, xs - {x});
      assert Image(batch, xs) == Image(batch, xs - {x}) + {batch[x]};
      assert batch[x] !in Image(batch, xs - {x});
    }
  }

  /** Where everything is in a placed operand. */
  ghost predicate LaidOut(dims: Dims, batch: seq<nat>, c: nat, sizes: Dims, left: bool) {
    && |sizes| == |batch| < |dims| && (c == |batch| || c == 0) && c < |dims| && Distinct(batch)
    && (forall i :: 0 <= i < |batch| ==> batch[i] < |dims| && batch[i] != c && sizes[i] == dims[batch[i]])
    && Placed(dims, batch, c, sizes, left)
    && (forall p :: 0 <= p < |dims| && p != c ==> LaidOutAt(dims, batch, c, sizes, p))
  }

  predicate LaidOutAt(dims: Dims, batch: seq<nat>, c: nat, sizes: Dims, p: nat)
    requires p < |dims| && |sizes| == |batch|
  {
    && (p > |batch| ==> dims[p] == 1)
    && (c == |batch| && p < |batch| ==> dims[p] == sizes[p] && (p !in batch ==> dims[p] == 1))
    && (c != |batch| && 1 <= p <= |batch| ==> dims[p] == sizes[p - 1] && p in batch)
  }

  lemma {:induction false} PlacedIsLaidOut(dims: Dims, batch: seq<nat>, c: nat, sizes: Dims, left: bool)
    requires Expandable(dims, batch, c) && sizes == Sizes(dims, batch) && Placed(dims, batch, c, sizes, left)
    ensures LaidOut(dims, batch, c, sizes, left)
  {
    Basics(dims, batch, c);
    UnitFree(dims, batch, [c]);
    forall i | 0 <= i < |batch| ensures batch[i] != c && sizes[i] == dims[batch[i]] {
      assert batch[i] in batch;
    }
    forall p | 0 <= p < |dims| && p != c ensures LaidOutAt(dims, batch, c, sizes, p) {
      PlaceOf(dims, batch, c, sizes, left, p);
    }
  }

  lemma {:induction false} PlaceOf(dims: Dims, batch: seq<nat>, c: nat, sizes: Dims, left: bool, p: nat)
    requires |sizes| == |batch| < |dims| && (c == |batch| || c == 0) && p < |dims| && p != c && Distinct(batch)
    requires forall i :: 0 <= i < |batch| ==> batch[i] < |dims| && batch[i] != c && sizes[i] == dims[batch[i]]
    requires Placed(dims, batch, c, sizes, left) && (p !in batch ==> dims[p] == 1)
    ensures LaidOutAt(dims, batch, c, sizes, p)
  {
    if p in batch {
      var i :| 0 <= i < |batch| && batch[i] == p;
      assert PlacedAt(dims, batch, c, sizes, left, i);
    } else if c == |batch| && p < |batch| {
      forall i | 0 <= i < |batch|
        ensures if batch[i] < |batch| then sizes[batch[i]] == sizes[i] else sizes[i] == 1
      {
        assert PlacedAt(dims, batch, c, sizes, left, i);
      }
      HoleIsUnit(batch, sizes, p);
    } else if c != |batch| && 1 <= p <= |batch| {
      forall i | 0 <= i < |batch| ensures 1 <= batch[i] <= |batch| {
        assert PlacedAt(dims, batch, c, sizes, left, i);
      }
      LowerCovers(batch, p);
    }
  }

  lemma {:induction false} LowerCovers(batch: seq<nat>, p: nat)
    requires Distinct(batch) && 1 <= p <= |batch| && forall i :: 0 <= i < |batch| ==> 1 <= batch[i] <= |batch|
    ensures p in batch
  {
    var lower: seq<nat> := seq(|batch|, i requires 0 <= i < |batch| => batch[i] - 1);
    assert forall i :: 0 <= i < |batch| ==> lower[i] == batch[i] - 1;
    DistinctCovers(lower, |batch|);
    assert p - 1 in lower;
    var i :| 0 <= i < |lower| && lower[i] == p - 1;
    assert batch[i] == p;
  }

  /** A placed operand is, up to trailing unit dimensions, batch then contracting or contracting then batch. */
  lemma {:induction false} Layout(dims: Dims, batch: seq<nat>, c: nat, sizes: Dims, left: bool)
    requires LaidOut(dims, batch, c, sizes, left)
    ensures dims == (if c == |batch| then sizes + [dims[c]] else [dims[c]] + sizes) + Ones(|dims| - |batch| - 1)
  {
    var shape := (if c == |batch| then sizes + [dims[c]] else [dims[c]] + sizes) + Ones(|dims| - |batch| - 1);
    forall p | 0 <= p < |dims| ensures dims[p] == shape[p] {
      assert p != c ==> LaidOutAt(dims, batch, c, sizes, p);
    }
  }

  // ---------------------------------------------------------------------------------------------
  // The free dimension of the expanded operand

  lemma {:induction false} ExpandedFree(dims: Dims, batch: seq<nat>, c: nat, sizes: Dims, left: bool)
    requires Expandable(dims, batch, c) && sizes == Sizes(dims, batch) && Placed(dims, batch, c, sizes, left)
    ensures c < |dims|
    ensures var e := Expanded(dims, batch, c, sizes, left);
            var free := FreeDims(|e.dims|, e.batch, e.contracting);
            |free| == 1 && Sizes(e.dims, free) == [1]
  {
    PlacedIsLaidOut(dims, batch, c, sizes, left);
    var e := Expanded(dims, batch, c, sizes, left);
    PlacedIsValid(dims, batch, c, sizes, left);
    RankCount(e.dims, e.batch, e.contracting);
    var free := FreeDims(|e.dims|, e.batch, e.contracting);
    assert free[0] in free;
    FreeIsUnit(dims, batch, c, sizes, left, free[0]);
    SingleSize(e.dims, free);
  }

  lemma {:induction false} FreeIsUnit(dims: Dims, batch: seq<nat>, c: nat, sizes: Dims, left: bool, p: nat)
    requires LaidOut(dims, batch, c, sizes, left)
    requires var e := Expanded(dims, batch, c, sizes, left);
             p < |e.dims| && p !in e.contracting && p !in e.batch
    ensures Expanded(dims, batch, c, sizes, left).dims[p] == 1
  {
    if c == |batch| {
      if p < |batch| {
        assert LaidOutAt(dims, batch, c, sizes, p);
      }
    } else if p >= 2 {
      assert LaidOutAt(dims, batch, c, sizes, p - 1);
      AddOneIn(batch, p - 1);
    }
  }

  lemma {:induction false} AddOneIn(ds: seq<nat>, d: nat)
    requires d in ds && Distinct(ds)
    ensures d + 1 in AddOne(ds) && PositionIn(AddOne(ds), d + 1) == PositionIn(ds, d)
  {
    var i := PositionIn(ds, d);
    assert AddOne(ds)[i] == d + 1;
    PositionInDistinct(AddOne(ds), i);
  }

  // ---------------------------------------------------------------------------------------------
  // Reading

  ghost predicate AllZero(f: Index) {
    forall i :: 0 <= i < |f| ==> f[i] == 0
  }

  lemma {:induction false} UnitIndex(dims: Dims, batch: seq<nat>, contracting: seq<nat>, f: Index)
    requires FreeSize(dims, batch, contracting) == 1 && InBox(Sizes(dims, FreeDims(|dims|, batch, contracting)), f)
    ensures AllZero(f)
  {
    ProductOne(Sizes(dims, FreeDims(|dims|, batch, contracting)));
  }

  /** An operand index with free coordinates zero. */
  ghost function RowIndex(rank: nat, batch: seq<nat>, c: nat, b: Index, k: nat): (idx: Index)
    requires |b| == |batch|
    ensures |idx| == rank
  {
    seq(rank, d requires 0 <= d < rank => if d in batch then b[PositionIn(batch, d)] else if d == c then k else 0)
  }

  lemma {:induction false} OperandIndexIs(rank: nat, batch: seq<nat>, c: nat, b: Index, f: Index, k: nat)
    requires |b| == |batch| && |f| == |FreeDims(rank, batch, [c])| && AllZero(f)
    ensures OperandIndex(rank, batch, [c], b, f, [k]) == RowIndex(rank, batch, c, b, k)
  {
    var i, j := OperandIndex(rank, batch, [c], b, f, [k]), RowIndex(rank, batch, c, b, k);
    forall d | 0 <= d < rank ensures i[d] == j[d] {
      assert d in [c] <==> d == c;
    }
  }

  /** A coordinate of a batch dimension of size one is zero. */
  lemma {:induction false} UnitCoordinate(dims: Dims, batch: seq<nat>, sizes: Dims, b: Index, p: nat)
    requires |sizes| == |batch| && InBox(sizes, b) && p in batch && p < |dims| && dims[p] == 1
    requires forall i :: 0 <= i < |batch| ==> batch[i] < |dims| && sizes[i] == dims[batch[i]]
    ensures b[PositionIn(batch, p)] == 0
  {
    var q := PositionIn(batch, p);
    assert b[q] < sizes[q];
  }

  /** Beyond the contracting and batch dimensions the original index is zero. */
  lemma {:induction false} OriginalTail(dims: Dims, batch: seq<nat>, c: nat, sizes: Dims, left: bool, b: Index, k: nat)
    requires LaidOut(dims, batch, c, sizes, left) && InBox(sizes, b)
    ensures var i := RowIndex(|dims|, batch, c, b, k);
            i == i[..|batch| + 1] + Zeros(|dims| - |batch| - 1) && i[c] == k
  {
    var i := RowIndex(|dims|, batch, c, b, k);
    forall p | |batch| < p < |dims| ensures i[p] == 0 {
      assert LaidOutAt(dims, batch, c, sizes, p);
      if p in batch {
        UnitCoordinate(dims, batch, sizes, b, p);
      }
    }
  }

  /** The new index, with the contracting dimension after the batch dimensions. */
  lemma {:induction false} NewIndexAfter(dims: Dims, batch: seq<nat>, c: nat, sizes: Dims, left: bool, b: Index, k: nat)
    requires LaidOut(dims, batch, c, sizes, left) && InBox(sizes, b) && c == |batch|
    ensures RowIndex(c + 2, batch, if left then c + 1 else c, b, k)
         == RowIndex(|dims|, batch, c, b, k)[..c] + if left then [0, k] else [k, 0]
  {
    var c' := if left then c + 1 else c;
    var i, j := RowIndex(|dims|, batch, c, b, k), RowIndex(c + 2, batch, c', b, k);
    forall p | c <= p < c + 2 ensures p !in batch || (p == c + 1 && !left && j[p] == 0) {
      if p in batch {
        var q :| 0 <= q < |batch| && batch[q] == p;
        assert PlacedAt(dims, batch, c, sizes, left, q);
        UnitCoordinate(dims, batch, sizes, b, p);
      }
    }
  }

  /** With the contracting dimension first. */
  lemma {:induction false} NewIndexFirst(dims: Dims, batch: seq<nat>, c: nat, sizes: Dims, left: bool, b: Index, k: nat)
    requires LaidOut(dims, batch, c, sizes, left) && InBox(sizes, b) && c == 0 != |batch|
    ensures RowIndex(|batch| + 2, AddOne(batch), if left then 1 else 0, b, k)
         == (if left then [0, k] else [k, 0]) + RowIndex(|dims|, batch, c, b, k)[1..|batch| + 1]
  {
    var n, c' := |batch|, if left then 1 else 0;
    var i, j := RowIndex(|dims|, batch, c, b, k), RowIndex(n + 2, AddOne(batch), c', b, k);
    forall q | 0 <= q < n ensures AddOne(batch)[q] >= 2 {
      assert PlacedAt(dims, batch, c, sizes, left, q);
    }
    forall p | 2 <= p < n + 2 ensures j[p] == i[p - 1] {
      assert LaidOutAt(dims, batch, c, sizes, p - 1);
      AddOneIn(batch, p - 1);
    }
  }

  /** A placed operand is read, after expansion, at the same place in memory. */
  lemma {:induction false} RowsReadTheSame(dims: Dims, batch: seq<nat>, c: nat, sizes: Dims, left: bool, b: Index,
      k: nat)
    requires LaidOut(dims, batch, c, sizes, left) && InBox(sizes, b)
    ensures var e := Expanded(dims, batch, c, sizes, left);
            && |e.dims| == |batch| + 2 && |e.batch| == |batch| && |e.contracting| == 1
            && Linearize(e.dims, RowIndex(|e.dims|, e.batch, e.contracting[0], b, k))
               == Linearize(dims, RowIndex(|dims|, batch, c, b, k))
            && Product(e.dims) == Product(dims)
  {
    var n, i := |batch|, RowIndex(|dims|, batch, c, b, k);
    Layout(dims, batch, c, sizes, left);
    OriginalTail(dims, batch, c, sizes, left, b, k);
    if c == n {
      NewIndexAfter(dims, batch, c, sizes, left, b, k);
      AfterBatch(dims, sizes, c, left, i, RowIndex(c + 2, batch, if left then c + 1 else c, b, k), k);
    } else {
      NewIndexFirst(dims, batch, c, sizes, left, b, k);
      BeforeBatch(dims, sizes, left, i, RowIndex(n + 2, AddOne(batch), if left then 1 else 0, b, k), k);
    }
  }

  lemma {:induction false} AfterBatch(dims: Dims, sizes: Dims, c: nat, left: bool, i: Index, j: Index, k: nat)
    requires c == |sizes| < |dims| == |i| && |j| == c + 2 && dims == sizes + [dims[c]] + Ones(|dims| - c - 1)
    requires i == i[..c + 1] + Zeros(|dims| - c - 1) && i[c] == k
    requires j == i[..c] + if left then [0, k] else [k, 0]
    ensures var d := sizes + if left then [1, dims[c]] else [dims[c], 1];
            Linearize(d, j) == Linearize(dims, i) && Product(d) == Product(dims)
  {
    assert i == i[..c] + [k] + Zeros(|dims| - c - 1);
    UnitAtEitherEnd(sizes, [dims[c]], i[..c], [k], |dims| - c - 1, left);
  }

  lemma {:induction false} BeforeBatch(dims: Dims, sizes: Dims, left: bool, i: Index, j: Index, k: nat)
    requires |sizes| < |dims| == |i| && |j| == |sizes| + 2 && dims == [dims[0]] + sizes + Ones(|dims| - |sizes| - 1)
    requires i == i[..|sizes| + 1] + Zeros(|dims| - |sizes| - 1) && i[0] == k
    requires j == (if left then [0, k] else [k, 0]) + i[1..|sizes| + 1]
    ensures var d := (if left then [1, dims[0]] else [dims[0], 1]) + sizes;
            Linearize(d, j) == Linearize(dims, i) && Product(d) == Product(dims)
  {
    assert i == [k] + i[1..|sizes| + 1] + Zeros(|dims| - |sizes| - 1);
    UnitAroundHead([dims[0]], sizes, [k], i[1..|sizes| + 1], |dims| - |sizes| - 1, left);
  }

  lemma {:induction false} ReadsTheSame(dims: Dims, batch: seq<nat>, c: nat, sizes: Dims, left: bool, b: Index,
                                        f: Index, k: nat)
    requires Expandable(dims, batch, c) && sizes == Sizes(dims, batch) && Placed(dims, batch, c, sizes, left)
    requires InBox(sizes, b) && |f| == |FreeDims(|dims|, batch, [c])| && AllZero(f)
    ensures c < |dims|
    ensures var e := Expanded(dims, batch, c, sizes, left);
            && |e.batch| == |batch| && |e.contracting| == 1 && |FreeDims(|e.dims|, e.batch, e.contracting)| == 1
            && Linearize(e.dims, OperandIndex(|e.dims|, e.batch, e.contracting, b, [0], [k]))
               == Linearize(dims, OperandIndex(|dims|, batch, [c], b, f, [k]))
            && Product(e.dims) == Product(dims)
  {
    PlacedIsLaidOut(dims, batch, c, sizes, left);
    ExpandedFree(dims, batch, c, sizes, left);
    RowsReadTheSame(dims, batch, c, sizes, left, b, k);
    var e := Expanded(dims, batch, c, sizes, left);
    assert e.contracting == [e.contracting[0]];
    OperandIndexIs(|dims|, batch, c, b, f, k);
    OperandIndexIs(|e.dims|, e.batch, e.contracting[0], b, [0], k);
  }
}
