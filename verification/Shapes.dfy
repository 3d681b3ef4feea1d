/** Index boxes and their row-major order. */
module Shapes {
  import opened Arithmetic

  type Dims = seq<nat>
  type Index = seq<nat>

  function Product(dims: Dims): nat {
    if dims == [] then 1 else dims[0] * Product(dims[1..])
  }

  ghost predicate InBox(dims: Dims, idx: Index) {
    |idx| == |dims| && forall i :: 0 <= i < |dims| ==> idx[i] < dims[i]
  }

  lemma {:induction false} InBoxParts(a: Dims, b: Dims, c: Dims, i: Index, j: Index, k: Index)
    requires |i| == |a| && |j| == |b| && |k| == |c|
    ensures InBox(a + b + c, i + j + k) <==> InBox(a, i) && InBox(b, j) && InBox(c, k)
  {
    var d, o := a + b + c, i + j + k;
    if InBox(d, o) {
      forall x | 0 <= x < |a| ensures i[x] < a[x] { assert o[x] < d[x]; }
      forall x | 0 <= x < |b| ensures j[x] < b[x] { assert o[|a| + x] < d[|a| + x]; }
      forall x | 0 <= x < |c| ensures k[x] < c[x] { assert o[|a| + |b| + x] < d[|a| + |b| + x]; }
    }
  }

  /** Position of an index in row-major order. */
  function Linearize(dims: Dims, idx: Index): nat
    requires |idx| == |dims|
  {
    if dims == [] then 0 else idx[0] * Product(dims[1..]) + Linearize(dims[1..], idx[1..])
  }

  function Prepend(dims: Dims, first: nat, rest: Index): (idx: Index)
    requires dims != [] && first < dims[0] && InBox(dims[1..], rest)
    ensures InBox(dims, idx)
  {
    [first] + rest
  }

  /** Index at a position in row-major order. */
  function Delinearize(dims: Dims, n: nat): (idx: Index)
    requires n < Product(dims)
    ensures InBox(dims, idx)
    decreases |dims|
  {
    if dims == [] then []
    else
      var p := Product(dims[1..]);
      SplitIndex(n, dims[0], p);
      Prepend(dims, n / p, Delinearize(dims[1..], n % p))
  }

  lemma {:induction false} LinearizeInRange(dims: Dims, idx: Index)
    requires InBox(dims, idx)
    ensures Linearize(dims, idx) < Product(dims)
  {
    if dims == [] {
    } else {
      var p := Product(dims[1..]);
      LinearizeInRange(dims[1..], idx[1..]);
      ChunkInside(dims[0], p, idx[0]);
      assert idx[0] * p == p * idx[0] && dims[0] * p == p * dims[0];
    }
  }

  /** Delinearize undoes Linearize. */
  lemma {:induction false} IndexRoundTrip(dims: Dims, idx: Index)
    requires InBox(dims, idx)
    ensures Linearize(dims, idx) < Product(dims)
    ensures Delinearize(dims, Linearize(dims, idx)) == idx
  {
    LinearizeInRange(dims, idx);
    if dims == [] {
    } else {
      var p := Product(dims[1..]);
      LinearizeInRange(dims[1..], idx[1..]);
      IndexRoundTrip(dims[1..], idx[1..]);
      DivModUnique(Linearize(dims, idx), p, idx[0], Linearize(dims[1..], idx[1..]));
    }
  }

  /** Linearize undoes Delinearize. */
  lemma {:induction false} PositionRoundTrip(dims: Dims, n: nat)
    requires n < Product(dims)
    ensures Linearize(dims, Delinearize(dims, n)) == n
  {
    if dims == [] {
    } else {
      var p := Product(dims[1..]);
      SplitIndex(n, dims[0], p);
      PositionRoundTrip(dims[1..], n % p);
      var idx := Delinearize(dims, n);
      assert idx[1..] == Delinearize(dims[1..], n % p);
      assert idx[0] * p == p * (n / p);
    }
  }

  /** A dimension of size one does not move anything. */
  lemma {:induction false} UnitDimension(a: Dims, b: Dims, i: Index, j: Index)
    requires |a| == |i| && |b| == |j|
    ensures Linearize(a + [1] + b, i + [0] + j) == Linearize(a + b, i + j)
    ensures Product(a + [1] + b) == Product(a + b)
  {
    var d, e := a + [1] + b, a + b;
    var x, y := i + [0] + j, i + j;
    if a == [] {
      assert d[1..] == b && e == b && x[1..] == j && y == j;
      assert x[0] * Product(b) == 0;
    } else {
      UnitDimension(a[1..], b, i[1..], j);
      assert d[1..] == a[1..] + [1] + b && e[1..] == a[1..] + b;
      assert x[1..] == i[1..] + [0] + j && y[1..] == i[1..] + j;
      assert x[0] * Product(d[1..]) == y[0] * Product(e[1..]);
      assert d[0] * Product(d[1..]) == e[0] * Product(e[1..]);
    }
  }

  // ---------------------------------------------------------------------------------------------
  // Dimensions of size one

  ghost predicate Positive(dims: Dims) {
    forall d :: 0 <= d < |dims| ==> dims[d] > 0
  }

  function Ones(n: nat): Dims {
    seq(n, _ => 1)
  }

  function Zeros(n: nat): Index {
    seq(n, _ => 0)
  }

  lemma {:induction false} SingleProduct(dims: Dims)
    requires |dims| == 1
    ensures Product(dims) == dims[0]
  {
    assert dims[1..] == [];
    assert Product(dims) == dims[0] * Product(dims[1..]);
  }

  lemma {:induction false} ProductOne(xs: Dims)
    requires Product(xs) == 1
    ensures forall i :: 0 <= i < |xs| ==> xs[i] == 1
  {
    if xs != [] {
      FactorsOfOne(xs[0], Product(xs[1..]));
      ProductOne(xs[1..]);
      assert forall i :: 1 <= i < |xs| ==> xs[i] == xs[1..][i - 1];
    }
  }

  lemma {:induction false} FactorsOfOne(a: nat, b: nat)
    requires a * b == 1
    ensures a == 1 && b == 1
  {
    PositiveFactors(a, b);
    MulMonotone(1, a, b);
    MulMonotone(1, b, a);
    assert b * a == a * b;
  }

  lemma {:induction false} ProductJoin(a: Dims, b: Dims)
    ensures Product(a + b) == Product(a) * Product(b)
  {
    if a == [] {
      assert a + b == b;
    } else {
      assert (a + b)[1..] == a[1..] + b;
      ProductJoin(a[1..], b);
      assert a[0] * (Product(a[1..]) * Product(b)) == (a[0] * Product(a[1..])) * Product(b);
    }
  }

  lemma {:induction false} UnitInserted(a: Dims, b: Dims, i: Index, j: Index, d: Dims, e: Index, d': Dims, e': Index)
    requires |a| == |i| && |b| == |j|
    requires d == a + [1] + b && e == i + [0] + j && d' == a + b && e' == i + j
    ensures Linearize(d, e) == Linearize(d', e') && Product(d) == Product(d')
  {
    UnitDimension(a, b, i, j);
  }

  lemma {:induction false} UnitsLast(d: Dims, e: Index, m: nat)
    requires |d| == |e|
    ensures Linearize(d + Ones(m), e + Zeros(m)) == Linearize(d, e) && Product(d + Ones(m)) == Product(d)
  {
    if m == 0 {
      assert d + Ones(m) == d && e + Zeros(m) == e;
    } else {
      var d', e' := d + Ones(m - 1), e + Zeros(m - 1);
      UnitsLast(d, e, m - 1);
      UnitInserted(d', [], e', [], d + Ones(m), e + Zeros(m), d', e');
    }
  }

  /** Unit dimensions anywhere do not move anything. */
  lemma {:induction false} UnitsInside(b: Dims, y: Dims, i: Index, k: Index, m: nat)
    requires |b| == |i| && |y| == |k|
    ensures Linearize(b + Ones(m) + y, i + Zeros(m) + k) == Linearize(b + y, i + k)
    ensures Product(b + Ones(m) + y) == Product(b + y)
  {
    if m == 0 {
      assert b + Ones(m) + y == b + y && i + Zeros(m) + k == i + k;
    } else {
      UnitsInside(b, y, i, k, m - 1);
      var d, e := b + Ones(m - 1), i + Zeros(m - 1);
      UnitInserted(d, y, e, k, b + Ones(m) + y, i + Zeros(m) + k, d + y, e + k);
    }
  }

  /** B + [1] + C and B + C + [1] and B + C are the same memory. */
  lemma {:induction false} UnitAtEitherEnd(x: Dims, y: Dims, i: Index, j: Index, m: nat, left: bool)
    requires |x| == |i| && |y| == 1 && |j| == 1
    ensures var d := x + (if left then [1, y[0]] else [y[0], 1]);
            var e := i + (if left then [0, j[0]] else [j[0], 0]);
            Linearize(d, e) == Linearize(x + y + Ones(m), i + j + Zeros(m)) && Product(d) == Product(x + y + Ones(m))
  {
    UnitsLast(x + y, i + j, m);
    if left {
      UnitInserted(x, y, i, j, x + [1, y[0]], i + [0, j[0]], x + y, i + j);
    } else {
      UnitInserted(x + y, [], i + j, [], x + [y[0], 1], i + [j[0], 0], x + y, i + j);
    }
  }

  /** [1] + C + B and C + [1] + B and C + B + [1] and C + B are the same memory. */
  lemma {:induction false} UnitAroundHead(x: Dims, y: Dims, i: Index, j: Index, m: nat, left: bool)
    requires |x| == 1 && |i| == 1 && |y| == |j|
    ensures var d := (if left then [1, x[0]] else [x[0], 1]) + y;
            var e := (if left then [0, i[0]] else [i[0], 0]) + j;
            Linearize(d, e) == Linearize(x + y + Ones(m), i + j + Zeros(m)) && Product(d) == Product(x + y + Ones(m))
  {
    UnitsLast(x + y, i + j, m);
    if left {
      UnitInserted([], x + y, [], i + j, [1, x[0]] + y, [0, i[0]] + j, x + y, i + j);
    } else {
      UnitInserted(x, y, i, j, [x[0], 1] + y, [i[0], 0] + j, x + y, i + j);
    }
  }

  // ---------------------------------------------------------------------------------------------
  // CalculateTFStrides

  function Offset(idx: Index, strides: seq<nat>): nat
    requires |idx| == |strides|
  {
    if idx == [] then 0 else idx[0] * strides[0] + Offset(idx[1..], strides[1..])
  }

  /** Row-major strides: each is the product of the dimensions to its right. */
  method CalculateTFStrides(dims: Dims) returns (strides: seq<nat>)
    requires |dims| > 0
    ensures |strides| == |dims|
    ensures forall d :: 0 <= d < |dims| ==> strides[d] == Product(dims[d + 1..])
  {
    var a := new nat[|dims|](_ => 1);
    var d := a.Length - 2;
    while d >= 0
      invariant -1 <= d <= a.Length - 2
      invariant forall k :: d < k < a.Length ==> a[k] == Product(dims[k + 1..])
      invariant forall k :: 0 <= k <= d ==> a[k] == 1
    {
      assert dims[d + 1..][1..] == dims[d + 2..];
      a[d] := a[d + 1] * dims[d + 1];
      assert Product(dims[d + 1..]) == dims[d + 1] * Product(dims[d + 2..]);
      assert a[d] == Product(dims[d + 1..]) by {
        assert a[d + 1] * dims[d + 1] == dims[d + 1] * a[d + 1];
      }
      d := d - 1;
    }
    strides := a[..];
  }

  ghost predicate AreStrides(dims: Dims, strides: seq<nat>) {
    |strides| == |dims| && forall d :: 0 <= d < |dims| ==> strides[d] == Product(dims[d + 1..])
  }

  lemma {:induction false} StridesLinearize(dims: Dims, strides: seq<nat>, idx: Index)
    requires AreStrides(dims, strides) && |idx| == |dims|
    ensures Offset(idx, strides) == Linearize(dims, idx)
  {
    if dims == [] {
    } else {
      forall d | 0 <= d < |dims| - 1 ensures strides[1..][d] == Product(dims[1..][d + 1..]) {
        assert dims[1..][d + 1..] == dims[d + 2..];
      }
      StridesLinearize(dims[1..], strides[1..], idx[1..]);
    }
  }

  /** The strides map the index box one to one onto [0, product of the dimensions). */
  lemma {:induction false} StridesAreBijective(dims: Dims, strides: seq<nat>)
    requires AreStrides(dims, strides)
    ensures forall idx :: InBox(dims, idx) ==> Offset(idx, strides) < Product(dims)
    ensures forall i, j :: InBox(dims, i) && InBox(dims, j) && Offset(i, strides) == Offset(j, strides) ==> i == j
    ensures forall n: nat :: n < Product(dims) ==>
              InBox(dims, Delinearize(dims, n)) && Offset(Delinearize(dims, n), strides) == n
  {
    forall idx | InBox(dims, idx)
      ensures Offset(idx, strides) < Product(dims) && Delinearize(dims, Offset(idx, strides)) == idx
    {
      StridesLinearize(dims, strides, idx);
      IndexRoundTrip(dims, idx);
    }
    forall n: nat | n < Product(dims) ensures Offset(Delinearize(dims, n), strides) == n {
      StridesLinearize(dims, strides, Delinearize(dims, n));
      PositionRoundTrip(dims, n);
    }
  }
}
