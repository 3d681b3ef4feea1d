/** The epilogue fusions of gemm_rewriter.cc as steps on a graph. */
module EpilogueFusion {
  import opened HloGraph

  predicate SupportsEpilogueFusion(t: ElementType) {
    t.FusableFloat?
  }

  predicate IsOp(g: Graph, id: Id, op: Op) {
    id in g.nodes && g.nodes[id].op == op
  }

  predicate IsGemm(g: Graph, id: Id) {
    id in g.nodes && g.nodes[id].op.Gemm?
  }

  /** Both operands, in either order. */
  predicate OperandsAre(g: Graph, id: Id, a: Id, b: Id) {
    id in g.nodes && (g.nodes[id].operands == [a, b] || g.nodes[id].operands == [b, a])
  }

  /** Nothing, a slice or a bitcast between a gemm and the instruction that is fused into it. */
  predicate IsView(g: Graph, view: Id, gemm: Id) {
    view == gemm ||
    (view in g.nodes && g.nodes[view].operands == [gemm] && (g.nodes[view].op.Slice? || g.nodes[view].op.Bitcast?))
  }

  /** The gemm element behind element i of the view. */
  function Behind(g: Graph, view: Id, i: nat): nat
    requires view in g.nodes
  {
    var x := g.nodes[view];
    if x.op.Slice? && i < |x.op.pick| then x.op.pick[i] else i
  }

  /** The operand convention: two factors, the matrix bias at index 2 if beta is one, the vector bias
      last if the epilogue adds one, with one element per column of the result. */
  predicate OperandConvention(g: Graph, x: Instr) {
    x.op.Gemm? ==>
      && |x.operands| == 2 + (if x.op.config.beta then 1 else 0) + (if HasBias(x.op.config.epilogue) then 1 else 0)
      && (HasBias(x.op.config.epilogue) ==> BiasFits(g, x.operands[|x.operands| - 1], x.op.config.columns))
  }

  predicate BiasFits(g: Graph, bias: Id, columns: nat) {
    bias in g.nodes && g.nodes[bias].size == columns
  }

  ghost predicate Conventional(g: Graph) {
    forall id :: id in g.nodes ==> OperandConvention(g, g.nodes[id])
  }

  // ---------------------------------------------------------------------------------------------
  // The steps

  function GeluEpilogue(e: Epilogue, aux: bool): Epilogue {
    if e.Default? then (if aux then GeluAux else Gelu) else if aux then BiasGeluAux else BiasGelu
  }

  /** The nodes of a matched x * 0.5 * (1 + tanh(scale * (x + cubic * x^3))). */
  datatype GeluMatch = GeluMatch(
    mul: Id, cdf: Id, half: Id, plusOne: Id, one: Id, tanh: Id, scaled: Id, scale: Id,
    inner: Id, cubicTerm: Id, cubic: Id, cube: Id, square: Id,
    x0: Id, x1: Id, x2: Id, x3: Id, x4: Id)

  datatype Step =
    | FuseVectorBias(sum: Id, view: Id, gemm: Id, broadcast: Id)
    | FuseMatrixBias(sum: Id, gemm: Id, bias: Id, canOverwriteBias: bool)
    | MoveBitcast(sum: Id, view: Id, gemm: Id, bias: Id)
    | FuseRelu(max: Id, view: Id, gemm: Id, zeros: Id)
    | FuseGelu(target: Id, gemm: Id, m: GeluMatch)
    | RemoveUnused(id: Id)

  /** The broadcast reads, for each element, the bias element that the epilogue adds to the gemm element
      behind it, and the bias has one element per column.  Module BiasLayout derives this from the layout
      test. */
  predicate ColumnBroadcast(g: Graph, view: Id, gemm: Id, broadcast: Id)
    requires view in g.nodes && IsGemm(g, gemm) && broadcast in g.nodes && g.nodes[broadcast].op.Broadcast?
    requires |g.nodes[broadcast].operands| == 1
  {
    var pick, columns := g.nodes[broadcast].op.pick, g.nodes[gemm].op.config.columns;
    columns > 0 && BiasFits(g, g.nodes[broadcast].operands[0], columns) && |pick| == g.nodes[view].size &&
    forall i :: 0 <= i < |pick| ==> pick[i] == Behind(g, view, i) % columns
  }

  /** A slice picks elements that exist, and every view has the size it says. */
  predicate ViewInRange(g: Graph, view: Id, gemm: Id)
    requires view in g.nodes && gemm in g.nodes
  {
    var x, n := g.nodes[view], g.nodes[gemm].size;
    if x.op.Slice? && view != gemm then |x.op.pick| == x.size && forall i :: 0 <= i < x.size ==> x.op.pick[i] < n
    else x.size == n
  }

  /** The addition of a broadcast that FuseVectorBiasAdd is called for, with the tests it makes itself
      other than the one on layouts. */
  predicate VectorBiasMatch(g: Graph, sum: Id, view: Id, gemm: Id, broadcast: Id) {
    && IsGemm(g, gemm) && IsView(g, view, gemm) && view in g.nodes && !g.nodes[view].op.Bitcast?
    && IsOp(g, sum, Add) && OperandsAre(g, sum, view, broadcast)
    && broadcast in g.nodes && g.nodes[broadcast].op.Broadcast? && |g.nodes[broadcast].operands| == 1
    && g.nodes[broadcast].operands[0] in g.nodes
    && g.nodes[sum].size == g.nodes[view].size == g.nodes[broadcast].size && ViewInRange(g, view, gemm)
    && var c := g.nodes[gemm].op.config;
       && c.lt && SupportsEpilogueFusion(c.elements) && c.epilogue.Default?
       && |Users(g, gemm)| == 1 && |Users(g, view)| == 1
  }

  predicate VectorBiasGuard(g: Graph, sum: Id, view: Id, gemm: Id, broadcast: Id) {
    VectorBiasMatch(g, sum, view, gemm, broadcast) && ColumnBroadcast(g, view, gemm, broadcast)
  }

  /** canOverwriteBias: the bias has no other user and is not a parameter that must keep its contents. */
  predicate MatrixBiasGuard(g: Graph, sum: Id, gemm: Id, bias: Id, canOverwriteBias: bool) {
    && IsGemm(g, gemm) && IsOp(g, sum, Add) && OperandsAre(g, sum, gemm, bias)
    && bias in g.nodes && !g.nodes[bias].op.Broadcast?
    && g.nodes[sum].size == g.nodes[gemm].size == g.nodes[bias].size
    && var c := g.nodes[gemm].op.config;
       !c.elements.S32? && !c.beta && canOverwriteBias && |Users(g, gemm)| == 1 &&
           (c.epilogue.Default? || c.epilogue.Bias?)
  }

  predicate MoveBitcastGuard(g: Graph, sum: Id, view: Id, gemm: Id, bias: Id) {
    && IsGemm(g, gemm) && view != gemm && IsView(g, view, gemm) && IsOp(g, view, Bitcast)
    && IsOp(g, sum, Add) && OperandsAre(g, sum, view, bias) && bias in g.nodes
    && g.nodes[sum].size == g.nodes[view].size == g.nodes[gemm].size == g.nodes[bias].size
    && IsArrayShaped(g.nodes[gemm]) && IsArrayShaped(g.nodes[bias])
    && |Users(g, gemm)| == 1 && |Users(g, view)| == 1
    && (g.nodes[bias].op.Broadcast? ==> |Users(g, bias)| == 1 && g.nodes[gemm].op.config.lt)
  }

  predicate ReluGuard(g: Graph, max: Id, view: Id, gemm: Id, zeros: Id) {
    && IsGemm(g, gemm) && IsView(g, view, gemm) && view in g.nodes
    && IsOp(g, max, Maximum) && OperandsAre(g, max, view, zeros) && IsOp(g, zeros, Splat(0.0))
    && g.nodes[max].size == g.nodes[view].size == g.nodes[zeros].size && ViewInRange(g, view, gemm)
    && var c := g.nodes[gemm].op.config;
       c.lt && SupportsEpilogueFusion(c.elements) && |Users(g, gemm)| == 1 && |Users(g, view)| == 1 &&
           (c.epilogue.Default? || c.epilogue.Bias?)
  }

  predicate GeluGuard(g: Graph, target: Id, gemm: Id, m: GeluMatch, sem: Semantics) {
    && IsGemm(g, gemm) && MatchesGelu(g, m, gemm, sem)
    && (target == m.mul ||
        (IsOp(g, target, Bitcast) && g.nodes[target].operands == [m.mul] && |Users(g, m.mul)| == 1))
    && g.nodes[target].size == g.nodes[gemm].size
    && var c := g.nodes[gemm].op.config;
       c.lt && SupportsEpilogueFusion(c.elements) && (c.epilogue.Default? || c.epilogue.Bias?)
  }

  predicate Enabled(g: Graph, s: Step, sem: Semantics) {
    match s
    case FuseVectorBias(sum, view, gemm, broadcast) => VectorBiasGuard(g, sum, view, gemm, broadcast)
    case FuseMatrixBias(sum, gemm, bias, canOverwriteBias) => MatrixBiasGuard(g, sum, gemm, bias, canOverwriteBias)
    case MoveBitcast(sum, view, gemm, bias) => MoveBitcastGuard(g, sum, view, gemm, bias)
    case FuseRelu(max, view, gemm, zeros) => ReluGuard(g, max, view, gemm, zeros)
    case FuseGelu(target, gemm, m) => GeluGuard(g, target, gemm, m, sem)
    case RemoveUnused(id) => id in g.nodes && id != g.root && Users(g, id) == {}
  }

  predicate OneUser(g: Graph, ids: seq<Id>) {
    forall i :: 0 <= i < |ids| ==> |Users(g, ids[i])| == 1
  }

  /** The gemm, possibly through a bitcast. */
  predicate IsX(g: Graph, x: Id, gemm: Id) {
    x == gemm || (IsOp(g, x, Bitcast) && g.nodes[x].operands == [gemm])
  }

  predicate IsBinary(g: Graph, id: Id, op: Op, a: Id, b: Id, n: nat) {
    IsOp(g, id, op) && OperandsAre(g, id, a, b) && g.nodes[id].size == n
  }

  predicate IsSplat(g: Graph, id: Id, c: real, n: nat) {
    IsOp(g, id, Splat(c)) && g.nodes[id].size == n
  }

  predicate MatchesGelu(g: Graph, m: GeluMatch, gemm: Id, sem: Semantics)
    requires gemm in g.nodes
  {
    var n := g.nodes[gemm].size;
    && IsX(g, m.x0, gemm) && IsX(g, m.x1, gemm) && IsX(g, m.x2, gemm) && IsX(g, m.x3, gemm) && IsX(g, m.x4, gemm)
    && IsBinary(g, m.mul, Multiply, m.x0, m.cdf, n)
    && IsBinary(g, m.cdf, Multiply, m.half, m.plusOne, n) && IsSplat(g, m.half, 0.5, n)
    && IsBinary(g, m.plusOne, Add, m.one, m.tanh, n) && IsSplat(g, m.one, 1.0, n)
    && IsOp(g, m.tanh, Tanh) && g.nodes[m.tanh].operands == [m.scaled] && g.nodes[m.tanh].size == n
    && IsBinary(g, m.scaled, Multiply, m.scale, m.inner, n) && IsSplat(g, m.scale, sem.scale, n)
    && IsBinary(g, m.inner, Add, m.x1, m.cubicTerm, n)
    && IsBinary(g, m.cubicTerm, Multiply, m.cubic, m.cube, n) && IsSplat(g, m.cubic, sem.cubic, n)
    && IsBinary(g, m.cube, Multiply, m.x2, m.square, n)
    && IsBinary(g, m.square, Multiply, m.x3, m.x4, n)
    && OneUser(g, [m.cdf, m.plusOne, m.tanh, m.scaled, m.inner, m.cubicTerm, m.cube, m.square])
  }

  function WithEpilogue(x: Instr, e: Epilogue): Instr
    requires x.op.Gemm?
  {
    x.(op := Gemm(x.op.config.(epilogue := e)))
  }

  /** The new gemm under the same view as the old one. */
  function UnderView(g: Graph, view: Id, gemm: Id, fused: Instr): Graph
    requires view in g.nodes
  {
    var g1 := AddNode(g, fused);
    if view == gemm then g1 else AddNode(g1, g.nodes[view].(operands := [g.next]))
  }

  function FuseUnderView(g: Graph, view: Id, gemm: Id, fused: Instr, from: Id): Graph
    requires view in g.nodes
  {
    var g1 := UnderView(g, view, gemm, fused);
    Replace(g1, from, if view == gemm then g.next else g.next + 1)
  }

  function VectorFusedInstr(x: Instr, b: Id): Instr
    requires x.op.Gemm?
  {
    WithEpilogue(x, Bias).(operands := x.operands + [b])
  }

  function MatrixFusedInstr(x: Instr, bias: Id): Instr
    requires x.op.Gemm?
  {
    Instr(Gemm(x.op.config.(beta := true)), InsertBias(x.operands, bias), x.size)
  }

  function ReluFusedInstr(x: Instr): Instr
    requires x.op.Gemm?
  {
    WithEpilogue(x, if x.op.config.epilogue.Default? then Relu else BiasRelu)
  }

  function BitcastMoved(g: Graph, sum: Id, gemm: Id, bias: Id, n: nat): Graph {
    var g1 := AddNode(g, Instr(Bitcast, [bias], n));
    var g2 := AddNode(g1, Instr(Add, [gemm, g.next], n));
    Replace(AddNode(g2, Instr(Bitcast, [g.next + 1], n)), sum, g.next + 2)
  }

  function GeluFused(g: Graph, target: Id, fused: Instr): Graph {
    Replace(AddNode(g, fused), target, g.next)
  }

  /** With other users of the gemm left, the call also returns its pre-activation values for them. */
  function GeluAuxFused(g: Graph, target: Id, gemm: Id, fused: Instr): Graph {
    var g1 := AddNode(g, fused);
    var g2 := AddNode(g1, Instr(GetTupleElement(1), [g.next], fused.size));
    var g3 := AddNode(g2, Instr(GetTupleElement(0), [g.next], fused.size));
    Replace(Replace(g3, gemm, g.next + 1), target, g.next + 2)
  }

  function GeluFusedInstr(x: Instr, aux: bool): Instr
    requires x.op.Gemm?
  {
    WithEpilogue(x, GeluEpilogue(x.op.config.epilogue, aux))
  }

  function GeluReplaced(g: Graph, target: Id, gemm: Id, aux: bool): Graph
    requires IsGemm(g, gemm)
  {
    var fused := GeluFusedInstr(g.nodes[gemm], aux);
    if aux then GeluAuxFused(g, target, gemm, fused) else GeluFused(g, target, fused)
  }

  function Next(g: Graph, s: Step, sem: Semantics): Graph
    requires Enabled(g, s, sem)
  {
    match s
    case FuseVectorBias(sum, view, gemm, broadcast) =>
      FuseUnderView(g, view, gemm, VectorFusedInstr(g.nodes[gemm], g.nodes[broadcast].operands[0]), sum)
    case FuseMatrixBias(sum, gemm, bias, _) =>
      Replace(AddNode(g, MatrixFusedInstr(g.nodes[gemm], bias)), sum, g.next)
    case MoveBitcast(sum, view, gemm, bias) => BitcastMoved(g, sum, gemm, bias, g.nodes[gemm].size)
    case FuseRelu(max, view, gemm, zeros) => FuseUnderView(g, view, gemm, ReluFusedInstr(g.nodes[gemm]), max)
    case FuseGelu(target, gemm, m) => GeluReplaced(g, target, gemm, |Users(g, gemm)| > 4)
    case RemoveUnused(id) => g.(nodes := g.nodes - {id})
  }

  /** operands.insert(begin + 2, bias) */
  function InsertBias(operands: seq<Id>, bias: Id): seq<Id> {
    if |operands| < 2 then operands else operands[..2] + [bias] + operands[2..]
  }

  // ---------------------------------------------------------------------------------------------
  // Reading values off a valuation

  function Data(v: Value): Buffer {
    if v.Array? then v.data else []
  }

  lemma {:induction false} AddAt(sem: Semantics, g: Graph, v: Valuation, id: Id, a: Id, b: Id, i: nat)
    requires Closed(g) && Models(sem, g, v) && IsOp(g, id, Add) && OperandsAre(g, id, a, b) && i < g.nodes[id].size
    requires a in g.nodes && b in g.nodes
    ensures v[id].Array? && |v[id].data| == g.nodes[id].size
    ensures v[id].data[i] == Elem(Data(v[a]), i) + Elem(Data(v[b]), i)
  {
    assert NodeOk(sem, g.nodes[id], v, id);
  }

  lemma {:induction false} MaximumAt(sem: Semantics, g: Graph, v: Valuation, id: Id, a: Id, b: Id, i: nat)
    requires Closed(g) && Models(sem, g, v) && IsOp(g, id, Maximum) && OperandsAre(g, id, a, b) && i < g.nodes[id].size
    requires a in g.nodes && b in g.nodes
    ensures v[id].Array? && |v[id].data| == g.nodes[id].size
    ensures v[id].data[i] == Max(Elem(Data(v[a]), i), Elem(Data(v[b]), i))
  {
    assert NodeOk(sem, g.nodes[id], v, id);
  }

  lemma {:induction false} SplatAt(sem: Semantics, g: Graph, v: Valuation, id: Id, c: real, i: nat)
    requires Models(sem, g, v) && IsOp(g, id, Splat(c)) && i < g.nodes[id].size
    ensures v[id].Array? && |v[id].data| == g.nodes[id].size && v[id].data[i] == c
  {
    assert NodeOk(sem, g.nodes[id], v, id);
  }

  /** A gemm without an activation holds its pre-activation values. */
  lemma {:induction false} GemmAt(sem: Semantics, g: Graph, v: Valuation, gemm: Id, i: nat)
    requires Models(sem, g, v) && IsGemm(g, gemm) && i < g.nodes[gemm].size
    requires g.nodes[gemm].op.config.epilogue.Default? || g.nodes[gemm].op.config.epilogue.Bias?
    ensures v[gemm].Array? && |v[gemm].data| == g.nodes[gemm].size
    ensures v[gemm].data[i] == PreActivation(sem, g.nodes[gemm].op.config, Args(v, g.nodes[gemm].operands), i)
  {
    assert NodeOk(sem, g.nodes[gemm], v, gemm);
  }

  lemma {:induction false} ViewAt(sem: Semantics, g: Graph, v: Valuation, view: Id, gemm: Id, i: nat)
    requires Closed(g) && Models(sem, g, v) && view in g.nodes && gemm in g.nodes
    requires IsView(g, view, gemm) && ViewInRange(g, view, gemm) && i < g.nodes[view].size
    requires v[gemm].Array? && IsGemm(g, gemm)
    ensures v[view].Array? && |v[view].data| == g.nodes[view].size
    ensures Behind(g, view, i) < |v[gemm].data| && v[view].data[i] == v[gemm].data[Behind(g, view, i)]
  {
    assert NodeOk(sem, g.nodes[view], v, view) && NodeOk(sem, g.nodes[gemm], v, gemm);
    if view != gemm {
      assert Args(v, g.nodes[view].operands)[0] == v[gemm];
    }
  }

  // ---------------------------------------------------------------------------------------------
  // What the fused calls compute

  lemma {:induction false} VectorFused(sem: Semantics, c: GemmConfig, args: seq<Value>, bias: Value, j: nat)
    requires c.epilogue.Default? && |args| == 2 + (if c.beta then 1 else 0)
    ensures PreActivation(sem, c.(epilogue := Bias), args + [bias], j)
         == PreActivation(sem, c, args, j) + BiasAt(c.columns, [bias], j)
  {
    var more := args + [bias];
    assert Arg(more, 0) == Arg(args, 0) && Arg(more, 1) == Arg(args, 1) && (c.beta ==> Arg(more, 2) == Arg(args, 2));
    assert Arg(more, |more| - 1) == Data(bias) == Arg([bias], 0);
  }

  lemma {:induction false} MatrixFused(sem: Semantics, c: GemmConfig, args: seq<Value>, bias: Value, j: nat)
    requires !c.beta && (c.epilogue.Default? || c.epilogue.Bias?)
    requires |args| == 2 + (if HasBias(c.epilogue) then 1 else 0)
    ensures PreActivation(sem, c.(beta := true), args[..2] + [bias] + args[2..], j)
         == PreActivation(sem, c, args, j) + Elem(Data(bias), j)
  {
    var more := args[..2] + [bias] + args[2..];
    assert Arg(more, 0) == Arg(args, 0) && Arg(more, 1) == Arg(args, 1) && Arg(more, 2) == Data(bias);
    if c.epilogue.Bias? {
      assert Arg(more, |more| - 1) == Arg(args, |args| - 1);
      assert BiasAt(c.columns, more, j) == BiasAt(c.columns, args, j);
    }
  }

  /** All but the epilogue's activation is unchanged by choosing another activation. */
  lemma {:induction false} SamePreActivation(sem: Semantics, c: GemmConfig, e: Epilogue, args: seq<Value>, j: nat)
    requires HasBias(e) == HasBias(c.epilogue)
    ensures PreActivation(sem, c.(epilogue := e), args, j) == PreActivation(sem, c, args, j)
  {
  }

  // ---------------------------------------------------------------------------------------------
  // Adding and replacing instructions under a valuation

  /** Whatever is in both graphs keeps its value, and so does the result. */
  ghost predicate Kept(g: Graph, v: Valuation, g': Graph, v': Valuation) {
    && (forall id :: id in g.nodes && id in g'.nodes ==> id in v && id in v' && v'[id] == v[id])
    && g.root in v && g'.root in v' && v'[g'.root] == v[g.root]
  }

  ghost predicate Good(sem: Semantics, g: Graph, v: Valuation) {
    TimesCommutes(sem) && Closed(g) && Conventional(g) && Models(sem, g, v)
  }

  /** A graph together with what it computes and an order in which to compute it. */
  datatype Evaluated = Evaluated(sem: Semantics, g: Graph, v: Valuation, rank: map<Id, nat>)

  type Sound = e: Evaluated | Good(e.sem, e.g, e.v) && Ranked(e.g, e.rank) ghost witness OneConstant()

  ghost function OneConstant(): (e: Evaluated)
    ensures Good(e.sem, e.g, e.v) && Ranked(e.g, e.rank)
  {
    var sem := Semantics((n, a, b) => [], (name, args, n) => [], (x, y) => 0.0, x => x, 0.0, 0.0);
    var e := Evaluated(sem, Graph(map[0 := Instr(Splat(0.0), [], 0)], 0, 1), map[0 := Array([])], map[0 := 0]);
    assert NodeOk(sem, e.g.nodes[0], e.v, 0);
    e
  }

  /** f computes what e computes, as far as both go, and its new ids are new to e. */
  ghost predicate Keeps(e: Evaluated, f: Evaluated) {
    && f.sem == e.sem && Kept(e.g, e.v, f.g, f.v) && e.g.next <= f.g.next
    && (forall id :: id in f.g.nodes && id < e.g.next ==> id in e.g.nodes)
  }

  ghost predicate OldNode(e: Sound, m: Evaluated, id: Id)
    requires id in e.g.nodes
  {
    && id in m.g.nodes && m.g.nodes[id] == e.g.nodes[id]
    && id in m.v && m.v[id] == e.v[id]
    && id in m.rank && m.rank[id] == 3 * e.rank[id]
  }

  ghost predicate OperandsBelow(m: Evaluated, x: Instr, r: nat) {
    forall i :: 0 <= i < |x.operands| ==>
      x.operands[i] in m.g.nodes && x.operands[i] in m.rank && m.rank[x.operands[i]] < r
  }

  ghost predicate NewNode(e: Sound, m: Evaluated, id: Id)
    requires id in m.g.nodes
  {
    && e.g.next <= id < m.g.next && id in m.v && id in m.rank
    && OperandConvention(m.g, m.g.nodes[id]) && OperandsBelow(m, m.g.nodes[id], m.rank[id])
    && NodeOk(m.sem, m.g.nodes[id], m.v, id)
  }

  /** m is e with instructions added. */
  ghost predicate Extends(e: Sound, m: Evaluated) {
    && m.sem == e.sem && m.g.root == e.g.root && e.g.next <= m.g.next
    && (forall id :: id in e.g.nodes ==> OldNode(e, m, id))
    && (forall id :: id in m.g.nodes && id !in e.g.nodes ==> NewNode(e, m, id))
  }

  /** e with room in the order for new instructions. */
  function Roomy(e: Evaluated): Evaluated {
    e.(rank := Spread(e.rank))
  }

  function Plus(m: Evaluated, x: Instr, value: Value, r: nat): Evaluated {
    Evaluated(m.sem, AddNode(m.g, x), m.v[m.g.next := value], m.rank[m.g.next := r])
  }

  ghost predicate Fits(m: Evaluated, x: Instr, value: Value, r: nat) {
    && OperandConvention(m.g, x) && OperandsBelow(m, x, r)
    && Eval(m.sem, x, Args(m.v, x.operands)) == value && HasSize(value, x.size)
  }

  lemma {:induction false} PlusExtends(e: Sound, m: Evaluated, x: Instr, value: Value, r: nat)
    requires Extends(e, m) && Fits(m, x, value, r)
    ensures Extends(e, Plus(m, x, value, r)) && m.g.next !in e.g.nodes && m.g.next !in m.g.nodes
  {
    var m' := Plus(m, x, value, r);
    forall id | id in m'.g.nodes && id !in e.g.nodes ensures NewNode(e, m', id) {
      var y := m'.g.nodes[id];
      if id != m.g.next {
        assert NewNode(e, m, id);
      }
      assert Args(m'.v, y.operands) == Args(m.v, y.operands) by {
        OperandsElsewhere(e, m, id, if id == m.g.next then x else y, if id == m.g.next then r else m.rank[id]);
      }
    }
  }

  lemma {:induction false} OperandsElsewhere(e: Sound, m: Evaluated, id: Id, x: Instr, r: nat)
    requires Extends(e, m) && OperandsBelow(m, x, r)
    ensures forall i :: 0 <= i < |x.operands| ==> x.operands[i] != m.g.next
  {
    forall i | 0 <= i < |x.operands| ensures x.operands[i] != m.g.next {
      var o := x.operands[i];
      assert o in m.g.nodes;
      assert o in e.g.nodes || NewNode(e, m, o);
    }
  }

  lemma {:induction false} ExtendedIsSound(e: Sound, m: Evaluated)
    requires Extends(e, m)
    ensures Good(m.sem, m.g, m.v) && Ranked(m.g, m.rank) && Keeps(e, m)
  {
    forall id | id in m.g.nodes
      ensures id < m.g.next && OperandConvention(m.g, m.g.nodes[id]) && id in m.v && id in m.rank
      ensures NodeOk(m.sem, m.g.nodes[id], m.v, id) && OperandsBelow(m, m.g.nodes[id], m.rank[id])
    {
      if id in e.g.nodes {
        OldIsSound(e, m, id);
      } else {
        assert NewNode(e, m, id);
      }
    }
    assert OldNode(e, m, e.g.root);
  }

  lemma {:induction false} OldIsSound(e: Sound, m: Evaluated, id: Id)
    requires Extends(e, m) && id in e.g.nodes
    ensures id < m.g.next && id in m.g.nodes && OperandConvention(m.g, m.g.nodes[id]) && id in m.v && id in m.rank
    ensures NodeOk(m.sem, m.g.nodes[id], m.v, id) && OperandsBelow(m, m.g.nodes[id], m.rank[id])
  {
    var x := e.g.nodes[id];
    assert OldNode(e, m, id) && NodeOk(e.sem, x, e.v, id);
    forall i | 0 <= i < |x.operands| ensures x.operands[i] in e.g.nodes && OldNode(e, m, x.operands[i]) {
    }
    assert Args(m.v, x.operands) == Args(e.v, x.operands);
  }

  lemma {:induction false} ReplaceKeeps(e: Sound, m: Evaluated, from: Id, to: Id)
    requires Good(m.sem, m.g, m.v) && Ranked(m.g, m.rank) && Keeps(e, m)
    requires from in m.g.nodes && to in m.g.nodes && from != to && m.v[from] == m.v[to] && m.rank[to] <= m.rank[from]
    ensures var f := m.(g := Replace(m.g, from, to));
            Good(f.sem, f.g, f.v) && Ranked(f.g, f.rank) && Keeps(e, f)
  {
    ReplaceModels(m.sem, m.g, m.v, from, to);
    assert NodeOk(m.sem, m.g.nodes[from], m.v, from) && NodeOk(m.sem, m.g.nodes[to], m.v, to);
    ReplaceConventional(m.g, from, to);
    ReplaceRanked(m.g, m.rank, from, to);
  }

  /** Let one of the added instructions replace an old one. */
  lemma {:induction false} Supplant(e: Sound, m: Evaluated, from: Id, to: Id) returns (f: Sound)
    requires Extends(e, m) && from in e.g.nodes && to in m.g.nodes && to !in e.g.nodes
    requires to in m.v && e.v[from] == m.v[to] && to in m.rank && m.rank[to] <= 3 * e.rank[from]
    ensures f == m.(g := Replace(m.g, from, to)) && Keeps(e, f)
  {
    assert OldNode(e, m, from);
    ExtendedIsSound(e, m);
    ReplaceKeeps(e, m, from, to);
    f := m.(g := Replace(m.g, from, to));
  }

  lemma {:induction false} ReplaceConventional(g: Graph, from: Id, to: Id)
    requires Conventional(g) && from in g.nodes && to in g.nodes && from != to && g.nodes[from].size == g.nodes[to].size
    ensures Conventional(Replace(g, from, to))
  {
    var g' := Replace(g, from, to);
    forall id | id in g'.nodes ensures OperandConvention(g', g'.nodes[id]) {
      assert OperandConvention(g, g.nodes[id]);
    }
  }

  lemma {:induction false} GemmHasSize(sem: Semantics, x: Instr, args: seq<Value>)
    requires x.op.Gemm?
    ensures HasSize(Eval(sem, x, args), x.size)
  {
  }

  lemma {:induction false} SameArray(v: Value, w: Value, n: nat)
    requires v.Array? && w.Array? && |v.data| == |w.data| == n
    requires forall i :: 0 <= i < n ==> v.data[i] == w.data[i]
    ensures v == w
  {
  }

  lemma {:induction false} MatrixBiasValue(sem: Semantics, g: Graph, v: Valuation, sum: Id, gemm: Id, bias: Id)
    requires Good(sem, g, v) && MatrixBiasGuard(g, sum, gemm, bias, true)
    ensures OperandConvention(g, MatrixFusedInstr(g.nodes[gemm], bias))
    ensures var fused := MatrixFusedInstr(g.nodes[gemm], bias);
            Eval(sem, fused, Args(v, fused.operands)) == v[sum] && HasSize(v[sum], fused.size)
  {
    var x := g.nodes[gemm];
    var c, args := x.op.config, Args(v, x.operands);
    var fused := MatrixFusedInstr(x, bias);
    assert OperandConvention(g, x);
    assert NodeOk(sem, g.nodes[sum], v, sum);
    assert Args(v, fused.operands) == args[..2] + [v[bias]] + args[2..];
    var value := GemmValue(sem, c.(beta := true), Args(v, fused.operands), x.size);
    forall i | 0 <= i < x.size ensures value.data[i] == v[sum].data[i] {
      AddAt(sem, g, v, sum, gemm, bias, i);
      GemmAt(sem, g, v, gemm, i);
      MatrixFused(sem, c, args, v[bias], i);
    }
    SameArray(value, v[sum], x.size);
  }

  // A fused gemm under a view

  /** The value of the fused gemm, seen through the view, is that of the instruction it replaces. */
  ghost predicate Explains(sem: Semantics, g: Graph, v: Valuation, view: Id, gemm: Id, fused: Instr, from: Id) {
    && IsGemm(g, gemm) && IsView(g, view, gemm) && view in g.nodes && ViewInRange(g, view, gemm)
    && fused.op.Gemm? && OperandConvention(g, fused) && fused.size == g.nodes[gemm].size
    && (forall i :: 0 <= i < |fused.operands| ==> fused.operands[i] in g.nodes)
    && from in g.nodes && from in v && v[from].Array? && |v[from].data| == g.nodes[view].size
    && var value := Eval(sem, fused, Args(v, fused.operands));
       value.Array? && forall i :: 0 <= i < g.nodes[view].size ==>
           v[from].data[i] == Elem(value.data, Behind(g, view, i))
  }

  lemma {:induction false} ViewedValue(sem: Semantics, x: Instr, value: Value, target: Value, n: nat)
    requires value.Array? && |value.data| == n && target.Array? && |target.data| == x.size
    requires x.op.Slice? || (x.op.Bitcast? && x.size == n)
    requires x.op.Slice? ==> |x.op.pick| == x.size
    requires forall i :: 0 <= i < x.size ==>
               target.data[i] == Elem(value.data, if x.op.Slice? then x.op.pick[i] else i)
    ensures Eval(sem, x, [value]) == target
  {
    assert Arg([value], 0) == value.data;
    SameArray(Eval(sem, x, [value]), target, x.size);
  }

  lemma {:induction false} NewViewValue(sem: Semantics, g: Graph, v: Valuation, view: Id, gemm: Id, fused: Instr,
      from: Id)
    requires Good(sem, g, v) && view != gemm && Explains(sem, g, v, view, gemm, fused, from)
    ensures Eval(sem, g.nodes[view].(operands := [g.next]), [Eval(sem, fused, Args(v, fused.operands))]) == v[from]
  {
    var value := Eval(sem, fused, Args(v, fused.operands));
    GemmHasSize(sem, fused, Args(v, fused.operands));
    var x := g.nodes[view].(operands := [g.next]);
    forall i | 0 <= i < x.size
      ensures v[from].data[i] == Elem(value.data, if x.op.Slice? then x.op.pick[i] else i)
    {
      assert Behind(g, view, i) == if x.op.Slice? then x.op.pick[i] else i;
    }
    ViewedValue(sem, x, value, v[from], fused.size);
  }

  // Vector bias

  lemma {:induction false} VectorFusedAt(sem: Semantics, g: Graph, v: Valuation, gemm: Id, b: Id, j: nat)
    requires Good(sem, g, v) && IsGemm(g, gemm) && g.nodes[gemm].op.config.epilogue.Default? && b in g.nodes
    requires j < g.nodes[gemm].size
    ensures var fused := VectorFusedInstr(g.nodes[gemm], b);
            var value := Eval(sem, fused, Args(v, fused.operands));
            && value.Array? && |value.data| == fused.size
            && v[gemm].Array? && |v[gemm].data| == fused.size
            && value.data[j] == v[gemm].data[j] + BiasAt(fused.op.config.columns, [v[b]], j)
  {
    var x := g.nodes[gemm];
    var fused := VectorFusedInstr(x, b);
    assert OperandConvention(g, x);
    GemmAt(sem, g, v, gemm, j);
    assert Args(v, fused.operands) == Args(v, x.operands) + [v[b]];
    VectorFused(sem, x.op.config, Args(v, x.operands), v[b], j);
  }

  lemma {:induction false} BroadcastAt(sem: Semantics, g: Graph, v: Valuation, id: Id, b: Id, i: nat)
    requires Closed(g) && Models(sem, g, v) && id in g.nodes && g.nodes[id].op.Broadcast? && g.nodes[id].operands == [b]
    requires i < g.nodes[id].size == |g.nodes[id].op.pick|
    ensures b in g.nodes && HasSize(v[b], g.nodes[b].size)
    ensures v[id].Array? && |v[id].data| == g.nodes[id].size
    ensures v[id].data[i] == Elem(Data(v[b]), g.nodes[id].op.pick[i])
  {
    assert g.nodes[id].operands[0] == b;
    assert NodeOk(sem, g.nodes[id], v, id) && NodeOk(sem, g.nodes[b], v, b);
    assert Args(v, [b]) == [v[b]];
  }

  lemma {:induction false} VectorBiasAt(sem: Semantics, g: Graph, v: Valuation, sum: Id, view: Id, gemm: Id,
      broadcast: Id, i: nat)
    requires Good(sem, g, v) && VectorBiasGuard(g, sum, view, gemm, broadcast) && i < g.nodes[view].size
    ensures var fused := VectorFusedInstr(g.nodes[gemm], g.nodes[broadcast].operands[0]);
            var value := Eval(sem, fused, Args(v, fused.operands));
            && value.Array? && v[sum].Array? && |v[sum].data| == g.nodes[view].size
            && v[sum].data[i] == Elem(value.data, Behind(g, view, i))
  {
    var b, j := g.nodes[broadcast].operands[0], Behind(g, view, i);
    AddAt(sem, g, v, sum, view, broadcast, i);
    GemmIsArray(sem, g, v, gemm);
    ViewAt(sem, g, v, view, gemm, i);
    BroadcastAt(sem, g, v, broadcast, b, i);
    VectorFusedAt(sem, g, v, gemm, b, j);
  }

  lemma {:induction false} GemmIsArray(sem: Semantics, g: Graph, v: Valuation, gemm: Id)
    requires Models(sem, g, v) && IsGemm(g, gemm)
    requires g.nodes[gemm].op.config.epilogue.Default? || g.nodes[gemm].op.config.epilogue.Bias?
    ensures v[gemm].Array? && |v[gemm].data| == g.nodes[gemm].size
  {
    assert NodeOk(sem, g.nodes[gemm], v, gemm);
  }

  lemma {:induction false} SumIsArray(sem: Semantics, g: Graph, v: Valuation, id: Id)
    requires Models(sem, g, v) && (IsOp(g, id, Add) || IsOp(g, id, Maximum) || IsOp(g, id, Multiply))
    ensures v[id].Array? && |v[id].data| == g.nodes[id].size
  {
    assert NodeOk(sem, g.nodes[id], v, id);
  }

  // ReLU

  lemma {:induction false} ReluAt(sem: Semantics, g: Graph, v: Valuation, max: Id, view: Id, gemm: Id, zeros: Id,
      i: nat)
    requires Good(sem, g, v) && ReluGuard(g, max, view, gemm, zeros) && i < g.nodes[view].size
    ensures var fused := ReluFusedInstr(g.nodes[gemm]);
            var value := Eval(sem, fused, Args(v, fused.operands));
            && value.Array? && v[max].Array? && |v[max].data| == g.nodes[view].size
            && v[max].data[i] == Elem(value.data, Behind(g, view, i))
  {
    var x, j := g.nodes[gemm], Behind(g, view, i);
    var fused := ReluFusedInstr(x);
    MaximumAt(sem, g, v, max, view, zeros, i);
    SplatAt(sem, g, v, zeros, 0.0, i);
    GemmIsArray(sem, g, v, gemm);
    ViewAt(sem, g, v, view, gemm, i);
    GemmAt(sem, g, v, gemm, j);
    SamePreActivation(sem, x.op.config, fused.op.config.epilogue, Args(v, x.operands), j);
  }

  // Moving a bitcast past an addition

  lemma {:induction false} ArrayShaped(sem: Semantics, g: Graph, v: Valuation, id: Id)
    requires Models(sem, g, v) && id in g.nodes && IsArrayShaped(g.nodes[id])
    ensures v[id].Array? && |v[id].data| == g.nodes[id].size
  {
    assert NodeOk(sem, g.nodes[id], v, id);
  }

  /** add(bitcast(a), b) and add(a, bitcast(b)) hold the same data. */
  lemma {:induction false} MovedSum(sem: Semantics, g: Graph, v: Valuation, sum: Id, view: Id, gemm: Id, bias: Id)
    requires Good(sem, g, v) && MoveBitcastGuard(g, sum, view, gemm, bias)
    ensures v[bias].Array? && |v[bias].data| == g.nodes[gemm].size
    ensures v[sum].Array? && |v[sum].data| == g.nodes[gemm].size
    ensures Eval(sem, Instr(Add, [gemm, g.next], g.nodes[gemm].size), [v[gemm], v[bias]]) == v[sum]
  {
    var n := g.nodes[gemm].size;
    ArrayShaped(sem, g, v, gemm);
    ArrayShaped(sem, g, v, bias);
    SumIsArray(sem, g, v, sum);
    assert NodeOk(sem, g.nodes[view], v, view) && Args(v, [gemm]) == [v[gemm]];
    assert v[view] == v[gemm];
    var value := Eval(sem, Instr(Add, [gemm, g.next], n), [v[gemm], v[bias]]);
    forall i | 0 <= i < n ensures value.data[i] == v[sum].data[i] {
      AddAt(sem, g, v, sum, view, bias, i);
    }
    SameArray(value, v[sum], n);
  }

  // GELU

  lemma {:induction false} XValue(sem: Semantics, g: Graph, v: Valuation, x: Id, gemm: Id)
    requires Closed(g) && Models(sem, g, v) && gemm in g.nodes && v[gemm].Array? && IsX(g, x, gemm)
    ensures x in g.nodes && v[x] == v[gemm]
  {
    if x != gemm {
      assert NodeOk(sem, g.nodes[x], v, x) && Args(v, [gemm]) == [v[gemm]];
    }
  }

  function Products(sem: Semantics, a: Buffer, b: Buffer, n: nat): (r: Buffer)
    ensures |r| == n && forall i :: 0 <= i < n ==> r[i] == sem.times(Elem(a, i), Elem(b, i))
  {
    seq(n, i requires 0 <= i < n => sem.times(Elem(a, i), Elem(b, i)))
  }

  function Sums(a: Buffer, b: Buffer, n: nat): (r: Buffer)
    ensures |r| == n && forall i :: 0 <= i < n ==> r[i] == Elem(a, i) + Elem(b, i)
  {
    seq(n, i requires 0 <= i < n => Elem(a, i) + Elem(b, i))
  }

  function Tanhs(sem: Semantics, a: Buffer, n: nat): (r: Buffer)
    ensures |r| == n && forall i :: 0 <= i < n ==> r[i] == sem.tanh(Elem(a, i))
  {
    seq(n, i requires 0 <= i < n => sem.tanh(Elem(a, i)))
  }

  function Constants(c: real, n: nat): (r: Buffer)
    ensures |r| == n && forall i :: 0 <= i < n ==> r[i] == c
  {
    seq(n, i requires 0 <= i < n => c)
  }

  lemma {:induction false} ProductValue(sem: Semantics, g: Graph, v: Valuation, id: Id, a: Id, b: Id, n: nat)
    requires TimesCommutes(sem) && Models(sem, g, v) && IsBinary(g, id, Multiply, a, b, n) && a in v && b in v
    ensures v[id] == Array(Products(sem, Data(v[a]), Data(v[b]), n))
  {
    assert NodeOk(sem, g.nodes[id], v, id);
    SameArray(v[id], Array(Products(sem, Data(v[a]), Data(v[b]), n)), n);
  }

  lemma {:induction false} SumValue(sem: Semantics, g: Graph, v: Valuation, id: Id, a: Id, b: Id, n: nat)
    requires Models(sem, g, v) && IsBinary(g, id, Add, a, b, n) && a in v && b in v
    ensures v[id] == Array(Sums(Data(v[a]), Data(v[b]), n))
  {
    assert NodeOk(sem, g.nodes[id], v, id);
    SameArray(v[id], Array(Sums(Data(v[a]), Data(v[b]), n)), n);
  }

  lemma {:induction false} SplatValue(sem: Semantics, g: Graph, v: Valuation, id: Id, c: real, n: nat)
    requires Models(sem, g, v) && IsSplat(g, id, c, n)
    ensures v[id] == Array(Constants(c, n))
  {
    assert NodeOk(sem, g.nodes[id], v, id);
  }

  lemma {:induction false} TanhValue(sem: Semantics, g: Graph, v: Valuation, id: Id, a: Id, n: nat)
    requires Models(sem, g, v) && IsOp(g, id, Tanh) && g.nodes[id].operands == [a] && g.nodes[id].size == n && a in v
    ensures v[id] == Array(Tanhs(sem, Data(v[a]), n))
  {
    assert NodeOk(sem, g.nodes[id], v, id);
    assert Args(v, g.nodes[id].operands) == [v[a]] && Arg([v[a]], 0) == Data(v[a]);
    forall i | 0 <= i < n ensures v[id].data[i] == Tanhs(sem, Data(v[a]), n)[i] {
    }
    SameArray(v[id], Array(Tanhs(sem, Data(v[a]), n)), n);
  }

  /** scale * (x + cubic * x^3), buffer by buffer. */
  function InnerBuffer(sem: Semantics, x: Buffer, n: nat): Buffer {
    var cube := Products(sem, x, Products(sem, x, x, n), n);
    Products(sem, Constants(sem.scale, n), Sums(x, Products(sem, Constants(sem.cubic, n), cube, n), n), n)
  }

  function GeluBuffer(sem: Semantics, x: Buffer, n: nat): Buffer {
    var plusOne := Sums(Constants(1.0, n), Tanhs(sem, InnerBuffer(sem, x, n), n), n);
    Products(sem, x, Products(sem, Constants(0.5, n), plusOne, n), n)
  }

  lemma {:induction false} InnerElement(sem: Semantics, x: Buffer, n: nat, i: nat)
    requires |x| == n && i < n
    ensures InnerBuffer(sem, x, n)[i] == sem.times(sem.scale,
              x[i] + sem.times(sem.cubic, sem.times(x[i], sem.times(x[i], x[i]))))
  {
    var square := Products(sem, x, x, n);
    assert square[i] == sem.times(x[i], x[i]);
    var cube := Products(sem, x, square, n);
    assert cube[i] == sem.times(x[i], square[i]);
    var term := Products(sem, Constants(sem.cubic, n), cube, n);
    assert term[i] == sem.times(sem.cubic, cube[i]);
    assert Sums(x, term, n)[i] == x[i] + term[i];
  }

  lemma {:induction false} GeluElement(sem: Semantics, x: Buffer, n: nat, i: nat)
    requires |x| == n && i < n
    ensures GeluBuffer(sem, x, n)[i] == GeluOf(sem, x[i])
  {
    InnerElement(sem, x, n, i);
    var tanhs := Tanhs(sem, InnerBuffer(sem, x, n), n);
    assert tanhs[i] == sem.tanh(InnerBuffer(sem, x, n)[i]);
    var plusOne := Sums(Constants(1.0, n), tanhs, n);
    assert plusOne[i] == 1.0 + tanhs[i];
    assert Products(sem, Constants(0.5, n), plusOne, n)[i] == sem.times(0.5, plusOne[i]);
  }

  lemma {:induction false} InnerNodes(sem: Semantics, g: Graph, v: Valuation, m: GeluMatch, gemm: Id)
    requires TimesCommutes(sem) && Closed(g) && Models(sem, g, v) && gemm in g.nodes && MatchesGelu(g, m, gemm, sem)
    requires v[gemm].Array?
    ensures m.scaled in v && v[m.scaled] == Array(InnerBuffer(sem, v[gemm].data, g.nodes[gemm].size))
  {
    var n := g.nodes[gemm].size;
    XValue(sem, g, v, m.x1, gemm);
    XValue(sem, g, v, m.x2, gemm);
    XValue(sem, g, v, m.x3, gemm);
    XValue(sem, g, v, m.x4, gemm);
    ProductValue(sem, g, v, m.square, m.x3, m.x4, n);
    ProductValue(sem, g, v, m.cube, m.x2, m.square, n);
    SplatValue(sem, g, v, m.cubic, sem.cubic, n);
    ProductValue(sem, g, v, m.cubicTerm, m.cubic, m.cube, n);
    SumValue(sem, g, v, m.inner, m.x1, m.cubicTerm, n);
    SplatValue(sem, g, v, m.scale, sem.scale, n);
    ProductValue(sem, g, v, m.scaled, m.scale, m.inner, n);
  }

  /** The matched subgraph computes the GELU of the gemm. */
  lemma {:induction false} GeluNodes(sem: Semantics, g: Graph, v: Valuation, m: GeluMatch, gemm: Id)
    requires TimesCommutes(sem) && Closed(g) && Models(sem, g, v) && gemm in g.nodes && MatchesGelu(g, m, gemm, sem)
    requires v[gemm].Array?
    ensures m.mul in v && v[m.mul] == Array(GeluBuffer(sem, v[gemm].data, g.nodes[gemm].size))
  {
    var n := g.nodes[gemm].size;
    InnerNodes(sem, g, v, m, gemm);
    TanhValue(sem, g, v, m.tanh, m.scaled, n);
    SplatValue(sem, g, v, m.one, 1.0, n);
    SumValue(sem, g, v, m.plusOne, m.one, m.tanh, n);
    SplatValue(sem, g, v, m.half, 0.5, n);
    ProductValue(sem, g, v, m.cdf, m.half, m.plusOne, n);
    XValue(sem, g, v, m.x0, gemm);
    ProductValue(sem, g, v, m.mul, m.x0, m.cdf, n);
  }

  /** The instruction a GELU fusion replaces holds the GELU of the gemm. */
  lemma {:induction false} TargetValue(sem: Semantics, g: Graph, v: Valuation, target: Id, gemm: Id, m: GeluMatch)
    requires Good(sem, g, v) && GeluGuard(g, target, gemm, m, sem)
    ensures v[gemm].Array? && |v[gemm].data| == g.nodes[gemm].size
    ensures target in g.nodes && v[target].Array? && |v[target].data| == g.nodes[gemm].size
    ensures forall i :: 0 <= i < g.nodes[gemm].size ==> v[target].data[i] == GeluOf(sem, v[gemm].data[i])
  {
    var n := g.nodes[gemm].size;
    GemmIsArray(sem, g, v, gemm);
    GeluNodes(sem, g, v, m, gemm);
    if target != m.mul {
      assert NodeOk(sem, g.nodes[target], v, target) && Args(v, [m.mul]) == [v[m.mul]];
    }
    forall i | 0 <= i < n ensures v[target].data[i] == GeluOf(sem, v[gemm].data[i]) {
      GeluElement(sem, v[gemm].data, n, i);
    }
  }

  /** What the fused call returns: the GELU values and, with aux, also the gemm's own. */
  lemma {:induction false} GeluCallValue(sem: Semantics, g: Graph, v: Valuation, target: Id, gemm: Id, m: GeluMatch,
      aux: bool)
    requires Good(sem, g, v) && GeluGuard(g, target, gemm, m, sem)
    ensures OperandConvention(g, GeluFusedInstr(g.nodes[gemm], aux))
    ensures target in g.nodes && v[target].Array? && v[gemm].Array?
    ensures |v[target].data| == |v[gemm].data| == g.nodes[gemm].size
    ensures var fused := GeluFusedInstr(g.nodes[gemm], aux);
            Eval(sem, fused, Args(v, fused.operands)) == if aux then Pair(v[target].data, v[gemm].data) else v[target]
  {
    var x := g.nodes[gemm];
    var c, args, n := x.op.config, Args(v, x.operands), x.size;
    var e := GeluEpilogue(c.epilogue, aux);
    assert OperandConvention(g, x);
    TargetValue(sem, g, v, target, gemm, m);
    forall i | 0 <= i < n
      ensures PreActivation(sem, c.(epilogue := e), args, i) == v[gemm].data[i]
    {
      GemmAt(sem, g, v, gemm, i);
      SamePreActivation(sem, c, e, args, i);
    }
    GeluGemm(sem, c.(epilogue := e), args, n, v[target].data, v[gemm].data);
  }

  /** A gemm with a GELU epilogue, from its values before the activation. */
  lemma {:induction false} GeluGemm(sem: Semantics, c: GemmConfig, args: seq<Value>, n: nat, out: Buffer, pre: Buffer)
    requires c.epilogue.Gelu? || c.epilogue.GeluAux? || c.epilogue.BiasGelu? || c.epilogue.BiasGeluAux?
    requires |out| == |pre| == n
    requires forall i :: 0 <= i < n ==> PreActivation(sem, c, args, i) == pre[i] && out[i] == GeluOf(sem, pre[i])
    ensures GemmValue(sem, c, args, n) ==
            if c.epilogue.GeluAux? || c.epilogue.BiasGeluAux? then Pair(out, pre) else Array(out)
  {
    var value := GemmValue(sem, c, args, n);
    if c.epilogue.GeluAux? || c.epilogue.BiasGeluAux? {
      SameArray(Array(value.first), Array(out), n);
      SameArray(Array(value.second), Array(pre), n);
    } else {
      SameArray(value, Array(out), n);
    }
  }

  // ---------------------------------------------------------------------------------------------
  // Soundness of each step

  lemma {:induction false} BitcastValue(sem: Semantics, id: Id, n: nat, v: Value)
    requires v.Array?
    ensures Eval(sem, Instr(Bitcast, [id], n), [v]) == v
  {
  }

  lemma {:induction false} ComponentValue(sem: Semantics, id: Id, n: nat, v: Value)
    requires v.Pair?
    ensures Eval(sem, Instr(GetTupleElement(0), [id], n), [v]) == Array(v.first)
    ensures Eval(sem, Instr(GetTupleElement(1), [id], n), [v]) == Array(v.second)
  {
  }

  /** Old instructions that come before `from`. */
  ghost predicate Before(e: Sound, x: Instr, from: Id)
    requires from in e.g.nodes
  {
    forall i :: 0 <= i < |x.operands| ==>
        x.operands[i] in e.g.nodes && x.operands[i] in e.rank && e.rank[x.operands[i]] < e.rank[from]
  }

  /** The newest instruction of m, its value and its place in the order. */
  ghost predicate Newest(e: Sound, m: Evaluated, id: Id, value: Value, r: nat) {
    && id == m.g.next - 1 && id in m.g.nodes && id !in e.g.nodes
    && id in m.v && m.v[id] == value && id in m.rank && m.rank[id] == r
  }

  /** Add one instruction over old ones. */
  lemma {:induction false} PlusFirst(e: Sound, x: Instr, value: Value, from: Id, r: nat) returns (m: Evaluated)
    requires from in e.g.nodes && Before(e, x, from) && 3 * e.rank[from] - 3 < r <= 3 * e.rank[from]
    requires OperandConvention(e.g, x) && Eval(e.sem, x, Args(e.v, x.operands)) == value && HasSize(value, x.size)
    ensures Extends(e, m) && m.g == AddNode(e.g, x) && Newest(e, m, e.g.next, value, r)
  {
    m := Roomy(e);
    forall id | id in e.g.nodes ensures OldNode(e, m, id) {
      assert id in e.rank;
    }
    PlusExtends(e, m, x, value, r);
    m := Plus(m, x, value, r);
  }

  /** Add one instruction over the newest one. */
  lemma {:induction false} PlusTop(e: Sound, m: Evaluated, x: Instr, top: Value, value: Value, r: nat)
    requires Extends(e, m) && m.g.next - 1 in m.g.nodes && m.g.next - 1 in m.rank && m.rank[m.g.next - 1] < r
    requires m.g.next - 1 in m.v && m.v[m.g.next - 1] == top
    requires !x.op.Gemm? && x.operands == [m.g.next - 1]
    requires Eval(e.sem, x, [top]) == value && HasSize(value, x.size)
    ensures Extends(e, Plus(m, x, value, r)) && m.g.next !in e.g.nodes && m.g.next !in m.g.nodes
  {
    assert Args(m.v, x.operands) == [top];
    PlusExtends(e, m, x, value, r);
  }

  lemma {:induction false} ReplaceByNew(e: Sound, from: Id, x: Instr) returns (f: Sound)
    requires from in e.g.nodes && Before(e, x, from) && OperandConvention(e.g, x)
    requires Eval(e.sem, x, Args(e.v, x.operands)) == e.v[from] && HasSize(e.v[from], x.size)
    ensures Keeps(e, f) && f.g == Replace(AddNode(e.g, x), from, e.g.next)
  {
    var m := PlusFirst(e, x, e.v[from], from, 3 * e.rank[from]);
    f := Supplant(e, m, from, e.g.next);
  }

  /** Add one instruction over the newest one and let it replace `from`. */
  lemma {:induction false} ReplaceByTop(e: Sound, m: Evaluated, x: Instr, top: Value, from: Id) returns (f: Sound)
    requires Extends(e, m) && from in e.g.nodes
    requires m.g.next - 1 in m.g.nodes && m.g.next - 1 in m.rank && m.rank[m.g.next - 1] < 3 * e.rank[from]
    requires m.g.next - 1 in m.v && m.v[m.g.next - 1] == top
    requires !x.op.Gemm? && x.operands == [m.g.next - 1]
    requires Eval(e.sem, x, [top]) == e.v[from] && HasSize(e.v[from], x.size)
    ensures Keeps(e, f) && f.g == Replace(AddNode(m.g, x), from, m.g.next)
  {
    PlusTop(e, m, x, top, e.v[from], 3 * e.rank[from]);
    f := Supplant(e, Plus(m, x, e.v[from], 3 * e.rank[from]), from, m.g.next);
  }

  lemma {:induction false} ReplaceByViewed(e: Sound, from: Id, x: Instr, value: Value, view: Instr) returns (f: Sound)
    requires from in e.g.nodes && Before(e, x, from) && OperandConvention(e.g, x) && e.rank[from] > 0
    requires Eval(e.sem, x, Args(e.v, x.operands)) == value && HasSize(value, x.size)
    requires !view.op.Gemm? && view.operands == [e.g.next]
    requires Eval(e.sem, view, [value]) == e.v[from] && HasSize(e.v[from], view.size)
    ensures Keeps(e, f) && f.g == Replace(AddNode(AddNode(e.g, x), view), from, e.g.next + 1)
  {
    var m := PlusFirst(e, x, value, from, 3 * e.rank[from] - 1);
    f := ReplaceByTop(e, m, view, value, from);
  }

  lemma {:induction false} UnderViewSound(e: Sound, view: Id, gemm: Id, fused: Instr, from: Id) returns (f: Sound)
    requires Explains(e.sem, e.g, e.v, view, gemm, fused, from) && Before(e, fused, from) && e.rank[from] > 0
    ensures Keeps(e, f) && f.g == FuseUnderView(e.g, view, gemm, fused, from)
  {
    var value := Eval(e.sem, fused, Args(e.v, fused.operands));
    GemmHasSize(e.sem, fused, Args(e.v, fused.operands));
    if view == gemm {
      SameArray(value, e.v[from], fused.size);
      f := ReplaceByNew(e, from, fused);
    } else {
      NewViewValue(e.sem, e.g, e.v, view, gemm, fused, from);
      f := ReplaceByViewed(e, from, fused, value, e.g.nodes[view].(operands := [e.g.next]));
    }
  }

  lemma {:induction false} ViewBefore(e: Sound, view: Id, gemm: Id, user: Id, other: Id)
    requires IsGemm(e.g, gemm) && IsView(e.g, view, gemm) && OperandsAre(e.g, user, view, other)
    ensures e.rank[user] > 0 && Before(e, e.g.nodes[gemm], user)
  {
    OperandsRanked(e, user, view, other);
    if view != gemm {
      assert e.g.nodes[view].operands[0] == gemm;
    }
  }

  lemma {:induction false} VectorBiasSound(e: Sound, sum: Id, view: Id, gemm: Id, broadcast: Id) returns (f: Sound)
    requires VectorBiasGuard(e.g, sum, view, gemm, broadcast)
    ensures Keeps(e, f)
    ensures f.g == FuseUnderView(e.g, view, gemm, VectorFusedInstr(e.g.nodes[gemm], e.g.nodes[broadcast].operands[0]),
              sum)
  {
    var sem, g, v := e.sem, e.g, e.v;
    var fused := VectorFusedInstr(g.nodes[gemm], g.nodes[broadcast].operands[0]);
    assert OperandConvention(g, g.nodes[gemm]);
    SumIsArray(sem, g, v, sum);
    var value := Eval(sem, fused, Args(v, fused.operands));
    forall i | 0 <= i < g.nodes[view].size ensures v[sum].data[i] == Elem(value.data, Behind(g, view, i)) {
      VectorBiasAt(sem, g, v, sum, view, gemm, broadcast, i);
    }
    ViewBefore(e, view, gemm, sum, broadcast);
    OperandsRanked(e, sum, view, broadcast);
    f := UnderViewSound(e, view, gemm, fused, sum);
  }

  lemma {:induction false} ReluSound(e: Sound, max: Id, view: Id, gemm: Id, zeros: Id) returns (f: Sound)
    requires ReluGuard(e.g, max, view, gemm, zeros)
    ensures Keeps(e, f) && f.g == FuseUnderView(e.g, view, gemm, ReluFusedInstr(e.g.nodes[gemm]), max)
  {
    var sem, g, v := e.sem, e.g, e.v;
    var fused := ReluFusedInstr(g.nodes[gemm]);
    assert OperandConvention(g, g.nodes[gemm]);
    SumIsArray(sem, g, v, max);
    var value := Eval(sem, fused, Args(v, fused.operands));
    forall i | 0 <= i < g.nodes[view].size ensures v[max].data[i] == Elem(value.data, Behind(g, view, i)) {
      ReluAt(sem, g, v, max, view, gemm, zeros, i);
    }
    ViewBefore(e, view, gemm, max, zeros);
    f := UnderViewSound(e, view, gemm, fused, max);
  }

  lemma {:induction false} MatrixBiasSound(e: Sound, sum: Id, gemm: Id, bias: Id) returns (f: Sound)
    requires MatrixBiasGuard(e.g, sum, gemm, bias, true)
    ensures Keeps(e, f) && f.g == Replace(AddNode(e.g, MatrixFusedInstr(e.g.nodes[gemm], bias)), sum, e.g.next)
  {
    MatrixBiasValue(e.sem, e.g, e.v, sum, gemm, bias);
    OperandsRanked(e, sum, gemm, bias);
    f := ReplaceByNew(e, sum, MatrixFusedInstr(e.g.nodes[gemm], bias));
  }

  /** bitcast(b), add(a, bitcast(b)) and a bitcast of that replace `sum`. */
  lemma {:induction false} ReplaceByBitcastSum(e: Sound, sum: Id, a: Id, b: Id, n: nat) returns (f: Sound)
    requires sum in e.g.nodes && a in e.g.nodes && b in e.g.nodes && e.rank[a] < e.rank[sum] && e.rank[b] < e.rank[sum]
    requires e.v[b].Array? && |e.v[b].data| == n && e.v[sum].Array? && |e.v[sum].data| == n
    requires Eval(e.sem, Instr(Add, [a, e.g.next], n), [e.v[a], e.v[b]]) == e.v[sum]
    ensures Keeps(e, f) && f.g == BitcastMoved(e.g, sum, a, b, n)
  {
    assert Args(e.v, [b]) == [e.v[b]];
    BitcastValue(e.sem, b, n, e.v[b]);
    var m := PlusFirst(e, Instr(Bitcast, [b], n), e.v[b], sum, 3 * e.rank[sum] - 2);
    assert BitcastMoved(e.g, sum, a, b, n)
        == Replace(AddNode(AddNode(m.g, Instr(Add, [a, e.g.next], n)), Instr(Bitcast, [e.g.next + 1], n)), sum,
            e.g.next + 2);
    f := ReplaceBySumBitcast(e, m, sum, a, e.g.next, n);
  }

  /** Add a sum over the newest instruction and let a bitcast of it replace `sum`. */
  lemma {:induction false} ReplaceBySumBitcast(e: Sound, m: Evaluated, sum: Id, a: Id, top: Id, n: nat)
    returns (f: Sound)
    requires Extends(e, m) && sum in e.g.nodes && a in e.g.nodes && e.rank[a] < e.rank[sum]
    requires top in m.v && top in m.rank && Newest(e, m, top, m.v[top], m.rank[top])
    requires m.rank[top] < 3 * e.rank[sum] - 1
    requires Eval(e.sem, Instr(Add, [a, top], n), [e.v[a], m.v[top]]) == e.v[sum]
    requires e.v[sum].Array? && |e.v[sum].data| == n
    ensures Keeps(e, f)
    ensures f.g == Replace(AddNode(AddNode(m.g, Instr(Add, [a, top], n)), Instr(Bitcast, [top + 1], n)), sum, top + 2)
  {
    var r := 3 * e.rank[sum] - 1;
    SumOnTop(e, m, a, top, Instr(Add, [a, top], n), e.v[sum], r);
    var m' := Plus(m, Instr(Add, [a, top], n), e.v[sum], r);
    BitcastValue(e.sem, top + 1, n, e.v[sum]);
    f := ReplaceByTop(e, m', Instr(Bitcast, [top + 1], n), e.v[sum], sum);
  }

  lemma {:induction false} SumOnTop(e: Sound, m: Evaluated, a: Id, top: Id, x: Instr, value: Value, r: nat)
    requires Extends(e, m) && a in e.g.nodes && 3 * e.rank[a] < r
    requires top in m.g.nodes && top in m.v && top in m.rank && m.rank[top] < r
    requires x.op == Add && x.operands == [a, top]
    requires Eval(e.sem, x, [e.v[a], m.v[top]]) == value && HasSize(value, x.size)
    ensures Extends(e, Plus(m, x, value, r)) && m.g.next !in e.g.nodes && m.g.next !in m.g.nodes
  {
    assert OldNode(e, m, a);
    assert Args(m.v, x.operands) == [e.v[a], m.v[top]];
    PlusExtends(e, m, x, value, r);
  }

  lemma {:induction false} MoveBitcastSound(e: Sound, sum: Id, view: Id, gemm: Id, bias: Id) returns (f: Sound)
    requires MoveBitcastGuard(e.g, sum, view, gemm, bias)
    ensures Keeps(e, f) && f.g == BitcastMoved(e.g, sum, gemm, bias, e.g.nodes[gemm].size)
  {
    MovedSum(e.sem, e.g, e.v, sum, view, gemm, bias);
    OperandsRanked(e, sum, view, bias);
    assert e.g.nodes[view].operands[0] == gemm;
    f := ReplaceByBitcastSum(e, sum, gemm, bias, e.g.nodes[gemm].size);
  }

  lemma {:induction false} TargetLater(e: Sound, target: Id, gemm: Id, m: GeluMatch)
    requires GeluGuard(e.g, target, gemm, m, e.sem)
    ensures target in e.g.nodes && target != gemm && e.rank[gemm] < e.rank[target] && e.rank[gemm] > 0
  {
    OperandsRanked(e, m.mul, m.x0, m.cdf);
    if m.x0 != gemm {
      assert e.g.nodes[m.x0].operands[0] == gemm;
    }
    if target != m.mul {
      assert e.g.nodes[target].operands[0] == m.mul;
    }
    assert OperandConvention(e.g, e.g.nodes[gemm]);
    assert e.g.nodes[gemm].operands[0] in e.rank;
  }

  lemma {:induction false} OperandsRanked(e: Sound, id: Id, a: Id, b: Id)
    requires OperandsAre(e.g, id, a, b)
    ensures a in e.g.nodes && b in e.g.nodes && e.rank[a] < e.rank[id] && e.rank[b] < e.rank[id]
  {
    var operands := e.g.nodes[id].operands;
    assert operands[0] in e.g.nodes && operands[1] in e.g.nodes;
  }

  lemma {:induction false} AuxFusedIs(g: Graph, g1: Graph, target: Id, gemm: Id, x: Instr, top: Id)
    requires g1 == AddNode(g, x) && top == g.next
    ensures GeluAuxFused(g, target, gemm, x) == WithComponents(g1, target, gemm, top, x.size)
  {
  }

  /** The components of the pair at top replace gemm and target. */
  function WithComponents(g: Graph, target: Id, gemm: Id, top: Id, n: nat): Graph {
    var both := AddNode(AddNode(g, Instr(GetTupleElement(1), [top], n)), Instr(GetTupleElement(0), [top], n));
    Replace(Replace(both, gemm, top + 1), target, top + 2)
  }

  /** A call that returns the value of `target` and that of gemm replaces both. */
  lemma {:induction false} ReplaceByComponents(e: Sound, target: Id, gemm: Id, x: Instr) returns (f: Sound)
    requires target in e.g.nodes && gemm in e.g.nodes && target != gemm && 0 < e.rank[gemm] < e.rank[target]
    requires Before(e, x, gemm) && OperandConvention(e.g, x)
    requires e.v[target].Array? && e.v[gemm].Array? && |e.v[target].data| == |e.v[gemm].data| == x.size
    requires Eval(e.sem, x, Args(e.v, x.operands)) == Pair(e.v[target].data, e.v[gemm].data)
    ensures Keeps(e, f) && f.g == GeluAuxFused(e.g, target, gemm, x)
  {
    var pair := Pair(e.v[target].data, e.v[gemm].data);
    var m := PlusFirst(e, x, pair, gemm, 3 * e.rank[gemm] - 1);
    AuxFusedIs(e.g, m.g, target, gemm, x, e.g.next);
    f := SupplantByComponents(e, m, target, gemm, e.g.next, pair, x.size);
  }

  /** The components of the newest instruction replace gemm and target. */
  lemma {:induction false} SupplantByComponents(
      e: Sound, m: Evaluated, target: Id, gemm: Id, top: Id, pair: Value, n: nat)
    returns (f: Sound)
    requires Extends(e, m) && target in e.g.nodes && gemm in e.g.nodes && target != gemm
    requires e.rank[gemm] < e.rank[target]
    requires pair.Pair? && |pair.first| == |pair.second| == n
    requires e.v[target] == Array(pair.first) && e.v[gemm] == Array(pair.second)
    requires top in m.rank && Newest(e, m, top, pair, m.rank[top]) && m.rank[top] < 3 * e.rank[gemm]
    ensures Keeps(e, f) && f.g == WithComponents(m.g, target, gemm, top, n)
  {
    var m' := AddComponents(e, m, pair, n, 3 * e.rank[gemm]);
    f := SupplantBoth(e, m', gemm, top + 1, target, top + 2);
  }

  lemma {:induction false} ReplaceByGelu(e: Sound, target: Id, gemm: Id, aux: bool) returns (f: Sound)
    requires target in e.g.nodes && IsGemm(e.g, gemm) && target != gemm && 0 < e.rank[gemm] < e.rank[target]
    requires e.v[target].Array? && e.v[gemm].Array? && |e.v[target].data| == |e.v[gemm].data| == e.g.nodes[gemm].size
    requires var x := GeluFusedInstr(e.g.nodes[gemm], aux);
             && OperandConvention(e.g, x)
             && Eval(e.sem, x, Args(e.v, x.operands)) == if aux then Pair(e.v[target].data,
                 e.v[gemm].data) else e.v[target]
    ensures Keeps(e, f) && f.g == GeluReplaced(e.g, target, gemm, aux)
  {
    if aux {
      f := ReplaceByComponents(e, target, gemm, GeluFusedInstr(e.g.nodes[gemm], aux));
    } else {
      f := ReplaceByNew(e, target, GeluFusedInstr(e.g.nodes[gemm], aux));
    }
  }

  lemma {:induction false} GeluSound(e: Sound, target: Id, gemm: Id, m: GeluMatch) returns (f: Sound)
    requires GeluGuard(e.g, target, gemm, m, e.sem)
    ensures Keeps(e, f) && f.g == GeluReplaced(e.g, target, gemm, |Users(e.g, gemm)| > 4)
  {
    var aux := |Users(e.g, gemm)| > 4;
    GeluCallValue(e.sem, e.g, e.v, target, gemm, m, aux);
    TargetLater(e, target, gemm, m);
    f := ReplaceByGelu(e, target, gemm, aux);
  }

  lemma {:induction false} SupplantBoth(e: Sound, m: Evaluated, a: Id, a': Id, b: Id, b': Id) returns (f: Sound)
    requires Extends(e, m) && a in e.g.nodes && b in e.g.nodes && a != b && a' != b'
    requires a' in m.g.nodes && a' !in e.g.nodes && a' in m.v && a' in m.rank
    requires b' in m.g.nodes && b' !in e.g.nodes && b' in m.v && b' in m.rank
    requires e.v[a] == m.v[a'] && m.rank[a'] <= 3 * e.rank[a]
    requires e.v[b] == m.v[b'] && m.rank[b'] <= 3 * e.rank[b]
    ensures Keeps(e, f) && f.g == Replace(Replace(m.g, a, a'), b, b')
  {
    assert OldNode(e, m, b);
    var mid := Supplant(e, m, a, a');
    ReplaceKeeps(e, mid, b, b');
    f := mid.(g := Replace(mid.g, b, b'));
  }

  /** Both components of the newest instruction. */
  lemma {:induction false} AddComponents(e: Sound, m: Evaluated, pair: Value, n: nat, r: nat) returns (m': Evaluated)
    requires Extends(e, m) && pair.Pair? && |pair.first| == |pair.second| == n
    requires m.g.next - 1 in m.g.nodes && m.g.next - 1 in m.v && m.v[m.g.next - 1] == pair
    requires m.g.next - 1 in m.rank && m.rank[m.g.next - 1] < r
    ensures var next := m.g.next;
            && Extends(e, m') && next !in e.g.nodes && next + 1 !in e.g.nodes
            && m' == Plus(Plus(m, Instr(GetTupleElement(1), [next - 1], n), Array(pair.second), r),
                          Instr(GetTupleElement(0), [next - 1], n), Array(pair.first), r)
  {
    var id := m.g.next - 1;
    ComponentValue(e.sem, id, n, pair);
    PlusTop(e, m, Instr(GetTupleElement(1), [id], n), pair, Array(pair.second), r);
    m' := Plus(m, Instr(GetTupleElement(1), [id], n), Array(pair.second), r);
    assert Args(m'.v, [id]) == [pair];
    PlusExtends(e, m', Instr(GetTupleElement(0), [id], n), Array(pair.first), r);
    m' := Plus(m', Instr(GetTupleElement(0), [id], n), Array(pair.first), r);
  }

  lemma {:induction false} RemoveUnusedSound(e: Sound, id: Id) returns (f: Sound)
    requires id in e.g.nodes && id != e.g.root && Users(e.g, id) == {}
    ensures Keeps(e, f) && f.g == e.g.(nodes := e.g.nodes - {id})
  {
    var g := e.g.(nodes := e.g.nodes - {id});
    forall u, i | u in g.nodes && 0 <= i < |g.nodes[u].operands| ensures g.nodes[u].operands[i] != id {
      assert u !in Users(e.g, id);
    }
    assert Models(e.sem, g, e.v);
    f := e.(g := g);
  }

  // ---------------------------------------------------------------------------------------------
  // Every sequence of fusions

  lemma {:induction false} StepSound(e: Sound, s: Step) returns (f: Sound)
    requires Enabled(e.g, s, e.sem)
    ensures Keeps(e, f) && f.g == Next(e.g, s, e.sem)
  {
    match s
    case FuseVectorBias(sum, view, gemm, broadcast) => f := VectorBiasSound(e, sum, view, gemm, broadcast);
    case FuseMatrixBias(sum, gemm, bias, _) => f := MatrixBiasSound(e, sum, gemm, bias);
    case MoveBitcast(sum, view, gemm, bias) => f := MoveBitcastSound(e, sum, view, gemm, bias);
    case FuseRelu(max, view, gemm, zeros) => f := ReluSound(e, max, view, gemm, zeros);
    case FuseGelu(target, gemm, m) => f := GeluSound(e, target, gemm, m);
    case RemoveUnused(id) => f := RemoveUnusedSound(e, id);
  }

  /** gs are the graphs that steps goes through. */
  ghost predicate IsRun(sem: Semantics, gs: seq<Graph>, steps: seq<Step>) {
    |gs| == |steps| + 1 &&
    forall i :: 0 <= i < |steps| ==> Enabled(gs[i], steps[i], sem) && gs[i + 1] == Next(gs[i], steps[i], sem)
  }

  lemma {:induction false} KeepsTransitive(e: Sound, f: Sound, h: Sound)
    requires Keeps(e, f) && Keeps(f, h)
    ensures Keeps(e, h)
  {
    forall id | id in h.g.nodes && id < e.g.next ensures id in f.g.nodes && id in e.g.nodes {
      assert id < f.g.next;
    }
  }

  lemma {:induction false} RunSound(e: Sound, gs: seq<Graph>, steps: seq<Step>) returns (f: Sound)
    requires IsRun(e.sem, gs, steps) && gs[0] == e.g
    ensures Keeps(e, f) && f.g == gs[|steps|]
    decreases |steps|
  {
    if steps == [] {
      f := e;
    } else {
      var n := |steps| - 1;
      var mid := RunSound(e, gs[..n + 1], steps[..n]);
      f := StepSound(mid, steps[n]);
      KeepsTransitive(e, mid, f);
    }
  }

  /** Whatever the order and the number of fusions, the final graph is closed, acyclic and keeps the
      operand convention, it has a valuation, and in every valuation of it the result and all surviving
      instructions have the values they had at the start. */
  lemma {:induction false} FusionsPreserveMeaning(
      sem: Semantics, gs: seq<Graph>, steps: seq<Step>, v: Valuation, rank: map<Id, nat>)
    returns (v': Valuation, rank': map<Id, nat>)
    requires TimesCommutes(sem) && IsRun(sem, gs, steps)
    requires Closed(gs[0]) && Conventional(gs[0]) && Ranked(gs[0], rank) && Models(sem, gs[0], v)
    ensures var g' := gs[|steps|];
            && Closed(g') && Conventional(g') && Ranked(g', rank') && Models(sem, g', v')
            && (forall w :: Models(sem, g', w) ==> Kept(gs[0], v, g', w))
  {
    var f := RunSound(Evaluated(sem, gs[0], v, rank), gs, steps);
    v', rank' := f.v, f.rank;
    var g' := gs[|steps|];
    forall w | Models(sem, g', w) ensures Kept(gs[0], v, g', w) {
      forall id | id in g'.nodes ensures id in w && w[id] == v'[id] {
        DenotationIsUnique(sem, g', rank', v', id);
        DenotationIsUnique(sem, g', rank', w, id);
      }
    }
  }
}
