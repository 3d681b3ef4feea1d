/** A small HLO graph with matrix-product custom calls, and what it computes.  Values are the
    physical buffers of the arrays, so a bitcast is the identity on values. */
module HloGraph {

  type Id = int
  type Buffer = seq<real>

  datatype Value = Array(data: Buffer) | Pair(first: Buffer, second: Buffer)

  datatype Epilogue = Default | Bias | Relu | BiasRelu | Gelu | GeluAux | BiasGelu | BiasGeluAux

  predicate HasBias(e: Epilogue) {
    e.Bias? || e.BiasRelu? || e.BiasGelu? || e.BiasGeluAux?
  }

  datatype ElementType = FusableFloat | S32 | OtherType

  /** product stands for the dot dimension numbers, the precision and alpha; columns is the number of
      elements in one row of the result, the product of its column dimensions. */
  datatype GemmConfig = GemmConfig(
    product: nat, columns: nat, lt: bool, elements: ElementType, beta: bool, epilogue: Epilogue)

  datatype Op =
    | Opaque(name: nat)               // parameters and everything the rewriter does not look into
    | Gemm(config: GemmConfig)
    | Add | Multiply | Maximum | Tanh
    | Splat(value: real)              // broadcast of a constant scalar
    | Broadcast(pick: seq<nat>)       // element i is element pick[i] of the operand buffer
    | Slice(pick: seq<nat>)
    | Bitcast
    | GetTupleElement(index: nat)

  /** size is the number of elements of the result, or of each component of a pair. */
  datatype Instr = Instr(op: Op, operands: seq<Id>, size: nat)

  /** Ids below next have been used; new instructions get id next. */
  datatype Graph = Graph(nodes: map<Id, Instr>, root: Id, next: Id)

  /** What the operations outside the model compute, multiplication (which only has to commute), and
      the two constants of the GELU approximation. */
  datatype Semantics = Semantics(
    product: (nat, Buffer, Buffer) -> Buffer,
    opaqueOp: (nat, seq<Value>, nat) -> Buffer,
    times: (real, real) -> real,
    tanh: real -> real,
    scale: real,
    cubic: real)

  ghost predicate TimesCommutes(sem: Semantics) {
    forall x, y :: sem.times(x, y) == sem.times(y, x)
  }

  function Elem(b: Buffer, i: nat): real {
    if i < |b| then b[i] else 0.0
  }

  function Arg(args: seq<Value>, k: nat): Buffer {
    if k < |args| && args[k].Array? then args[k].data else []
  }

  function Max(x: real, y: real): real {
    if x < y then y else x
  }

  function GeluOf(sem: Semantics, x: real): real {
    var cube := sem.times(x, sem.times(x, x));
    var inner := x + sem.times(sem.cubic, cube);
    sem.times(x, sem.times(0.5, 1.0 + sem.tanh(sem.times(sem.scale, inner))))
  }

  function Activate(sem: Semantics, e: Epilogue, x: real): real {
    match e
    case Default => x
    case Bias => x
    case Relu => Max(x, 0.0)
    case BiasRelu => Max(x, 0.0)
    case Gelu => GeluOf(sem, x)
    case GeluAux => GeluOf(sem, x)
    case BiasGelu => GeluOf(sem, x)
    case BiasGeluAux => GeluOf(sem, x)
  }

  /** The bias vector is the last operand; the epilogue adds its element number i modulo the columns of
      the result.  Beyond the end of the vector there is no element; the model reads a zero there. */
  function BiasAt(columns: nat, args: seq<Value>, i: nat): real {
    if args == [] || columns == 0 then 0.0 else Elem(Arg(args, |args| - 1), i % columns)
  }

  /** Element i of a matrix product before its activation: the matrix bias, if any, is operand 2. */
  function PreActivation(sem: Semantics, c: GemmConfig, args: seq<Value>, i: nat): real {
    Elem(sem.product(c.product, Arg(args, 0), Arg(args, 1)), i)
    + (if c.beta then Elem(Arg(args, 2), i) else 0.0)
    + (if HasBias(c.epilogue) then BiasAt(c.columns, args, i) else 0.0)
  }

  function GemmValue(sem: Semantics, c: GemmConfig, args: seq<Value>, size: nat): Value {
    var out := seq(size, i requires 0 <= i < size => Activate(sem, c.epilogue, PreActivation(sem, c, args, i)));
    if c.epilogue.GeluAux? || c.epilogue.BiasGeluAux? then
      Pair(out, seq(size, i requires 0 <= i < size => PreActivation(sem, c, args, i)))
    else Array(out)
  }

  function Pick(b: Buffer, pick: seq<nat>, size: nat): Buffer {
    seq(size, i requires 0 <= i < size => if i < |pick| then Elem(b, pick[i]) else 0.0)
  }

  function Component(args: seq<Value>, index: nat): Buffer {
    if args != [] && args[0].Pair? then (if index == 0 then args[0].first else args[0].second) else []
  }

  function Eval(sem: Semantics, x: Instr, args: seq<Value>): Value {
    var n := x.size;
    match x.op
    case Opaque(name) => Array(sem.opaqueOp(name, args, n))
    case Gemm(c) => GemmValue(sem, c, args, n)
    case Add => Array(seq(n, i requires 0 <= i < n => Elem(Arg(args, 0), i) + Elem(Arg(args, 1), i)))
    case Multiply => Array(seq(n, i requires 0 <= i < n => sem.times(Elem(Arg(args, 0), i), Elem(Arg(args, 1), i))))
    case Maximum => Array(seq(n, i requires 0 <= i < n => Max(Elem(Arg(args, 0), i), Elem(Arg(args, 1), i))))
    case Tanh => Array(seq(n, i requires 0 <= i < n => sem.tanh(Elem(Arg(args, 0), i))))
    case Splat(c) => Array(seq(n, i requires 0 <= i < n => c))
    case Broadcast(pick) => Array(Pick(Arg(args, 0), pick, n))
    case Slice(pick) => Array(Pick(Arg(args, 0), pick, n))
    case Bitcast => Array(Arg(args, 0))
    case GetTupleElement(k) => Array(Component(args, k))
  }

  // ---------------------------------------------------------------------------------------------
  // Valuations

  type Valuation = map<Id, Value>

  function Args(v: Valuation, ids: seq<Id>): (args: seq<Value>)
    ensures |args| == |ids|
  {
    seq(|ids|, i requires 0 <= i < |ids| => if ids[i] in v then v[ids[i]] else Array([]))
  }

  /** The graph is closed: operands and the root are nodes, and ids are below next. */
  ghost predicate Closed(g: Graph) {
    && g.root in g.nodes
    && (forall id :: id in g.nodes ==> id < g.next)
    && (forall id :: id in g.nodes ==> forall i :: 0 <= i < |g.nodes[id].operands| ==>
        g.nodes[id].operands[i] in g.nodes)
  }

  /** v gives every node the value its operation computes from its operands' values, and the size
      its shape says. */
  ghost predicate Models(sem: Semantics, g: Graph, v: Valuation) {
    forall id :: id in g.nodes ==> id in v && NodeOk(sem, g.nodes[id], v, id)
  }

  ghost predicate NodeOk(sem: Semantics, x: Instr, v: Valuation, id: Id)
    requires id in v
  {
    v[id] == Eval(sem, x, Args(v, x.operands)) && HasSize(v[id], x.size)
  }

  predicate HasSize(v: Value, n: nat) {
    match v
    case Array(d) => |d| == n
    case Pair(a, b) => |a| == n && |b| == n
  }

  /** Operands come before their users. */
  ghost predicate Ranked(g: Graph, rank: map<Id, nat>) {
    && (forall id :: id in g.nodes ==> id in rank)
    && (forall id :: id in g.nodes ==> forall i :: 0 <= i < |g.nodes[id].operands| ==>
          g.nodes[id].operands[i] in rank && rank[g.nodes[id].operands[i]] < rank[id])
  }

  /** What an instruction of a graph without cycles computes. */
  ghost function Denotation(sem: Semantics, g: Graph, rank: map<Id, nat>, id: Id): Value
    requires Closed(g) && Ranked(g, rank) && id in g.nodes
    decreases rank[id]
  {
    var x := g.nodes[id];
    Eval(sem, x, seq(|x.operands|, i requires 0 <= i < |x.operands| => Denotation(sem, g, rank, x.operands[i])))
  }

  /** The instruction's shape is an array, not a pair. */
  predicate IsArrayShaped(x: Instr) {
    !(x.op.Gemm? && (x.op.config.epilogue.GeluAux? || x.op.config.epilogue.BiasGeluAux?))
  }

  /** Sizes fit where an operation takes its size from its operand. */
  predicate SizesFit(g: Graph, x: Instr) {
    && (x.op.Bitcast? ==>
          && x.operands != [] && x.operands[0] in g.nodes && g.nodes[x.operands[0]].size == x.size
          && IsArrayShaped(g.nodes[x.operands[0]]))
    && (x.op.GetTupleElement? ==>
          && x.operands != [] && x.operands[0] in g.nodes && g.nodes[x.operands[0]].size == x.size
          && !IsArrayShaped(g.nodes[x.operands[0]]))
  }

  /** And the operations outside the model give results of the size asked for. */
  ghost predicate Sized(sem: Semantics, g: Graph) {
    && (forall name, args, n :: |sem.opaqueOp(name, args, n)| == n)
    && (forall id :: id in g.nodes ==> SizesFit(g, g.nodes[id]))
  }

  ghost predicate WellShaped(x: Instr, v: Value) {
    HasSize(v, x.size) && (v.Array? <==> IsArrayShaped(x))
  }

  lemma {:induction false} EvalIsShaped(sem: Semantics, g: Graph, x: Instr, args: seq<Value>)
    requires SizesFit(g, x) && |args| == |x.operands| && (forall name, a, n :: |sem.opaqueOp(name, a, n)| == n)
    requires forall i :: 0 <= i < |x.operands| ==>
               x.operands[i] in g.nodes && WellShaped(g.nodes[x.operands[i]], args[i])
    ensures WellShaped(x, Eval(sem, x, args))
  {
    if x.op.Bitcast? || x.op.GetTupleElement? {
      assert WellShaped(g.nodes[x.operands[0]], args[0]);
    }
  }

  lemma {:induction false} DenotationIsShaped(sem: Semantics, g: Graph, rank: map<Id, nat>, id: Id)
    requires Closed(g) && Ranked(g, rank) && Sized(sem, g) && id in g.nodes
    ensures WellShaped(g.nodes[id], Denotation(sem, g, rank, id))
    decreases rank[id]
  {
    var x := g.nodes[id];
    var args := seq(|x.operands|, i requires 0 <= i < |x.operands| => Denotation(sem, g, rank, x.operands[i]));
    forall i | 0 <= i < |x.operands| ensures x.operands[i] in g.nodes && WellShaped(g.nodes[x.operands[i]], args[i]) {
      DenotationIsShaped(sem, g, rank, x.operands[i]);
    }
    EvalIsShaped(sem, g, x, args);
  }

  ghost function Denotations(sem: Semantics, g: Graph, rank: map<Id, nat>): Valuation
    requires Closed(g) && Ranked(g, rank)
  {
    map id | id in g.nodes :: Denotation(sem, g, rank, id)
  }

  /** A graph without cycles whose sizes fit has a valuation: the denotations. */
  lemma {:induction false} DenotationsAreValuation(sem: Semantics, g: Graph, rank: map<Id, nat>)
    requires Closed(g) && Ranked(g, rank) && Sized(sem, g)
    ensures Models(sem, g, Denotations(sem, g, rank))
  {
    var v := Denotations(sem, g, rank);
    forall id | id in g.nodes ensures NodeOk(sem, g.nodes[id], v, id) {
      var x := g.nodes[id];
      DenotationIsShaped(sem, g, rank, id);
      assert Args(v, x.operands) ==
             seq(|x.operands|, i requires 0 <= i < |x.operands| => Denotation(sem, g, rank, x.operands[i]));
    }
  }

  /** And there is no other: a graph without cycles denotes one value per instruction. */
  lemma {:induction false} DenotationIsUnique(sem: Semantics, g: Graph, rank: map<Id, nat>, v: Valuation, id: Id)
    requires Closed(g) && Ranked(g, rank) && Models(sem, g, v) && id in g.nodes
    ensures v[id] == Denotation(sem, g, rank, id)
    decreases rank[id]
  {
    var x := g.nodes[id];
    forall i | 0 <= i < |x.operands|
      ensures x.operands[i] in g.nodes && x.operands[i] in v &&
                v[x.operands[i]] == Denotation(sem, g, rank, x.operands[i])
    {
      assert x.operands[i] in g.nodes;
      DenotationIsUnique(sem, g, rank, v, x.operands[i]);
    }
    assert NodeOk(sem, x, v, id);
    assert Args(v, x.operands) == seq(|x.operands|, i requires 0 <= i < |x.operands| => Denotation(sem, g, rank,
        x.operands[i]));
  }

  // ---------------------------------------------------------------------------------------------
  // Adding and replacing instructions

  function AddNode(g: Graph, x: Instr): Graph {
    g.(nodes := g.nodes[g.next := x], next := g.next + 1)
  }

  function Redirect(ids: seq<Id>, from: Id, to: Id): (r: seq<Id>)
    ensures |r| == |ids|
  {
    seq(|ids|, i requires 0 <= i < |ids| => if ids[i] == from then to else ids[i])
  }

  /** All users of `from` use `to` instead, and `from` is removed. */
  function Replace(g: Graph, from: Id, to: Id): Graph {
    Graph(map id | id in g.nodes && id != from :: g.nodes[id].(operands := Redirect(g.nodes[id].operands, from, to)),
          if g.root == from then to else g.root,
          g.next)
  }

  function Users(g: Graph, id: Id): set<Id> {
    set u | u in g.nodes && id in g.nodes[u].operands
  }

  lemma {:induction false} ReplaceModels(sem: Semantics, g: Graph, v: Valuation, from: Id, to: Id)
    requires Closed(g) && Models(sem, g, v)
    requires from in g.nodes && to in g.nodes && from != to && v[from] == v[to]
    ensures Closed(Replace(g, from, to)) && Models(sem, Replace(g, from, to), v)
  {
    var g' := Replace(g, from, to);
    forall id | id in g'.nodes ensures NodeOk(sem, g'.nodes[id], v, id) {
      assert NodeOk(sem, g.nodes[id], v, id);
      assert Args(v, g'.nodes[id].operands) == Args(v, g.nodes[id].operands);
    }
  }

  lemma {:induction false} ReplaceRanked(g: Graph, rank: map<Id, nat>, from: Id, to: Id)
    requires Closed(g) && Ranked(g, rank) && from in g.nodes && to in g.nodes && from != to && rank[to] <= rank[from]
    ensures Ranked(Replace(g, from, to), rank)
  {
    var g' := Replace(g, from, to);
    forall id | id in g'.nodes
      ensures forall i :: 0 <= i < |g'.nodes[id].operands| ==>
                g'.nodes[id].operands[i] in rank && rank[g'.nodes[id].operands[i]] < rank[id]
    {
      assert |g'.nodes[id].operands| == |g.nodes[id].operands|;
    }
  }

  /** Spread ranks out to make room for new instructions in between. */
  function Spread(rank: map<Id, nat>): map<Id, nat> {
    map id | id in rank :: 3 * rank[id]
  }
}
