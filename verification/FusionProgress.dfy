/** What a fusion takes out of the graph, and why fusing comes to an end. */
module FusionProgress {
  import opened EpilogueFusion
  import opened HloGraph

  ghost predicate IdsBelowNext(g: Graph) {
    forall id :: id in g.nodes ==> id < g.next
  }

  // ---------------------------------------------------------------------------------------------
  // Each fusion replaces one instruction

  /** The instruction that a step takes out. */
  function Victim(s: Step): Id {
    match s
    case FuseVectorBias(sum, _, _, _) => sum
    case FuseMatrixBias(sum, _, _, _) => sum
    case MoveBitcast(sum, _, _, _) => sum
    case FuseRelu(max, _, _, _) => max
    case FuseGelu(target, _, _) => target
    case RemoveUnused(id) => id
  }

  /** Neither in the graph nor used in it. */
  ghost predicate Gone(g: Graph, id: Id) {
    id !in g.nodes && g.root != id && forall u :: u in g.nodes ==> id !in g.nodes[u].operands
  }

  lemma {:induction false} ReplaceGone(g: Graph, from: Id, to: Id)
    requires from != to
    ensures Gone(Replace(g, from, to), from)
  {
    forall u | u in g.nodes ensures from !in Redirect(g.nodes[u].operands, from, to) {
    }
  }

  /** The graph has a gemm of this configuration in place of the old one. */
  ghost predicate Carries(g: Graph, id: Id, config: GemmConfig, size: nat) {
    id in g.nodes && g.nodes[id].op == Gemm(config) && g.nodes[id].size == size
  }

  /** What a fusion makes of the configuration: a vector bias, a matrix bias or an activation more. */
  ghost predicate Fuses(s: Step, users: nat, was: GemmConfig, c: GemmConfig) {
    match s
    case FuseVectorBias(_, _, _, _) => was.epilogue.Default? && c == was.(epilogue := Bias)
    case FuseMatrixBias(_, _, _, _) => !was.beta && c == was.(beta := true)
    case FuseRelu(_, _, _, _) =>
      c == was.(epilogue := if was.epilogue.Bias? then BiasRelu else Relu)
    case FuseGelu(_, _, _) =>
      && c == was.(epilogue := c.epilogue) && HasBias(c.epilogue) == HasBias(was.epilogue)
      && (if users > 4 then c.epilogue.GeluAux? || c.epilogue.BiasGeluAux?
          else c.epilogue.Gelu? || c.epilogue.BiasGelu?)
    case MoveBitcast(_, _, _, _) => false
    case RemoveUnused(_) => false
  }

  predicate IsFusion(s: Step) {
    !s.MoveBitcast? && !s.RemoveUnused?
  }

  /** Every step takes its instruction out, with all uses, and a fusion puts in the gemm that does its
      work as well. */
  lemma {:induction false} FusionReplaces(g: Graph, s: Step, sem: Semantics)
    requires Closed(g) && Enabled(g, s, sem)
    ensures Replaces(g, s, Next(g, s, sem))
  {
    match s
    case FuseVectorBias(_, _, _, _) => VectorBiasReplaces(g, s, sem);
    case FuseMatrixBias(_, _, _, _) => MatrixBiasReplaces(g, s, sem);
    case MoveBitcast(_, _, _, _) => BitcastReplaces(g, s, sem);
    case FuseRelu(_, _, _, _) => ReluReplaces(g, s, sem);
    case FuseGelu(_, _, _) => GeluReplaces(g, s, sem);
    case RemoveUnused(id) => UnusedGone(g, id);
  }

  ghost predicate Replaces(g: Graph, s: Step, g': Graph) {
    Victim(s) in g.nodes && Gone(g', Victim(s)) && (IsFusion(s) ==> IsGemm(g, s.gemm) && PutsIn(g, s, g'))
  }

  /** The new graph has the gemm that does the work of the fused instruction as well. */
  ghost predicate PutsIn(g: Graph, s: Step, g': Graph)
    requires IsFusion(s) && IsGemm(g, s.gemm)
  {
    exists config :: Fuses(s, |Users(g, s.gemm)|, g.nodes[s.gemm].op.config, config) &&
                     Carries(g', g.next, config, g.nodes[s.gemm].size)
  }

  lemma {:induction false} VectorBiasReplaces(g: Graph, s: Step, sem: Semantics)
    requires IdsBelowNext(g) && Enabled(g, s, sem) && s.FuseVectorBias?
    ensures Replaces(g, s, Next(g, s, sem))
  {
    var x := VectorFusedInstr(g.nodes[s.gemm], g.nodes[s.broadcast].operands[0]);
    UnderViewReplaces(g, s.view, s.gemm, x, s.sum);
    assert Fuses(s, |Users(g, s.gemm)|, g.nodes[s.gemm].op.config, x.op.config);
  }

  lemma {:induction false} MatrixBiasReplaces(g: Graph, s: Step, sem: Semantics)
    requires IdsBelowNext(g) && Enabled(g, s, sem) && s.FuseMatrixBias?
    ensures Replaces(g, s, Next(g, s, sem))
  {
    var x := MatrixFusedInstr(g.nodes[s.gemm], s.bias);
    ReplaceGone(AddNode(g, x), s.sum, g.next);
    assert Carries(Next(g, s, sem), g.next, x.op.config, x.size);
    assert Fuses(s, |Users(g, s.gemm)|, g.nodes[s.gemm].op.config, x.op.config);
  }

  lemma {:induction false} ReluReplaces(g: Graph, s: Step, sem: Semantics)
    requires IdsBelowNext(g) && Enabled(g, s, sem) && s.FuseRelu?
    ensures Replaces(g, s, Next(g, s, sem))
  {
    var x := ReluFusedInstr(g.nodes[s.gemm]);
    UnderViewReplaces(g, s.view, s.gemm, x, s.max);
    assert Fuses(s, |Users(g, s.gemm)|, g.nodes[s.gemm].op.config, x.op.config);
  }

  lemma {:induction false} GeluFacts(g: Graph, target: Id, gemm: Id, m: GeluMatch, sem: Semantics)
    requires GeluGuard(g, target, gemm, m, sem)
    ensures target in g.nodes && IsGemm(g, gemm) && (g.nodes[target].op.Multiply? || g.nodes[target].op.Bitcast?)
    ensures ActivationFree(g.nodes[gemm].op.config)
  {
  }

  predicate ActivationFree(c: GemmConfig) {
    c.epilogue.Default? || c.epilogue.Bias?
  }

  lemma {:induction false} GeluReplaces(g: Graph, s: Step, sem: Semantics)
    requires IdsBelowNext(g) && Enabled(g, s, sem) && s.FuseGelu?
    ensures Replaces(g, s, Next(g, s, sem))
  {
    GeluFacts(g, s.target, s.gemm, s.m, sem);
    GeluPutsIn(g, s, s.target, s.gemm, |Users(g, s.gemm)|);
  }

  lemma {:induction false} UnderViewReplaces(g: Graph, view: Id, gemm: Id, x: Instr, from: Id)
    requires IdsBelowNext(g) && view in g.nodes && from in g.nodes && x.op.Gemm?
    ensures Gone(FuseUnderView(g, view, gemm, x, from), from)
    ensures Carries(FuseUnderView(g, view, gemm, x, from), g.next, x.op.config, x.size)
  {
    ReplaceGone(UnderView(g, view, gemm, x), from, if view == gemm then g.next else g.next + 1);
  }

  lemma {:induction false} BitcastReplaces(g: Graph, s: Step, sem: Semantics)
    requires IdsBelowNext(g) && Enabled(g, s, sem) && s.MoveBitcast?
    ensures Replaces(g, s, Next(g, s, sem))
  {
    var n := g.nodes[s.gemm].size;
    var g2 := AddNode(AddNode(g, Instr(Bitcast, [s.bias], n)), Instr(Add, [s.gemm, g.next], n));
    ReplaceGone(AddNode(g2, Instr(Bitcast, [g.next + 1], n)), s.sum, g.next + 2);
  }

  lemma {:induction false} GeluPutsIn(g: Graph, s: Step, target: Id, gemm: Id, users: nat)
    requires IdsBelowNext(g) && target in g.nodes && IsGemm(g, gemm) && ActivationFree(g.nodes[gemm].op.config)
    requires s.FuseGelu? && s.gemm == gemm && s.target == target && users == |Users(g, gemm)|
    ensures Replaces(g, s, GeluReplaced(g, target, gemm, users > 4))
  {
    var x := GeluFusedInstr(g.nodes[gemm], users > 4);
    var g' := GeluReplaced(g, target, gemm, users > 4);
    if users > 4 {
      var g1 := AddNode(AddNode(g, x), Instr(GetTupleElement(1), [g.next], x.size));
      var g3 := AddNode(g1, Instr(GetTupleElement(0), [g.next], x.size));
      ReplaceGone(Replace(g3, gemm, g.next + 1), target, g.next + 2);
    } else {
      ReplaceGone(AddNode(g, x), target, g.next);
    }
    assert Carries(g', g.next, x.op.config, x.size);
    assert Fuses(s, users, g.nodes[gemm].op.config, x.op.config);
  }

  lemma {:induction false} UnusedGone(g: Graph, id: Id)
    requires id in g.nodes && id != g.root && Users(g, id) == {}
    ensures Gone(g.(nodes := g.nodes - {id}), id)
  {
    forall u | u in g.nodes ensures id !in g.nodes[u].operands {
      assert u !in Users(g, id);
    }
  }

  // ---------------------------------------------------------------------------------------------
  // Fusing terminates

  function Cost(op: Op): nat {
    if op.Add? || op.Multiply? || op.Maximum? then 5 else if op.Bitcast? then 3 else 1
  }

  predicate Costs(g: Graph, id: Id, cost: nat) {
    id in g.nodes && Cost(g.nodes[id].op) == cost
  }

  ghost function Costing(g: Graph, cost: nat): set<Id> {
    set id | id in g.nodes && Costs(g, id, cost)
  }

  /** What there is left to do: additions, products and maxima count five, bitcasts three, the rest one. */
  ghost function Load(g: Graph): nat {
    |Costing(g, 1)| + 3 * |Costing(g, 3)| + 5 * |Costing(g, 5)|
  }

  /** Without instruction id, and with all other operations as they are. */
  ghost predicate Without(g: Graph, g': Graph, id: Id) {
    id in g.nodes && id !in g'.nodes && forall u, cost :: u != id ==> (Costs(g', u, cost) <==> Costs(g, u, cost))
  }

  lemma {:induction false} CostingWithout(g: Graph, g': Graph, id: Id, cost: nat)
    requires Without(g, g', id)
    ensures |Costing(g, cost)| == |Costing(g', cost)| + if Costs(g, id, cost) then 1 else 0
  {
    var all, others := Costing(g, cost), Costing(g', cost);
    if Costs(g, id, cost) {
      assert all == others + {id};
    } else {
      assert all == others;
    }
  }

  lemma {:induction false} LoadWithout(g: Graph, g': Graph, id: Id)
    requires Without(g, g', id)
    ensures Load(g) == Load(g') + Cost(g.nodes[id].op)
  {
    CostingWithout(g, g', id, 1);
    CostingWithout(g, g', id, 3);
    CostingWithout(g, g', id, 5);
  }

  lemma {:induction false} LoadAdded(g: Graph, x: Instr)
    requires IdsBelowNext(g)
    ensures IdsBelowNext(AddNode(g, x)) && Load(AddNode(g, x)) == Load(g) + Cost(x.op)
  {
    LoadWithout(AddNode(g, x), g, g.next);
  }

  lemma {:induction false} LoadReplaced(g: Graph, from: Id, to: Id)
    requires from in g.nodes && IdsBelowNext(g)
    ensures IdsBelowNext(Replace(g, from, to)) && Load(Replace(g, from, to)) == Load(g) - Cost(g.nodes[from].op)
  {
    LoadWithout(g, Replace(g, from, to), from);
  }

  lemma {:induction false} UnderViewLoad(g: Graph, view: Id, gemm: Id, x: Instr, from: Id)
    requires IdsBelowNext(g) && view in g.nodes && from in g.nodes && x.op.Gemm? && Cost(g.nodes[from].op) == 5
    requires view == gemm || g.nodes[view].op.Slice? || g.nodes[view].op.Bitcast?
    ensures var g' := FuseUnderView(g, view, gemm, x, from); IdsBelowNext(g') && Load(g') < Load(g)
  {
    LoadAdded(g, x);
    if view != gemm {
      LoadAdded(AddNode(g, x), g.nodes[view].(operands := [g.next]));
    }
    LoadReplaced(UnderView(g, view, gemm, x), from, if view == gemm then g.next else g.next + 1);
  }

  lemma {:induction false} BitcastLoad(g: Graph, sum: Id, gemm: Id, bias: Id, n: nat)
    requires IdsBelowNext(g) && sum in g.nodes && g.nodes[sum].op.Add?
    ensures var g' := BitcastMoved(g, sum, gemm, bias, n); IdsBelowNext(g') && Load(g') == Load(g) + 6
  {
    var g1 := AddNode(g, Instr(Bitcast, [bias], n));
    var g2 := AddNode(g1, Instr(Add, [gemm, g.next], n));
    LoadAdded(g, Instr(Bitcast, [bias], n));
    LoadAdded(g1, Instr(Add, [gemm, g.next], n));
    LoadAdded(g2, Instr(Bitcast, [g.next + 1], n));
    LoadReplaced(AddNode(g2, Instr(Bitcast, [g.next + 1], n)), sum, g.next + 2);
  }

  lemma {:induction false} ComponentsLoad(g: Graph, x: Instr, n: nat)
    requires IdsBelowNext(g) && x.op.Gemm?
    ensures var g1 := AddNode(g, x);
            var g3 := AddNode(AddNode(g1, Instr(GetTupleElement(1), [g.next], n)),
                Instr(GetTupleElement(0), [g.next], n));
            IdsBelowNext(g3) && Load(g3) == Load(g) + 3
  {
    var first, second := Instr(GetTupleElement(1), [g.next], n), Instr(GetTupleElement(0), [g.next], n);
    LoadAdded(g, x);
    LoadAdded(AddNode(g, x), first);
    LoadAdded(AddNode(AddNode(g, x), first), second);
  }

  lemma {:induction false} TwoReplacedLoad(g: Graph, gemm: Id, gemm': Id, target: Id, target': Id)
    requires IdsBelowNext(g) && IsGemm(g, gemm) && target in g.nodes && Cost(g.nodes[target].op) >= 3
    ensures var g' := Replace(Replace(g, gemm, gemm'), target, target');
            IdsBelowNext(g') && Load(g') == Load(g) - 1 - Cost(g.nodes[target].op)
  {
    LoadReplaced(g, gemm, gemm');
    LoadReplaced(Replace(g, gemm, gemm'), target, target');
  }

  lemma {:induction false} GeluAuxLoad(g: Graph, target: Id, gemm: Id, x: Instr)
    requires IdsBelowNext(g) && target in g.nodes && Cost(g.nodes[target].op) >= 3 && IsGemm(g, gemm) && x.op.Gemm?
    ensures var g' := GeluAuxFused(g, target, gemm, x); IdsBelowNext(g') && Load(g') < Load(g)
  {
    var g1 := AddNode(AddNode(g, x), Instr(GetTupleElement(1), [g.next], x.size));
    var g3 := AddNode(g1, Instr(GetTupleElement(0), [g.next], x.size));
    assert GeluAuxFused(g, target, gemm, x) == Replace(Replace(g3, gemm, g.next + 1), target, g.next + 2);
    ComponentsLoad(g, x, x.size);
    assert g3.nodes[gemm] == g.nodes[gemm] && g3.nodes[target] == g.nodes[target];
    TwoReplacedLoad(g3, gemm, g.next + 1, target, g.next + 2);
  }

  lemma {:induction false} GeluLoad(g: Graph, target: Id, gemm: Id, aux: bool)
    requires IdsBelowNext(g) && target in g.nodes && Cost(g.nodes[target].op) >= 3 && IsGemm(g, gemm)
    ensures var g' := GeluReplaced(g, target, gemm, aux); IdsBelowNext(g') && Load(g') < Load(g)
  {
    var x := GeluFusedInstr(g.nodes[gemm], aux);
    if aux {
      GeluAuxLoad(g, target, gemm, x);
    } else {
      GemmLoad(g, target, x);
    }
  }

  lemma {:induction false} GeluStepLoad(g: Graph, target: Id, gemm: Id, m: GeluMatch, sem: Semantics)
    requires IdsBelowNext(g) && GeluGuard(g, target, gemm, m, sem)
    ensures var g' := GeluReplaced(g, target, gemm, |Users(g, gemm)| > 4); IdsBelowNext(g') && Load(g') < Load(g)
  {
    GeluFacts(g, target, gemm, m, sem);
    GeluLoad(g, target, gemm, |Users(g, gemm)| > 4);
  }

  lemma {:induction false} GemmLoad(g: Graph, from: Id, x: Instr)
    requires IdsBelowNext(g) && from in g.nodes && Cost(g.nodes[from].op) >= 3 && x.op.Gemm?
    ensures var g' := Replace(AddNode(g, x), from, g.next); IdsBelowNext(g') && Load(g') < Load(g)
  {
    LoadAdded(g, x);
    LoadReplaced(AddNode(g, x), from, g.next);
  }

  lemma {:induction false} UnusedLoad(g: Graph, id: Id)
    requires id in g.nodes
    ensures Load(g.(nodes := g.nodes - {id})) < Load(g)
  {
    LoadWithout(g, g.(nodes := g.nodes - {id}), id);
  }

  /** Every step but the moving of a bitcast lowers the load, and that raises it by six. */
  lemma {:induction false} StepLoad(g: Graph, s: Step, sem: Semantics)
    requires IdsBelowNext(g) && Enabled(g, s, sem)
    ensures IdsBelowNext(Next(g, s, sem))
    ensures if s.MoveBitcast? then Load(Next(g, s, sem)) == Load(g) + 6 else Load(Next(g, s, sem)) < Load(g)
  {
    match s
    case FuseVectorBias(sum, view, gemm, broadcast) =>
      UnderViewLoad(g, view, gemm, VectorFusedInstr(g.nodes[gemm], g.nodes[broadcast].operands[0]), sum);
    case FuseMatrixBias(sum, gemm, bias, _) => GemmLoad(g, sum, MatrixFusedInstr(g.nodes[gemm], bias));
    case MoveBitcast(sum, view, gemm, bias) => BitcastLoad(g, sum, gemm, bias, g.nodes[gemm].size);
    case FuseRelu(max, view, gemm, zeros) => UnderViewLoad(g, view, gemm, ReluFusedInstr(g.nodes[gemm]), max);
    case FuseGelu(target, gemm, m) => GeluStepLoad(g, target, gemm, m, sem);
    case RemoveUnused(id) => UnusedLoad(g, id);
  }

  function Moves(steps: seq<Step>): nat {
    if steps == [] then 0 else Moves(steps[..|steps| - 1]) + if steps[|steps| - 1].MoveBitcast? then 1 else 0
  }

  /** No run is longer than the load of the graph it starts from, but for seven steps for each bitcast
      that it moves. */
  lemma {:induction false} FusionTerminates(sem: Semantics, gs: seq<Graph>, steps: seq<Step>)
    requires IsRun(sem, gs, steps) && IdsBelowNext(gs[0])
    ensures |steps| + Load(gs[|steps|]) <= Load(gs[0]) + 7 * Moves(steps)
    ensures IdsBelowNext(gs[|steps|])
    decreases |steps|
  {
    if steps != [] {
      var n := |steps| - 1;
      FusionTerminates(sem, gs[..n + 1], steps[..n]);
      StepLoad(gs[n], steps[n], sem);
    }
  }
}
