/** The search for an FP8 operand: a depth-first search that shares one set of visited instructions
    among all its branches. */
module F8Search {
  import opened Ordering
  import opened Wrappers

  type Id = nat

  datatype Opcode = Divide | Pad | Multiply | Other

  datatype Instr = Instr(opcode: Opcode, operands: seq<Id>, isF8: bool)

  type Graph = map<Id, Instr>

  /** The operands the search may follow. */
  function Followed(x: Instr): seq<Id> {
    if |x.operands| == 1 || ((x.opcode.Divide? || x.opcode.Pad?) && x.operands != []) then [x.operands[0]]
    else if x.opcode.Multiply? && |x.operands| == 2 then x.operands
    else []
  }

  /** Operand 0 of unary instructions, divides and pads, and both operands of multiplies. */
  predicate MayFollow(x: Instr, k: nat) {
    k < |x.operands| &&
    if |x.operands| == 1 || x.opcode.Divide? || x.opcode.Pad? then k == 0 else x.opcode.Multiply? && |x.operands| == 2
  }

  ghost predicate Edge(x: Instr, id: Id) {
    exists k :: 0 <= k < |x.operands| && MayFollow(x, k) && x.operands[k] == id
  }

  lemma {:induction false} FollowedByPosition(x: Instr, id: Id)
    ensures id in Followed(x) <==> Edge(x, id)
  {
    if id in Followed(x) {
      var k :| 0 <= k < |Followed(x)| && Followed(x)[k] == id;
      assert MayFollow(x, k) && x.operands[k] == id;
    }
  }

  /** Divide, pad and multiply are binary, and operands are instructions that come earlier. */
  ghost predicate Acyclic(g: Graph, rank: map<Id, nat>) {
    && g.Keys <= rank.Keys
    && (forall id :: id in g && !g[id].opcode.Other? ==> |g[id].operands| == 2)
    && (forall id, i :: id in g && 0 <= i < |g[id].operands| ==>
          g[id].operands[i] in g && rank[g[id].operands[i]] < rank[id])
  }

  // ---------------------------------------------------------------------------------------------
  // Paths to an FP8 instruction

  /** p leads from id along such operands to an FP8 instruction. */
  ghost predicate LeadsToF8(g: Graph, id: Id, p: seq<Id>) {
    && p != [] && p[0] == id
    && (forall i :: 0 <= i < |p| ==> p[i] in g)
    && (forall i :: 0 <= i < |p| - 1 ==> Edge(g[p[i]], p[i + 1]))
    && g[p[|p| - 1]].isF8
  }

  /** So does p, and that instruction is the first of its kind on the way. */
  ghost predicate IsF8Path(g: Graph, id: Id, p: seq<Id>) {
    LeadsToF8(g, id, p) && forall i :: 0 <= i < |p| - 1 ==> !g[p[i]].isF8
  }

  /** The search without a visited set. */
  ghost function Naive(g: Graph, rank: map<Id, nat>, id: Id): Option<seq<Id>>
    requires Acyclic(g, rank) && id in g
    decreases rank[id]
  {
    var next := Followed(g[id]);
    if g[id].isF8 then Some([id])
    else if next == [] then None
    else
      var first := Naive(g, rank, next[0]);
      if first.Some? || |next| == 1 then Under(id, first) else Under(id, Naive(g, rank, next[1]))
  }

  function Under(id: Id, p: Option<seq<Id>>): Option<seq<Id>> {
    if p.Some? then Some([id] + p.value) else None
  }

  lemma {:induction false} ExtendPath(g: Graph, id: Id, p: seq<Id>)
    requires id in g && !g[id].isF8 && p != [] && Edge(g[id], p[0]) && IsF8Path(g, p[0], p)
    ensures IsF8Path(g, id, [id] + p)
  {
    var q := [id] + p;
    forall i | 0 <= i < |q| - 1 ensures !g[q[i]].isF8 && Edge(g[q[i]], q[i + 1]) {
      if i > 0 {
        assert q[i] == p[i - 1] && q[i + 1] == p[i];
      }
    }
  }

  /** Which operand's path it takes. */
  lemma {:induction false} NaiveByPosition(g: Graph, rank: map<Id, nat>, id: Id)
    requires Acyclic(g, rank) && id in g && !g[id].isF8
    ensures var x := g[id];
            Naive(g, rank, id) ==
            if |x.operands| == 1 || x.opcode.Divide? || x.opcode.Pad? then Under(id, Naive(g, rank, x.operands[0]))
            else if x.opcode.Other? then None
            else Under(id, if Naive(g, rank, x.operands[0]).Some? then Naive(g, rank, x.operands[0])
                           else Naive(g, rank, x.operands[1]))
  {
    var x, next := g[id], Followed(g[id]);
    if |x.operands| == 1 || x.opcode.Divide? || x.opcode.Pad? {
      assert next == [x.operands[0]];
    } else if x.opcode.Multiply? {
      assert next == x.operands;
    }
  }

  /** What the naive search returns is a path to an FP8 instruction. */
  lemma {:induction false} NaiveIsPath(g: Graph, rank: map<Id, nat>, id: Id)
    requires Acyclic(g, rank) && id in g && Naive(g, rank, id).Some?
    ensures IsF8Path(g, id, Naive(g, rank, id).value)
    decreases rank[id]
  {
    var next := Followed(g[id]);
    if !g[id].isF8 {
      var k := if Naive(g, rank, next[0]).Some? then 0 else 1;
      NaiveIsPath(g, rank, next[k]);
      FollowedByPosition(g[id], next[k]);
      ExtendPath(g, id, Naive(g, rank, next[k]).value);
    }
  }

  /** It finds one whenever there is one. */
  lemma {:induction false} NaiveFinds(g: Graph, rank: map<Id, nat>, id: Id, p: seq<Id>)
    requires Acyclic(g, rank) && LeadsToF8(g, id, p)
    ensures Naive(g, rank, id).Some?
    decreases |p|
  {
    if |p| > 1 {
      var rest := p[1..];
      assert Edge(g[p[0]], p[0 + 1]);
      FollowedByPosition(g[p[0]], p[1]);
      forall i | 0 <= i < |rest| - 1 ensures Edge(g[rest[i]], rest[i + 1]) {
        assert rest[i] == p[i + 1] && rest[i + 1] == p[i + 1 + 1];
      }
      assert LeadsToF8(g, rest[0], rest);
      NaiveFinds(g, rank, rest[0], rest);
    }
  }

  // ---------------------------------------------------------------------------------------------
  // The search

  /** Instructions visited earlier are above instr, on the way to it, or lead to no FP8 instruction. */
  ghost predicate Fruitless(g: Graph, rank: map<Id, nat>, visited: set<Id>, instr: Id)
    requires Acyclic(g, rank) && instr in g
  {
    visited <= g.Keys && forall id :: id in visited && rank[id] <= rank[instr] ==> Naive(g, rank, id).None?
  }

  /** The instructions seen so far in front of the path found. */
  function After(subgraph: seq<Id>, p: Option<seq<Id>>): Option<seq<Id>> {
    if p.Some? then Some(subgraph + p.value) else None
  }

  lemma {:induction false} AfterUnder(subgraph: seq<Id>, id: Id, p: Option<seq<Id>>)
    ensures After(subgraph + [id], p) == After(subgraph, Under(id, p))
  {
    if p.Some? {
      assert subgraph + [id] + p.value == subgraph + ([id] + p.value);
    }
  }

  ghost predicate Barren(g: Graph, rank: map<Id, nat>, ids: set<Id>)
    requires Acyclic(g, rank)
  {
    ids <= g.Keys && forall id :: id in ids ==> Naive(g, rank, id).None?
  }

  /** Every entry marks an instruction that was not marked before, and none above instr. */
  ghost predicate Entered(g: Graph, rank: map<Id, nat>, instr: Id, visited: set<Id>, visited': set<Id>, entries: nat)
    requires Acyclic(g, rank) && instr in g
  {
    && visited <= visited' <= g.Keys && |visited'| == |visited| + entries
    && forall id :: id in visited' && id !in visited ==> rank[id] <= rank[instr]
  }

  lemma {:induction false} StillFruitless(g: Graph, rank: map<Id, nat>, instr: Id, operand: Id, visited: set<Id>,
      between: set<Id>, n: nat)
    requires Acyclic(g, rank) && instr in g && operand in g && rank[operand] < rank[instr]
    requires Fruitless(g, rank, visited, instr) && Entered(g, rank, instr, visited, between, n)
    requires Barren(g, rank, between - visited - {instr})
    ensures Fruitless(g, rank, between, operand)
  {
  }

  lemma {:induction false} FirstEntry(g: Graph, rank: map<Id, nat>, instr: Id, visited: set<Id>)
    requires Acyclic(g, rank) && instr in g && Fruitless(g, rank, visited, instr) && instr !in visited
    ensures Entered(g, rank, instr, visited, visited + {instr}, 1)
    ensures Barren(g, rank, visited + {instr} - visited - {instr})
  {
  }

  /** Following one operand after some entries. */
  lemma {:induction false} EnteredBelow(g: Graph, rank: map<Id, nat>, instr: Id, operand: Id, visited: set<Id>,
      between: set<Id>,
                                        visited': set<Id>, n: nat, m: nat)
    requires Acyclic(g, rank) && instr in g && operand in g && rank[operand] < rank[instr]
    requires Entered(g, rank, instr, visited, between, n) && Entered(g, rank, operand, between, visited', m)
    ensures Entered(g, rank, instr, visited, visited', n + m)
    ensures Barren(g, rank, between - visited - {instr}) && Barren(g, rank, visited' - between)
        ==> Barren(g, rank, visited' - visited - {instr})
  {
  }

  lemma {:induction false} BarrenToo(g: Graph, rank: map<Id, nat>, instr: Id, ids: set<Id>)
    requires Acyclic(g, rank) && instr in g && Barren(g, rank, ids - {instr}) && Naive(g, rank, instr).None?
    ensures Barren(g, rank, ids)
  {
  }

  /** The naive search follows the operands in turn. */
  lemma {:induction false} NaiveStep(g: Graph, rank: map<Id, nat>, instr: Id, k: nat)
    requires Acyclic(g, rank) && instr in g && !g[instr].isF8 && k < |Followed(g[instr])|
    requires forall j :: 0 <= j < k ==> Naive(g, rank, Followed(g[instr])[j]).None?
    requires Naive(g, rank, Followed(g[instr])[k]).Some? || k == |Followed(g[instr])| - 1
    ensures Naive(g, rank, instr) == Under(instr, Naive(g, rank, Followed(g[instr])[k]))
  {
  }

  /** entries counts the instructions that this call and the calls below it entered. */
  method FindF8SubgraphRecursive(g: Graph, ghost rank: map<Id, nat>, instr: Id, visited: set<Id>, subgraph: seq<Id>)
    returns (found: Option<seq<Id>>, visited': set<Id>, ghost entries: nat)
    requires Acyclic(g, rank) && instr in g && Fruitless(g, rank, visited, instr)
    ensures found == After(subgraph, Naive(g, rank, instr))
    ensures Entered(g, rank, instr, visited, visited', entries)
    ensures found.None? ==> Barren(g, rank, visited' - visited)
    decreases rank[instr]
  {
    if instr in visited {
      return None, visited, 0;
    }
    visited', entries := visited + {instr}, 1;
    FirstEntry(g, rank, instr, visited);
    var subgraph' := subgraph + [instr];
    var x := g[instr];
    ghost var below: nat;
    if x.isF8 {
      return Some(subgraph'), visited', entries;
    } else if |x.operands| == 1 || x.opcode.Divide? || x.opcode.Pad? {
      ghost var between := visited';
      StillFruitless(g, rank, instr, x.operands[0], visited, visited', entries);
      found, visited', below := FindF8SubgraphRecursive(g, rank, x.operands[0], visited', subgraph');
      EnteredBelow(g, rank, instr, x.operands[0], visited, between, visited', entries, below);
      NaiveStep(g, rank, instr, 0);
      AfterUnder(subgraph, instr, Naive(g, rank, x.operands[0]));
      entries := entries + below;
      if found.Some? {
        return;
      }
    } else if x.opcode.Multiply? {
      for k := 0 to 2
        invariant Entered(g, rank, instr, visited, visited', entries)
        invariant forall j :: 0 <= j < k ==> Naive(g, rank, x.operands[j]).None?
        invariant Barren(g, rank, visited' - visited - {instr})
        invariant k == 2 ==> Naive(g, rank, instr).None?
      {
        ghost var between := visited';
        StillFruitless(g, rank, instr, x.operands[k], visited, visited', entries);
        found, visited', below := FindF8SubgraphRecursive(g, rank, x.operands[k], visited', subgraph');
        EnteredBelow(g, rank, instr, x.operands[k], visited, between, visited', entries, below);
        entries := entries + below;
        if found.Some? || k == 1 {
          NaiveStep(g, rank, instr, k);
        }
        if found.Some? {
          AfterUnder(subgraph, instr, Naive(g, rank, x.operands[k]));
          return;
        }
      }
    }
    BarrenToo(g, rank, instr, visited' - visited);
    return None, visited', entries;
  }

  /** Started with nothing visited, the search returns a real path exactly when there is one, the one
      the naive search finds, and enters no instruction twice. */
  method FindF8Subgraph(g: Graph, ghost rank: map<Id, nat>, instr: Id)
    returns (found: Option<seq<Id>>, visited: set<Id>, ghost entries: nat)
    requires Acyclic(g, rank) && instr in g
    ensures found == Naive(g, rank, instr)
    ensures found.Some? ==> IsF8Path(g, instr, found.value)
    ensures found.None? <==> !exists p :: LeadsToF8(g, instr, p)
    ensures entries == |visited| <= |g.Keys|
  {
    found, visited, entries := FindF8SubgraphRecursive(g, rank, instr, {}, []);
    if found.Some? {
      assert [] + Naive(g, rank, instr).value == Naive(g, rank, instr).value;
      NaiveIsPath(g, rank, instr);
    }
    forall p | LeadsToF8(g, instr, p) ensures found.Some? {
      NaiveFinds(g, rank, instr, p);
    }
    SubsetCount(visited, g.Keys);
  }
}
