/** Which memory a run of an executable works in and gives back: the output loop of
    ExecuteAsyncOnStreamImpl with donation and copy protection, and the thunks that run after it. */
module GpuExecutable {
  import opened Ordering
  import opened Wrappers

  type Address = nat
  type Contents = seq<int>
  type Memory = map<Address, Contents>

  datatype Kind = Parameter(leaf: nat) | Constant(address: Address) | LiveOut | Temp

  datatype Alias = NoAlias | MayAlias | MustAlias

  datatype Output = Output(alloc: nat, alias: Alias, passthrough: bool, tuple: bool)

  /** A thunk gives each allocation it writes new contents, computed from those of all allocations. */
  datatype Thunk = Thunk(writes: set<nat>, compute: (seq<Contents>, nat) -> Contents)

  datatype Executable = Executable(kinds: seq<Kind>, outputs: seq<Output>, thunks: seq<Thunk>)

  /** Argument leaves: plain shaped buffers, which are never owned, or inputs that may be donated. */
  datatype Arguments = Shaped(buffers: seq<Address>) | Inputs(buffers: seq<Address>, owned: seq<bool>)

  datatype Result<T> = Ok(value: T) | InvalidArgument

  /** The locals of the output loop; addresses from next on are unused. */
  datatype State = State(results: seq<Address>, table: seq<Address>, owned: seq<bool>, memory: Memory, next: Address)

  ghost predicate Fits(x: Executable, args: Arguments) {
    && (args.Inputs? ==> |args.owned| == |args.buffers|)
    && (forall a :: 0 <= a < |x.kinds| && x.kinds[a].Parameter? ==> x.kinds[a].leaf < |args.buffers|)
    && (forall i :: 0 <= i < |x.outputs| ==> OutputFits(x, x.outputs[i]))
  }

  /** Only parameters are aliased. */
  predicate OutputFits(x: Executable, o: Output) {
    o.alloc < |x.kinds| && (!o.alias.NoAlias? ==> x.kinds[o.alloc].Parameter?)
  }

  // ---------------------------------------------------------------------------------------------
  // The buffer table

  /** One parameter allocation per leaf, argument buffers and constants disjoint and in use. */
  ghost predicate Disjoint(x: Executable, args: Arguments, next: Address) {
    && Distinct(args.buffers) && (forall l :: 0 <= l < |args.buffers| ==> args.buffers[l] < next)
    && (forall a, b :: 0 <= a < b < |x.kinds| && x.kinds[a].Parameter? && x.kinds[b].Parameter? ==>
        x.kinds[a].leaf != x.kinds[b].leaf)
    && (forall a :: 0 <= a < |x.kinds| && x.kinds[a].Constant? ==>
        x.kinds[a].address < next && x.kinds[a].address !in args.buffers)
    && (forall a, b :: 0 <= a < b < |x.kinds| && x.kinds[a].Constant? && x.kinds[b].Constant? ==>
        x.kinds[a].address != x.kinds[b].address)
  }

  predicate IsFresh(k: Kind) {
    k.LiveOut? || k.Temp?
  }

  /** Where an allocation lives before the output loop. */
  ghost predicate Placed(k: Kind, args: Arguments, address: Address, next: Address)
    requires k.Parameter? ==> k.leaf < |args.buffers|
  {
    match k
    case Parameter(leaf) => address == args.buffers[leaf]
    case Constant(c) => address == c
    case LiveOut => address >= next
    case Temp => address >= next
  }

  function Read(memory: Memory, address: Address): Contents {
    if address in memory then memory[address] else []
  }

  /** The contents of the allocations before the output loop, told from what the caller passes and from
      what fresh buffers happen to hold. */
  function StartContents(x: Executable, args: Arguments, memory: Memory, unset: nat -> Contents): (v: seq<Contents>)
    requires forall a :: 0 <= a < |x.kinds| && x.kinds[a].Parameter? ==> x.kinds[a].leaf < |args.buffers|
    ensures |v| == |x.kinds|
  {
    seq(|x.kinds|, a requires 0 <= a < |x.kinds| =>
      match x.kinds[a]
      case Parameter(leaf) => Read(memory, args.buffers[leaf])
      case Constant(c) => Read(memory, c)
      case LiveOut => unset(a)
      case Temp => unset(a))
  }

  /** Nothing below next has changed. */
  ghost predicate SameBelow(memory: Memory, memory': Memory, next: Address) {
    forall address: Address :: address < next ==>
      (address in memory' <==> address in memory) && Read(memory', address) == Read(memory, address)
  }

  ghost predicate AllBelow(memory: Memory, next: Address) {
    forall address :: address in memory ==> address < next
  }

  /** Fresh places hold what the allocator left there. */
  ghost predicate FreshHold(x: Executable, table: seq<Address>, memory: Memory, unset: nat -> Contents) {
    |table| <= |x.kinds| && forall a :: 0 <= a < |table| && IsFresh(x.kinds[a]) ==>
        table[a] in memory && memory[table[a]] == unset(a)
  }

  /** The allocations up to |table| have places of their own. */
  ghost predicate Tabled(x: Executable, args: Arguments, table: seq<Address>, next: Address, next': Address)
    requires Fits(x, args)
  {
    && |table| <= |x.kinds| && next <= next' && Distinct(table)
    && forall a :: 0 <= a < |table| ==> Placed(x.kinds[a], args, table[a], next) && table[a] < next'
  }

  lemma {:induction false} TabledNext(
      x: Executable, args: Arguments, table: seq<Address>, next: Address, next': Address, address: Address)
    requires Fits(x, args) && Disjoint(x, args, next) && Tabled(x, args, table, next, next') && |table| < |x.kinds|
    requires match x.kinds[|table|]
             case Parameter(leaf) => address == args.buffers[leaf]
             case Constant(c) => address == c
             case _ => address == next'
    ensures Tabled(x, args, table + [address], next, if IsFresh(x.kinds[|table|]) then next' + 1 else next')
  {
    forall a | 0 <= a < |table| ensures table[a] != address {
      assert Placed(x.kinds[a], args, table[a], next);
    }
  }

  /** The table gives every allocation a place of its own. */
  method GenerateBufferAllocations(x: Executable, args: Arguments, memory: Memory, next: Address,
      unset: nat -> Contents)
    returns (table: seq<Address>, memory': Memory, next': Address)
    requires Fits(x, args) && Disjoint(x, args, next) && AllBelow(memory, next)
    ensures |table| == |x.kinds| && Tabled(x, args, table, next, next')
    ensures SameBelow(memory, memory', next) && AllBelow(memory', next') && FreshHold(x, table, memory', unset)
  {
    table, memory', next' := [], memory, next;
    for i := 0 to |x.kinds|
      invariant |table| == i && Tabled(x, args, table, next, next')
      invariant SameBelow(memory, memory', next) && AllBelow(memory', next') && FreshHold(x, table, memory', unset)
    {
      match x.kinds[i] {
        case Parameter(leaf) =>
          TabledNext(x, args, table, next, next', args.buffers[leaf]);
          table := table + [args.buffers[leaf]];
        case Constant(c) =>
          TabledNext(x, args, table, next, next', c);
          table := table + [c];
        case _ =>
          TabledNext(x, args, table, next, next', next');
          table, memory', next' := table + [next'], memory'[next' := unset(i)], next' + 1;
      }
    }
  }

  /** So the allocations start with what the caller passed. */
  lemma {:induction false} StartsAsPassed(x: Executable, args: Arguments, memory: Memory, next: Address,
                                          unset: nat -> Contents, table: seq<Address>, memory': Memory)
    requires Fits(x, args) && Disjoint(x, args, next) && |table| == |x.kinds|
    requires forall a :: 0 <= a < |table| ==> Placed(x.kinds[a], args, table[a], next)
    requires SameBelow(memory, memory', next) && FreshHold(x, table, memory', unset)
    ensures View(memory', table) == StartContents(x, args, memory, unset)
    ensures Loaded(x, args, memory) ==> AllIn(table, memory')
  {
    forall a | 0 <= a < |table|
      ensures View(memory', table)[a] == StartContents(x, args, memory, unset)[a]
      ensures Loaded(x, args, memory) ==> table[a] in memory'
    {
      assert Placed(x.kinds[a], args, table[a], next);
      if IsFresh(x.kinds[a]) {
        assert table[a] in memory';
      } else {
        assert table[a] < next;
      }
    }
  }

  /** Arguments and constants hold something. */
  ghost predicate Loaded(x: Executable, args: Arguments, memory: Memory) {
    && (forall l :: 0 <= l < |args.buffers| ==> args.buffers[l] in memory)
    && (forall a :: 0 <= a < |x.kinds| && x.kinds[a].Constant? ==> x.kinds[a].address in memory)
  }

  // ---------------------------------------------------------------------------------------------
  // The output loop

  /** Ownership of the aliased argument is still with this run. */
  predicate Owns(x: Executable, args: Arguments, s: State, o: Output) {
    args.Inputs? && OutputFits(x, o) && !o.alias.NoAlias? && x.kinds[o.alloc].leaf < |s.owned| &&
        s.owned[x.kinds[o.alloc].leaf]
  }

  function Give(s: State, address: Address): State {
    s.(results := s.results + [address])
  }

  /** A fresh copy takes the place of the aliased buffer. */
  function CopyProtect(s: State, alloc: nat): State
    requires alloc < |s.table|
  {
    State(s.results + [s.next], s.table[alloc := s.next], s.owned,
          s.memory[s.next := Read(s.memory, s.table[alloc])], s.next + 1)
  }

  function Assign(x: Executable, args: Arguments, s: State, o: Output): Result<State>
    requires OutputFits(x, o) && |s.table| == |x.kinds|
    requires !o.alias.NoAlias? ==> x.kinds[o.alloc].leaf < |args.buffers|
  {
    if Owns(x, args, s, o) then
      var leaf := x.kinds[o.alloc].leaf;
      Ok(Give(s, args.buffers[leaf]).(owned := s.owned[leaf := false]))
    else if o.alias.MustAlias? && args.Inputs? then InvalidArgument
    else if !o.alias.NoAlias? && !o.passthrough && !o.tuple then Ok(CopyProtect(s, o.alloc))
    else Ok(Give(s, s.table[o.alloc]))
  }

  function Owned(args: Arguments): seq<bool> {
    if args.Inputs? then args.owned else []
  }

  function Start(args: Arguments, table: seq<Address>, memory: Memory, next: Address): State {
    State([], table, Owned(args), memory, next)
  }

  /** The state after the first k outputs. */
  ghost function After(x: Executable, args: Arguments, s: State, k: nat): (r: Result<State>)
    requires Fits(x, args) && k <= |x.outputs| && |s.table| == |x.kinds|
    ensures r.Ok? ==> |r.value.table| == |x.kinds|
  {
    if k == 0 then Ok(s)
    else
      match After(x, args, s, k - 1)
      case InvalidArgument => InvalidArgument
      case Ok(t) => Assign(x, args, t, x.outputs[k - 1])
  }

  method AssignOutputs(x: Executable, args: Arguments, table0: seq<Address>, memory0: Memory, next0: Address)
    returns (r: Result<State>)
    requires Fits(x, args) && |table0| == |x.kinds|
    ensures r == After(x, args, Start(args, table0, memory0, next0), |x.outputs|)
  {
    ghost var s := Start(args, table0, memory0, next0);
    var results, table, owned, memory, next := [], table0, Owned(args), memory0, next0;
    for i := 0 to |x.outputs|
      invariant |table| == |x.kinds|
      invariant After(x, args, s, i) == Ok(State(results, table, owned, memory, next))
    {
      var o := x.outputs[i];
      var result := None;
      if !o.alias.NoAlias? {
        var leaf := x.kinds[o.alloc].leaf;
        var donated := args.Inputs? && leaf < |owned| && owned[leaf];
        if o.alias.MustAlias? && args.Inputs? && !donated {
          FailureStays(x, args, s, i + 1, |x.outputs|);
          return InvalidArgument;
        }
        if donated {
          owned := owned[leaf := false];
          result := Some(args.buffers[leaf]);
        } else if !o.passthrough && !o.tuple {
          var aliased := table[o.alloc];
          memory := memory[next := Read(memory, aliased)];
          table := table[o.alloc := next];
          result, next := Some(next), next + 1;
        }
      }
      if result.None? {
        result := Some(table[o.alloc]);
      }
      results := results + [result.value];
    }
    r := Ok(State(results, table, owned, memory, next));
  }

  lemma {:induction false} FailureStays(x: Executable, args: Arguments, s: State, i: nat, k: nat)
    requires Fits(x, args) && i <= k <= |x.outputs| && |s.table| == |x.kinds| && After(x, args, s, i).InvalidArgument?
    ensures After(x, args, s, k).InvalidArgument?
    decreases k
  {
    if i < k {
      FailureStays(x, args, s, i, k - 1);
    }
  }

  // ---------------------------------------------------------------------------------------------
  // What each output gets, told from the arguments alone

  predicate Aliases(x: Executable, j: nat, alloc: nat) {
    j < |x.outputs| && !x.outputs[j].alias.NoAlias? && x.outputs[j].alloc == alloc
  }

  /** Output j is the first to alias a donated leaf. */
  ghost predicate Takes(x: Executable, args: Arguments, j: nat) {
    && args.Inputs? && j < |x.outputs| && !x.outputs[j].alias.NoAlias? && OutputFits(x, x.outputs[j])
    && x.kinds[x.outputs[j].alloc].leaf < |args.owned| && args.owned[x.kinds[x.outputs[j].alloc].leaf]
    && forall i :: 0 <= i < j ==> !Aliases(x, i, x.outputs[j].alloc)
  }

  /** Output j gets a fresh copy. */
  ghost predicate Protects(x: Executable, args: Arguments, j: nat) {
    && j < |x.outputs| && !x.outputs[j].alias.NoAlias? && !x.outputs[j].passthrough && !x.outputs[j].tuple
    && !Takes(x, args, j)
  }

  /** Between outputs i and k, some output of the same allocation gets a fresh copy. */
  ghost predicate Displaced(x: Executable, args: Arguments, i: nat, k: nat)
    requires i < |x.outputs|
  {
    exists j :: i < j < k && Protects(x, args, j) && x.outputs[j].alloc == x.outputs[i].alloc
  }

  function View(memory: Memory, table: seq<Address>): (v: seq<Contents>)
    ensures |v| == |table|
  {
    seq(|table|, a requires 0 <= a < |table| => Read(memory, table[a]))
  }

  /** Before the loop: distinct places below next for all allocations. */
  ghost predicate Ready(x: Executable, args: Arguments, s: State) {
    && Fits(x, args) && Disjoint(x, args, s.next) && |s.table| == |x.kinds| && Distinct(s.table)
    && s.results == [] && s.owned == Owned(args)
    && (forall a :: 0 <= a < |s.table| ==> s.table[a] < s.next)
    && (forall a :: 0 <= a < |x.kinds| && x.kinds[a].Parameter? ==> s.table[a] == args.buffers[x.kinds[a].leaf])
    && (forall a :: 0 <= a < |x.kinds| && x.kinds[a].Constant? ==> s.table[a] == x.kinds[a].address)
    && (forall a :: 0 <= a < |x.kinds| && IsFresh(x.kinds[a]) ==> s.table[a] !in args.buffers)
    && (forall address :: address in s.memory ==> address < s.next)
  }

  /** The table never sends two allocations to one place, and only moves allocations to new places. */
  ghost predicate TableKept(s: State, t: State) {
    && |t.table| == |s.table| && Distinct(t.table) && s.next <= t.next
    && (forall a :: 0 <= a < |t.table| ==> t.table[a] < t.next && (t.table[a] == s.table[a] || t.table[a] >= s.next))
  }

  /** Nothing is overwritten, and every allocation still has its contents. */
  ghost predicate MemoryKept(s: State, t: State) {
    && View(t.memory, t.table) == View(s.memory, s.table)
    && (forall address :: address < s.next ==>
          (address in t.memory <==> address in s.memory) && (address in s.memory ==>
              t.memory[address] == s.memory[address]))
    && (forall address :: address in t.memory ==> address < t.next)
  }

  ghost predicate OwnershipKept(x: Executable, args: Arguments, t: State, k: nat)
    requires Fits(x, args) && k <= |x.outputs|
  {
    |t.owned| == |Owned(args)| &&
    forall a :: 0 <= a < |x.kinds| && x.kinds[a].Parameter? && x.kinds[a].leaf < |t.owned| ==>
      (t.owned[x.kinds[a].leaf] <==> Owned(args)[x.kinds[a].leaf] && forall i :: 0 <= i < k ==> !Aliases(x, i, a))
  }

  /** A result is the current place of its allocation unless a later output moved it on. */
  ghost predicate ResultsKept(x: Executable, args: Arguments, t: State, k: nat)
    requires k <= |x.outputs|
  {
    |t.results| == k && |t.table| == |x.kinds| &&
    forall i :: 0 <= i < k && x.outputs[i].alloc < |x.kinds| ==> ResultKept(x, args, t, k, i)
  }

  ghost predicate ResultKept(x: Executable, args: Arguments, t: State, k: nat, i: nat)
    requires i < k <= |x.outputs| && |t.results| == k && |t.table| == |x.kinds| && x.outputs[i].alloc < |x.kinds|
  {
    && t.results[i] <= t.table[x.outputs[i].alloc]
    && (t.results[i] == t.table[x.outputs[i].alloc] <==> !Displaced(x, args, i, k))
  }

  /** Some output before k gets a fresh copy of the allocation. */
  ghost predicate Moved(x: Executable, args: Arguments, a: nat, k: nat) {
    exists j :: 0 <= j < k && Protects(x, args, j) && x.outputs[j].alloc == a
  }

  /** Exactly the allocations with copies have moved. */
  ghost predicate MovesKept(x: Executable, args: Arguments, s: State, t: State, k: nat)
    requires |t.table| == |s.table| == |x.kinds|
  {
    forall a :: 0 <= a < |x.kinds| ==> if Moved(x, args, a, k) then t.table[a] >= s.next else t.table[a] == s.table[a]
  }

  ghost predicate LoopInvariant(x: Executable, args: Arguments, s: State, t: State, k: nat)
    requires Ready(x, args, s) && k <= |x.outputs|
  {
    TableKept(s, t) && MemoryKept(s, t) && OwnershipKept(x, args, t, k) && ResultsKept(x, args, t, k) &&
        MovesKept(x, args, s, t, k)
  }

  lemma {:induction false} OwnsIsTakes(x: Executable, args: Arguments, t: State, k: nat)
    requires Fits(x, args) && k < |x.outputs| && OwnershipKept(x, args, t, k)
    ensures Owns(x, args, t, x.outputs[k]) <==> Takes(x, args, k)
  {
  }

  lemma {:induction false} MovedNext(x: Executable, args: Arguments, a: nat, k: nat)
    requires k < |x.outputs|
    ensures Moved(x, args, a, k + 1) <==> Moved(x, args, a, k) || (Protects(x, args, k) && x.outputs[k].alloc == a)
  {
  }

  lemma {:induction false} DisplacedNext(x: Executable, args: Arguments, i: nat, k: nat)
    requires i < k < |x.outputs|
    ensures Displaced(x, args, i, k + 1)
       <==> Displaced(x, args, i, k) || (Protects(x, args, k) && x.outputs[k].alloc == x.outputs[i].alloc)
  {
  }

  /** An output that keeps the table as it is gives the current place of its allocation. */
  lemma {:induction false} ResultsStep(x: Executable, args: Arguments, t: State, t': State, k: nat)
    requires Fits(x, args) && k < |x.outputs| && ResultsKept(x, args, t, k)
    requires t'.table == t.table && !Protects(x, args, k) && t'.results == t.results + [t.table[x.outputs[k].alloc]]
    ensures ResultsKept(x, args, t', k + 1)
  {
    forall i | 0 <= i < k + 1 && x.outputs[i].alloc < |x.kinds| ensures ResultKept(x, args, t', k + 1, i) {
      if i < k {
        assert ResultKept(x, args, t, k, i);
        DisplacedNext(x, args, i, k);
      }
    }
  }

  lemma {:induction false} ProtectResults(x: Executable, args: Arguments, s: State, t: State, k: nat)
    requires Fits(x, args) && |s.table| == |x.kinds| && k < |x.outputs|
    requires TableKept(s, t) && ResultsKept(x, args, t, k) && Protects(x, args, k)
    ensures ResultsKept(x, args, CopyProtect(t, x.outputs[k].alloc), k + 1)
  {
    var t' := CopyProtect(t, x.outputs[k].alloc);
    forall i | 0 <= i < k + 1 && x.outputs[i].alloc < |x.kinds| ensures ResultKept(x, args, t', k + 1, i) {
      if i < k {
        assert ResultKept(x, args, t, k, i);
        DisplacedNext(x, args, i, k);
      }
    }
  }

  lemma {:induction false} MovesStep(x: Executable, args: Arguments, s: State, t: State, t': State, k: nat)
    requires |t'.table| == |t.table| == |s.table| == |x.kinds| && k < |x.outputs| && MovesKept(x, args, s, t, k)
    requires forall a :: 0 <= a < |x.kinds| ==>
               if Protects(x, args, k) && x.outputs[k].alloc == a then t'.table[a] >= s.next
               else t'.table[a] == t.table[a]
    ensures MovesKept(x, args, s, t', k + 1)
  {
    forall a | 0 <= a < |x.kinds|
      ensures if Moved(x, args, a, k + 1) then t'.table[a] >= s.next else t'.table[a] == s.table[a]
    {
      MovedNext(x, args, a, k);
    }
  }

  lemma {:induction false} ProtectMemory(s: State, t: State, alloc: nat)
    requires TableKept(s, t) && MemoryKept(s, t) && alloc < |t.table|
    ensures TableKept(s, CopyProtect(t, alloc)) && MemoryKept(s, CopyProtect(t, alloc))
  {
    var t' := CopyProtect(t, alloc);
    forall a, b | 0 <= a < b < |t'.table| ensures t'.table[a] != t'.table[b] {
    }
    forall a | 0 <= a < |t'.table| ensures View(t'.memory, t'.table)[a] == View(t.memory, t.table)[a] {
    }
    assert View(t'.memory, t'.table) == View(t.memory, t.table);
  }

  /** An output that does not alias leaves ownership as it is; one that does ends it. */
  lemma {:induction false} OwnershipStep(x: Executable, args: Arguments, next: Address, t: State, k: nat)
    requires Fits(x, args) && Disjoint(x, args, next) && k < |x.outputs| && OwnershipKept(x, args, t, k)
    ensures var o := x.outputs[k];
            var owned := if Owns(x, args, t, o) then t.owned[x.kinds[o.alloc].leaf := false] else t.owned;
            OwnershipKept(x, args, t.(owned := owned), k + 1)
  {
    var o := x.outputs[k];
    var owned := if Owns(x, args, t, o) then t.owned[x.kinds[o.alloc].leaf := false] else t.owned;
    forall a | 0 <= a < |x.kinds| && x.kinds[a].Parameter? && x.kinds[a].leaf < |owned|
      ensures owned[x.kinds[a].leaf] <==> Owned(args)[x.kinds[a].leaf] && forall i :: 0 <= i < k + 1 ==>
                !Aliases(x, i, a)
    {
      LeafOwnership(x, args, next, t, k, a);
    }
  }

  lemma {:induction false} LeafOwnership(x: Executable, args: Arguments, next: Address, t: State, k: nat, a: nat)
    requires Fits(x, args) && Disjoint(x, args, next) && k < |x.outputs| && OwnershipKept(x, args, t, k)
    requires a < |x.kinds| && x.kinds[a].Parameter? && x.kinds[a].leaf < |t.owned|
    ensures var o := x.outputs[k];
            var owned := if Owns(x, args, t, o) then t.owned[x.kinds[o.alloc].leaf := false] else t.owned;
            owned[x.kinds[a].leaf] <==> Owned(args)[x.kinds[a].leaf] && forall i :: 0 <= i < k + 1 ==> !Aliases(x, i, a)
  {
    var o := x.outputs[k];
    assert OutputFits(x, o);
    assert args.Inputs?;
    if o.alloc == a && !o.alias.NoAlias? {
      assert Aliases(x, k, a);
    } else {
      assert !Aliases(x, k, a);
      assert (forall i :: 0 <= i < k + 1 ==> !Aliases(x, i, a)) <==> (forall i :: 0 <= i < k ==> !Aliases(x, i, a));
    }
  }

  lemma {:induction false} LoopStep(x: Executable, args: Arguments, s: State, t: State, t': State, k: nat)
    requires Ready(x, args, s) && k < |x.outputs| && LoopInvariant(x, args, s, t, k)
    requires Assign(x, args, t, x.outputs[k]) == Ok(t')
    ensures LoopInvariant(x, args, s, t', k + 1)
  {
    var o := x.outputs[k];
    assert OutputFits(x, o);
    OwnsIsTakes(x, args, t, k);
    OwnershipStep(x, args, s.next, t, k);
    if Protects(x, args, k) {
      ProtectMemory(s, t, o.alloc);
      ProtectResults(x, args, s, t, k);
    } else {
      if Takes(x, args, k) {
        NotMovedBefore(x, args, k);
      }
      ResultsStep(x, args, t, t', k);
    }
    MovesStep(x, args, s, t, t', k);
  }

  lemma {:induction false} NotMovedBefore(x: Executable, args: Arguments, k: nat)
    requires Takes(x, args, k)
    ensures !Moved(x, args, x.outputs[k].alloc, k)
  {
    forall j | 0 <= j < k && Protects(x, args, j) ensures x.outputs[j].alloc != x.outputs[k].alloc {
      assert !Aliases(x, j, x.outputs[k].alloc);
    }
  }

  lemma {:induction false} LoopKeeps(x: Executable, args: Arguments, s: State, k: nat)
    requires Ready(x, args, s) && k <= |x.outputs| && After(x, args, s, k).Ok?
    ensures LoopInvariant(x, args, s, After(x, args, s, k).value, k)
    decreases k
  {
    if k > 0 {
      LoopKeeps(x, args, s, k - 1);
      LoopStep(x, args, s, After(x, args, s, k - 1).value, After(x, args, s, k).value, k - 1);
    }
  }

  // ---------------------------------------------------------------------------------------------
  // Failure, and which buffer an output gets

  /** Output j must alias its parameter, whose leaf is not, or no longer, donated. */
  ghost predicate Refused(x: Executable, args: Arguments, j: nat) {
    args.Inputs? && j < |x.outputs| && x.outputs[j].alias.MustAlias? && !Takes(x, args, j)
  }

  /** The loop fails exactly when a must-alias output finds its parameter undonated. */
  lemma {:induction false} FailsExactly(x: Executable, args: Arguments, s: State, k: nat)
    requires Ready(x, args, s) && k <= |x.outputs|
    ensures After(x, args, s, k).InvalidArgument? <==> exists j :: 0 <= j < k && Refused(x, args, j)
    decreases k
  {
    if k > 0 {
      FailsExactly(x, args, s, k - 1);
      if After(x, args, s, k - 1).Ok? {
        FailsHere(x, args, s, k - 1);
      }
    }
  }

  lemma {:induction false} FailsHere(x: Executable, args: Arguments, s: State, k: nat)
    requires Ready(x, args, s) && k < |x.outputs| && After(x, args, s, k).Ok?
    ensures After(x, args, s, k + 1).InvalidArgument? <==> Refused(x, args, k)
  {
    LoopKeeps(x, args, s, k);
    assert OutputFits(x, x.outputs[k]);
    OwnsIsTakes(x, args, After(x, args, s, k).value, k);
  }

  /** No output gets a fresh copy of an allocation that an earlier output has already given out. */
  ghost predicate NoneDisplaced(x: Executable, args: Arguments) {
    forall i, j :: 0 <= i < j < |x.outputs| && x.outputs[i].alloc == x.outputs[j].alloc ==> !Protects(x, args, j)
  }

  /** All outputs are the buffers that the thunks use for their allocations exactly when no copy
      protection comes after another output of the same allocation. */
  lemma {:induction false} OutputsAreTheThunksBuffers(x: Executable, args: Arguments, s: State)
    requires Ready(x, args, s) && After(x, args, s, |x.outputs|).Ok?
    ensures var t := After(x, args, s, |x.outputs|).value;
            && |t.results| == |x.outputs|
            && ((forall i :: 0 <= i < |x.outputs| ==> t.results[i] == t.table[x.outputs[i].alloc]) <==>
                NoneDisplaced(x, args))
  {
    var n := |x.outputs|;
    var t := After(x, args, s, n).value;
    LoopKeeps(x, args, s, n);
    forall i | 0 <= i < n ensures t.results[i] == t.table[x.outputs[i].alloc] <==> !Displaced(x, args, i, n) {
      assert OutputFits(x, x.outputs[i]);
      assert ResultKept(x, args, t, n, i);
    }
    if NoneDisplaced(x, args) {
      forall i | 0 <= i < n ensures !Displaced(x, args, i, n) {
      }
    } else {
      var i, j :| 0 <= i < j < n && x.outputs[i].alloc == x.outputs[j].alloc && Protects(x, args, j);
      assert Displaced(x, args, i, n);
    }
  }

  /** Building the table and assigning the outputs, from the caller's memory. */
  method Prepare(x: Executable, args: Arguments, memory: Memory, next: Address, unset: nat -> Contents)
    returns (s: State, r: Result<State>)
    requires Fits(x, args) && Disjoint(x, args, next) && AllBelow(memory, next)
    ensures Ready(x, args, s) && r == After(x, args, s, |x.outputs|)
    ensures next <= s.next && SameBelow(memory, s.memory, next)
    ensures View(s.memory, s.table) == StartContents(x, args, memory, unset)
    ensures Loaded(x, args, memory) ==> AllIn(s.table, s.memory)
    ensures r.InvalidArgument? <==> exists j :: 0 <= j < |x.outputs| && Refused(x, args, j)
    ensures r.Ok? && NoneDisplaced(x, args) ==>
              |r.value.results| == |x.outputs| &&
              forall i :: 0 <= i < |x.outputs| ==> r.value.results[i] == r.value.table[x.outputs[i].alloc]
  {
    var table, memory', next' := GenerateBufferAllocations(x, args, memory, next, unset);
    StartsAsPassed(x, args, memory, next, unset, table, memory');
    s := Start(args, table, memory', next');
    r := AssignOutputs(x, args, table, memory', next');
    assert Ready(x, args, s);
    FailsExactly(x, args, s, |x.outputs|);
    if r.Ok? {
      OutputsAreTheThunksBuffers(x, args, s);
    }
  }

  // ---------------------------------------------------------------------------------------------
  // The thunks

  /** What a thunk does to the contents of the allocations. */
  function Apply(thunk: Thunk, v: seq<Contents>): (w: seq<Contents>)
    ensures |w| == |v|
  {
    seq(|v|, a requires 0 <= a < |v| => if a in thunk.writes then thunk.compute(v, a) else v[a])
  }

  function ApplyAll(thunks: seq<Thunk>, v: seq<Contents>): (w: seq<Contents>)
    ensures |w| == |v|
    decreases |thunks|
  {
    if thunks == [] then v else ApplyAll(thunks[1..], Apply(thunks[0], v))
  }

  /** The last thunk works on what the others leave, gives the allocations it writes what it computes from
      that, and leaves the rest alone. */
  lemma {:induction false} ThunksInOrder(thunks: seq<Thunk>, last: Thunk, v: seq<Contents>)
    ensures ApplyAll([], v) == v
    ensures var before, after := ApplyAll(thunks, v), ApplyAll(thunks + [last], v);
            forall a :: 0 <= a < |v| ==> after[a] == if a in last.writes then last.compute(before, a) else before[a]
    decreases |thunks|
  {
    if thunks == [] {
      assert thunks + [last] == [last] && [last][1..] == [];
    } else {
      assert (thunks + [last])[1..] == thunks[1..] + [last];
      ThunksInOrder(thunks[1..], last, Apply(thunks[0], v));
    }
  }

  ghost predicate Written(thunk: Thunk, table: seq<Address>, address: Address) {
    exists a :: 0 <= a < |table| && a in thunk.writes && table[a] == address
  }

  /** What it does to memory, through the table. */
  ghost function RunThunk(thunk: Thunk, table: seq<Address>, memory: Memory): (m: Memory)
    ensures m.Keys == memory.Keys
  {
    map address | address in memory ::
      if Written(thunk, table, address) then
        var a :| 0 <= a < |table| && a in thunk.writes && table[a] == address;
        thunk.compute(View(memory, table), a)
      else memory[address]
  }

  ghost function RunThunks(thunks: seq<Thunk>, table: seq<Address>, memory: Memory): (m: Memory)
    ensures m.Keys == memory.Keys
    decreases |thunks|
  {
    if thunks == [] then memory else RunThunks(thunks[1..], table, RunThunk(thunks[0], table, memory))
  }

  ghost predicate AllIn(table: seq<Address>, memory: Memory) {
    forall a :: 0 <= a < |table| ==> table[a] in memory
  }

  /** Running one thunk: all its inputs are read before anything is written. */
  method ExecuteThunk(thunk: Thunk, table: seq<Address>, memory: Memory) returns (m: Memory)
    requires Distinct(table) && AllIn(table, memory)
    ensures m == RunThunk(thunk, table, memory)
  {
    m := memory;
    var v := View(memory, table);
    for a := 0 to |table|
      invariant m.Keys == memory.Keys
      invariant forall b :: 0 <= b < a && b in thunk.writes ==> m[table[b]] == thunk.compute(v, b)
      invariant forall address :: address in memory && !Written(thunk, table[..a], address) ==>
                  m[address] == memory[address]
    {
      assert forall address :: Written(thunk, table[..a], address) ==> Written(thunk, table[..a + 1], address);
      if a in thunk.writes {
        m := m[table[a] := thunk.compute(v, a)];
        assert table[..a + 1][a] == table[a];
        assert Written(thunk, table[..a + 1], table[a]);
      }
    }
    assert table[..|table|] == table;
  }

  method ExecuteThunks(thunks: seq<Thunk>, table: seq<Address>, memory: Memory) returns (m: Memory)
    requires Distinct(table) && AllIn(table, memory)
    ensures m == RunThunks(thunks, table, memory)
  {
    m := memory;
    for i := 0 to |thunks|
      invariant m.Keys == memory.Keys
      invariant RunThunks(thunks[i..], table, m) == RunThunks(thunks, table, memory)
    {
      assert thunks[i..][0] == thunks[i] && thunks[i..][1..] == thunks[i + 1..];
      m := ExecuteThunk(thunks[i], table, m);
    }
  }

  lemma {:induction false} ThunkSimulates(thunk: Thunk, table: seq<Address>, memory: Memory)
    requires Distinct(table) && AllIn(table, memory)
    ensures View(RunThunk(thunk, table, memory), table) == Apply(thunk, View(memory, table))
  {
    var m := RunThunk(thunk, table, memory);
    forall a | 0 <= a < |table| ensures View(m, table)[a] == Apply(thunk, View(memory, table))[a] {
      assert a in thunk.writes ==> Written(thunk, table, table[a]);
    }
  }

  /** Running the thunks in memory is running them on the contents of the allocations. */
  lemma {:induction false} ThunksSimulate(thunks: seq<Thunk>, table: seq<Address>, memory: Memory)
    requires Distinct(table) && AllIn(table, memory)
    ensures View(RunThunks(thunks, table, memory), table) == ApplyAll(thunks, View(memory, table))
    decreases |thunks|
  {
    if thunks != [] {
      ThunkSimulates(thunks[0], table, memory);
      ThunksSimulate(thunks[1..], table, RunThunk(thunks[0], table, memory));
    }
  }

  lemma {:induction false} ThunksLeaveAlone(thunks: seq<Thunk>, table: seq<Address>, memory: Memory, address: Address)
    requires address in memory && forall i :: 0 <= i < |thunks| ==> !Written(thunks[i], table, address)
    ensures RunThunks(thunks, table, memory)[address] == memory[address]
    decreases |thunks|
  {
    if thunks != [] {
      assert !Written(thunks[0], table, address);
      forall i | 0 <= i < |thunks[1..]| ensures !Written(thunks[1..][i], table, address) {
        assert thunks[1..][i] == thunks[i + 1];
      }
      ThunksLeaveAlone(thunks[1..], table, RunThunk(thunks[0], table, memory), address);
    }
  }

  // ---------------------------------------------------------------------------------------------
  // Donation is invisible

  /** The contents of memory when the run is over. */
  ghost function Final(x: Executable, t: State): Memory {
    RunThunks(x.thunks, t.table, t.memory)
  }

  /** What each output holds depends on the contents of the allocations at the start and on nothing
      else: not on who owns the arguments, nor on where they are. */
  lemma {:induction false} ReturnedContents(x: Executable, args: Arguments, s: State, i: nat)
    requires Ready(x, args, s) && AllIn(s.table, s.memory) && After(x, args, s, |x.outputs|).Ok?
    requires NoneDisplaced(x, args) && i < |x.outputs|
    ensures var t := After(x, args, s, |x.outputs|).value;
            && i < |t.results| && t.results[i] in Final(x, t)
            && Final(x, t)[t.results[i]] == ApplyAll(x.thunks, View(s.memory, s.table))[x.outputs[i].alloc]
  {
    var t := After(x, args, s, |x.outputs|).value;
    LoopKeeps(x, args, s, |x.outputs|);
    StillAllIn(x, args, s, |x.outputs|);
    OutputsAreTheThunksBuffers(x, args, s);
    ThunksSimulate(x.thunks, t.table, t.memory);
    assert OutputFits(x, x.outputs[i]);
    assert View(Final(x, t), t.table)[x.outputs[i].alloc] == Final(x, t)[t.results[i]];
  }

  lemma {:induction false} StillAllIn(x: Executable, args: Arguments, s: State, k: nat)
    requires Ready(x, args, s) && AllIn(s.table, s.memory) && k <= |x.outputs| && After(x, args, s, k).Ok?
    ensures AllIn(After(x, args, s, k).value.table, After(x, args, s, k).value.memory)
    decreases k
  {
    if k > 0 {
      StillAllIn(x, args, s, k - 1);
      assert OutputFits(x, x.outputs[k - 1]);
    }
  }

  /** Two runs that start from the same contents return the same contents, whatever is donated. */
  lemma {:induction false} DonationIsInvisible(x: Executable, args: Arguments, s: State, args': Arguments, s': State)
    requires Ready(x, args, s) && AllIn(s.table, s.memory) && After(x, args, s, |x.outputs|).Ok?
    requires NoneDisplaced(x, args)
    requires Ready(x, args', s') && AllIn(s'.table, s'.memory) && After(x, args', s', |x.outputs|).Ok?
    requires NoneDisplaced(x, args')
    requires View(s.memory, s.table) == View(s'.memory, s'.table)
    ensures var t, t' := After(x, args, s, |x.outputs|).value, After(x, args', s', |x.outputs|).value;
            |t.results| == |t'.results| == |x.outputs| &&
            forall i :: 0 <= i < |x.outputs| ==>
              t.results[i] in Final(x, t) && t'.results[i] in Final(x, t') &&
              Final(x, t)[t.results[i]] == Final(x, t')[t'.results[i]]
  {
    OutputsAreTheThunksBuffers(x, args, s);
    OutputsAreTheThunksBuffers(x, args', s');
    forall i | 0 <= i < |x.outputs|
      ensures var t, t' := After(x, args, s, |x.outputs|).value, After(x, args', s', |x.outputs|).value;
              t.results[i] in Final(x, t) && t'.results[i] in Final(x, t') &&
              Final(x, t)[t.results[i]] == Final(x, t')[t'.results[i]]
    {
      ReturnedContents(x, args, s, i);
      ReturnedContents(x, args', s', i);
    }
  }

  /** Every output holds what the thunks compute for its allocation. */
  ghost predicate ReturnsRight(x: Executable, args: Arguments, s: State)
    requires Fits(x, args) && |s.table| == |x.kinds| && After(x, args, s, |x.outputs|).Ok?
  {
    var t := After(x, args, s, |x.outputs|).value;
    |t.results| == |x.outputs| && forall i :: 0 <= i < |x.outputs| ==> HoldsResult(x, s, t, i)
  }

  ghost predicate HoldsResult(x: Executable, s: State, t: State, i: nat)
    requires i < |x.outputs| == |t.results|
  {
    && t.results[i] in Final(x, t) && x.outputs[i].alloc < |s.table|
    && Final(x, t)[t.results[i]] == ApplyAll(x.thunks, View(s.memory, s.table))[x.outputs[i].alloc]
  }

  lemma {:induction false} ReadyIgnoresThunks(x: Executable, thunks: seq<Thunk>, args: Arguments, s: State)
    requires Ready(x, args, s)
    ensures Ready(x.(thunks := thunks), args, s)
  {
    forall i | 0 <= i < |x.outputs| ensures OutputFits(x.(thunks := thunks), x.outputs[i]) {
      assert OutputFits(x, x.outputs[i]);
    }
  }

  /** The output loop does not look at the thunks. */
  lemma {:induction false} LoopIgnoresThunks(x: Executable, thunks: seq<Thunk>, args: Arguments, s: State, k: nat)
    requires Fits(x, args) && |s.table| == |x.kinds| && k <= |x.outputs| && Fits(x.(thunks := thunks), args)
    ensures After(x.(thunks := thunks), args, s, k) == After(x, args, s, k)
    decreases k
  {
    if k > 0 {
      LoopIgnoresThunks(x, thunks, args, s, k - 1);
    }
  }

  /** One thunk that gives one allocation new contents. */
  function Overwrite(a: nat, w: Contents): seq<Thunk> {
    [Thunk({a}, (v, b) => w)]
  }

  lemma {:induction false} OverwriteApplies(a: nat, w: Contents, v: seq<Contents>)
    requires a < |v|
    ensures ApplyAll(Overwrite(a, w), v)[a] == w
  {
    var thunks := Overwrite(a, w);
    assert thunks[1..] == [];
    assert ApplyAll(thunks, v) == ApplyAll(thunks[1..], Apply(thunks[0], v));
  }

  /** An output that is not where its allocation lives misses what a thunk writes there. */
  lemma {:induction false} MissesOverwrite(x: Executable, args: Arguments, s: State, t: State, i: nat, w: Contents)
    requires Ready(x, args, s) && |t.results| == |x.outputs| && i < |x.outputs| && |t.table| == |x.kinds|
    requires x.outputs[i].alloc < |x.kinds| && t.results[i] != t.table[x.outputs[i].alloc]
    requires t.results[i] in t.memory ==> w != t.memory[t.results[i]]
    ensures !HoldsResult(x.(thunks := Overwrite(x.outputs[i].alloc, w)), s, t, i)
  {
    var a := x.outputs[i].alloc;
    OverwriteApplies(a, w, View(s.memory, s.table));
    if t.results[i] in t.memory {
      ThunksLeaveAlone(Overwrite(a, w), t.table, t.memory, t.results[i]);
    }
  }

  /** All thunk programs return the right contents exactly when no copy protection comes after another
      output of the same allocation. */
  lemma {:induction false} ContentsExactly(x: Executable, args: Arguments, s: State)
    requires Ready(x, args, s) && AllIn(s.table, s.memory) && After(x, args, s, |x.outputs|).Ok?
    ensures (forall thunks :: RightWith(x, thunks, args, s)) <==> NoneDisplaced(x, args)
  {
    if NoneDisplaced(x, args) {
      forall thunks ensures RightWith(x, thunks, args, s) {
        RightWhenNoneDisplaced(x, thunks, args, s);
      }
    } else {
      var t := After(x, args, s, |x.outputs|).value;
      OutputsAreTheThunksBuffers(x, args, s);
      LoopKeeps(x, args, s, |x.outputs|);
      var i :| 0 <= i < |x.outputs| && t.results[i] != t.table[x.outputs[i].alloc];
      assert OutputFits(x, x.outputs[i]);
      var w := if t.results[i] in t.memory then t.memory[t.results[i]] + [0] else [];
      MissesOverwrite(x, args, s, t, i, w);
      ReadyIgnoresThunks(x, Overwrite(x.outputs[i].alloc, w), args, s);
      LoopIgnoresThunks(x, Overwrite(x.outputs[i].alloc, w), args, s, |x.outputs|);
      assert !RightWith(x, Overwrite(x.outputs[i].alloc, w), args, s);
    }
  }

  ghost predicate RightWith(x: Executable, thunks: seq<Thunk>, args: Arguments, s: State) {
    var x' := x.(thunks := thunks);
    Fits(x', args) && |s.table| == |x.kinds| && After(x', args, s, |x.outputs|).Ok? && ReturnsRight(x', args, s)
  }

  lemma {:induction false} RightWhenNoneDisplaced(x: Executable, thunks: seq<Thunk>, args: Arguments, s: State)
    requires Ready(x, args, s) && AllIn(s.table, s.memory) && After(x, args, s, |x.outputs|).Ok?
    requires NoneDisplaced(x, args)
    ensures RightWith(x, thunks, args, s)
  {
    var x' := x.(thunks := thunks);
    ReadyIgnoresThunks(x, thunks, args, s);
    LoopIgnoresThunks(x, thunks, args, s, |x.outputs|);
    NoneDisplacedIgnoresThunks(x, thunks, args);
    OutputsAreTheThunksBuffers(x', args, s);
    forall i | 0 <= i < |x.outputs| ensures HoldsResult(x', s, After(x', args, s, |x.outputs|).value, i) {
      ReturnedContents(x', args, s, i);
      assert OutputFits(x, x.outputs[i]);
    }
  }

  lemma {:induction false} NoneDisplacedIgnoresThunks(x: Executable, thunks: seq<Thunk>, args: Arguments)
    requires NoneDisplaced(x, args)
    ensures NoneDisplaced(x.(thunks := thunks), args)
  {
    var x' := x.(thunks := thunks);
    forall j | 0 <= j < |x.outputs| ensures Protects(x', args, j) <==> Protects(x, args, j) {
      assert forall i, a :: Aliases(x', i, a) <==> Aliases(x, i, a);
      assert OutputFits(x', x.outputs[j]) <==> OutputFits(x, x.outputs[j]);
    }
  }

  /** Thunks write no constants, and parameters only for an output that aliases them. */
  ghost predicate WritesAllowed(x: Executable) {
    forall i, a :: 0 <= i < |x.thunks| && a in x.thunks[i].writes && a < |x.kinds| ==> MayWrite(x, a)
  }

  ghost predicate MayWrite(x: Executable, a: nat)
    requires a < |x.kinds|
  {
    match x.kinds[a]
    case Parameter(_) =>
      exists j :: 0 <= j < |x.outputs| && Aliases(x, j, a) && !x.outputs[j].passthrough && !x.outputs[j].tuple
    case Constant(_) => false
    case LiveOut => true
    case Temp => true
  }

  /** Some output takes the argument leaf over. */
  ghost predicate Given(x: Executable, args: Arguments, leaf: nat) {
    exists j :: 0 <= j < |x.outputs| && Takes(x, args, j) && x.kinds[x.outputs[j].alloc].leaf == leaf
  }

  /** A parameter that is not given is not where its allocation lives, if thunks may write the allocation. */
  lemma {:induction false} UndonatedMoved(x: Executable, args: Arguments, s: State, a: nat)
    requires Ready(x, args, s) && After(x, args, s, |x.outputs|).Ok?
    requires a < |x.kinds| && x.kinds[a].Parameter? && MayWrite(x, a) && !Given(x, args, x.kinds[a].leaf)
    ensures After(x, args, s, |x.outputs|).value.table[a] >= s.next
  {
    var n := |x.outputs|;
    LoopKeeps(x, args, s, n);
    var j :| 0 <= j < n && Aliases(x, j, a) && !x.outputs[j].passthrough && !x.outputs[j].tuple;
    assert Protects(x, args, j);
    assert Moved(x, args, a, n);
  }

  /** Inputs that were not given keep their contents. */
  lemma {:induction false} UndonatedInputsKeepContents(x: Executable, args: Arguments, s: State, leaf: nat)
    requires Ready(x, args, s) && WritesAllowed(x) && After(x, args, s, |x.outputs|).Ok?
    requires leaf < |args.buffers| && args.buffers[leaf] in s.memory && !Given(x, args, leaf)
    ensures var t := After(x, args, s, |x.outputs|).value;
            args.buffers[leaf] in Final(x, t) && Final(x, t)[args.buffers[leaf]] == s.memory[args.buffers[leaf]]
  {
    var t, address := After(x, args, s, |x.outputs|).value, args.buffers[leaf];
    LoopKeeps(x, args, s, |x.outputs|);
    forall i | 0 <= i < |x.thunks| ensures !Written(x.thunks[i], t.table, address) {
      forall a | 0 <= a < |t.table| && a in x.thunks[i].writes ensures t.table[a] != address {
        assert MayWrite(x, a);
        if x.kinds[a].Parameter? {
          if x.kinds[a].leaf == leaf {
            UndonatedMoved(x, args, s, a);
          }
        }
      }
    }
    ThunksLeaveAlone(x.thunks, t.table, t.memory, address);
  }

  // ---------------------------------------------------------------------------------------------
  // A whole run

  /** Every output holds what the thunks compute for its allocation from what the caller passed. */
  ghost predicate OutputsHold(x: Executable, results: seq<Address>, final: Memory, start: seq<Contents>)
    requires |start| == |x.kinds|
  {
    |results| == |x.outputs| && forall i :: 0 <= i < |x.outputs| ==>
      && results[i] in final && x.outputs[i].alloc < |x.kinds|
      && final[results[i]] == ApplyAll(x.thunks, start)[x.outputs[i].alloc]
  }

  /** Table, output loop and thunks, from the caller's memory to the memory at the end. */
  method Execute(x: Executable, args: Arguments, memory: Memory, next: Address, unset: nat -> Contents)
    returns (r: Result<seq<Address>>, final: Memory)
    requires Fits(x, args) && Disjoint(x, args, next) && AllBelow(memory, next) && Loaded(x, args, memory)
    ensures r.InvalidArgument? <==> exists j :: 0 <= j < |x.outputs| && Refused(x, args, j)
    ensures r.Ok? && NoneDisplaced(x, args) ==>
              OutputsHold(x, r.value, final, StartContents(x, args, memory, unset))
    ensures (r.Ok? ==> WritesAllowed(x)) ==>
              forall l :: 0 <= l < |args.buffers| && !Given(x, args, l) ==>
                args.buffers[l] in final && final[args.buffers[l]] == memory[args.buffers[l]]
  {
    var s, prepared := Prepare(x, args, memory, next, unset);
    if prepared.InvalidArgument? {
      return InvalidArgument, memory;
    }
    var t := prepared.value;
    LoopKeeps(x, args, s, |x.outputs|);
    StillAllIn(x, args, s, |x.outputs|);
    final := ExecuteThunks(x.thunks, t.table, t.memory);
    r := Ok(t.results);
    if NoneDisplaced(x, args) {
      OutputsHoldAtEnd(x, args, s);
    }
    if WritesAllowed(x) {
      forall l | 0 <= l < |args.buffers| && !Given(x, args, l)
        ensures args.buffers[l] in final && final[args.buffers[l]] == memory[args.buffers[l]]
      {
        assert args.buffers[l] in memory && Read(s.memory, args.buffers[l]) == Read(memory, args.buffers[l]);
        UndonatedInputsKeepContents(x, args, s, l);
      }
    }
  }

  lemma {:induction false} OutputsHoldAtEnd(x: Executable, args: Arguments, s: State)
    requires Ready(x, args, s) && AllIn(s.table, s.memory) && After(x, args, s, |x.outputs|).Ok?
    requires NoneDisplaced(x, args)
    ensures var t := After(x, args, s, |x.outputs|).value;
            OutputsHold(x, t.results, Final(x, t), View(s.memory, s.table))
  {
    OutputsAreTheThunksBuffers(x, args, s);
    forall i | 0 <= i < |x.outputs|
      ensures var t := After(x, args, s, |x.outputs|).value;
              && t.results[i] in Final(x, t) && x.outputs[i].alloc < |x.kinds|
              && Final(x, t)[t.results[i]] == ApplyAll(x.thunks, View(s.memory, s.table))[x.outputs[i].alloc]
    {
      assert OutputFits(x, x.outputs[i]);
      ReturnedContents(x, args, s, i);
    }
  }

  // ---------------------------------------------------------------------------------------------
  // Buffers are neither lost nor freed twice

  /** Allocated by this run: for an allocation, or as a fresh copy. */
  ghost predicate Allocated(x: Executable, s: State, t: State, address: Address)
    requires |s.table| == |x.kinds|
  {
    s.next <= address < t.next || exists a :: 0 <= a < |x.kinds| && IsFresh(x.kinds[a]) && s.table[a] == address
  }

  /** What TearDown frees: temporaries, and live-out buffers that are not in the result. */
  ghost predicate Freed(x: Executable, t: State, address: Address)
    requires |t.table| == |x.kinds|
  {
    exists a :: 0 <= a < |x.kinds| && t.table[a] == address &&
      (x.kinds[a].Temp? || (x.kinds[a].LiveOut? && address !in t.results))
  }

  ghost predicate Returned(x: Executable, s: State, t: State, k: nat)
    requires k <= |x.outputs|
  {
    && |t.results| == k
    && (forall i :: 0 <= i < k && x.outputs[i].alloc < |s.table| ==>
          t.results[i] == s.table[x.outputs[i].alloc] || t.results[i] >= s.next)
    && (forall address :: s.next <= address < t.next ==> address in t.results)
  }

  /** All fresh copies are in the result, and every result is a fresh copy or where its allocation was. */
  lemma {:induction false} CopiesAreReturned(x: Executable, args: Arguments, s: State, k: nat)
    requires Ready(x, args, s) && k <= |x.outputs| && After(x, args, s, k).Ok?
    ensures Returned(x, s, After(x, args, s, k).value, k)
    decreases k
  {
    if k > 0 {
      CopiesAreReturned(x, args, s, k - 1);
      LoopKeeps(x, args, s, k - 1);
      ReturnedStep(x, args, s, After(x, args, s, k - 1).value, After(x, args, s, k).value, k - 1);
    }
  }

  lemma {:induction false} ReturnedStep(x: Executable, args: Arguments, s: State, t: State, t': State, k: nat)
    requires Ready(x, args, s) && k < |x.outputs| && LoopInvariant(x, args, s, t, k)
    requires Returned(x, s, t, k) && Assign(x, args, t, x.outputs[k]) == Ok(t')
    ensures Returned(x, s, t', k + 1)
  {
    var o := x.outputs[k];
    assert OutputFits(x, o);
    assert t'.results == t.results + [t'.results[k]];
    forall address | s.next <= address < t'.next ensures address in t'.results {
      if address >= t.next {
        assert t'.results[k] == address;
      }
    }
  }

  /** When the run is over, each buffer it allocated is either in the result or freed, not both, and
      no argument and no constant is freed. */
  lemma {:induction false} BuffersAccounted(x: Executable, args: Arguments, s: State, address: Address)
    requires Ready(x, args, s) && After(x, args, s, |x.outputs|).Ok?
    requires forall i :: 0 <= i < |x.outputs| && x.outputs[i].alloc < |x.kinds| ==> !x.kinds[x.outputs[i].alloc].Temp?
    ensures var t := After(x, args, s, |x.outputs|).value;
            && (Allocated(x, s, t, address) ==> (address in t.results <==> !Freed(x, t, address)))
            && (Freed(x, t, address) ==> Allocated(x, s, t, address))
  {
    var n := |x.outputs|;
    var t := After(x, args, s, n).value;
    LoopKeeps(x, args, s, n);
    CopiesAreReturned(x, args, s, n);
    forall a | 0 <= a < |x.kinds| && IsFresh(x.kinds[a]) ensures t.table[a] == s.table[a] < s.next {
      NeverMoved(x, args, a, n);
    }
    forall i, a | 0 <= i < n && 0 <= a < |x.kinds| && x.kinds[a].Temp? ensures t.results[i] != s.table[a] {
      assert OutputFits(x, x.outputs[i]);
    }
  }

  lemma {:induction false} NeverMoved(x: Executable, args: Arguments, a: nat, k: nat)
    requires Fits(x, args) && a < |x.kinds| && !x.kinds[a].Parameter? && k <= |x.outputs|
    ensures !Moved(x, args, a, k)
  {
    forall j | 0 <= j < k && Protects(x, args, j) ensures x.outputs[j].alloc != a {
      assert OutputFits(x, x.outputs[j]);
    }
  }

  // ---------------------------------------------------------------------------------------------
  // Why the order of outputs matters

  function SharingExecutable(): Executable {
    Executable([Parameter(0)],
               [Output(0, NoAlias, false, false), Output(0, MayAlias, false, false)],
               [Thunk({0}, (v, a) => [1])])
  }

  function SharingStart(): State {
    State([], [0], [], map[0 := [0]], 1)
  }

  function SharingEnd(): State {
    State([0, 1], [1], [], map[0 := [0], 1 := [0]], 2)
  }

  lemma {:induction false} SharingReady()
    ensures Ready(SharingExecutable(), Shaped([0]), SharingStart())
  {
  }

  lemma {:induction false} SharingRun()
    requires Ready(SharingExecutable(), Shaped([0]), SharingStart())
    ensures After(SharingExecutable(), Shaped([0]), SharingStart(), 2) == Ok(SharingEnd())
  {
    var x, args, s := SharingExecutable(), Shaped([0]), SharingStart();
    assert After(x, args, s, 0) == Ok(s);
    assert Assign(x, args, s, x.outputs[0]) == Ok(Give(s, 0));
    assert After(x, args, s, 1) == Ok(Give(s, 0));
    assert CopyProtect(Give(s, 0), 0) == SharingEnd();
  }

  lemma {:induction false} SharingThunks()
    ensures var x, t := SharingExecutable(), SharingEnd();
            0 in Final(x, t) && Final(x, t)[0] == [0] && ApplyAll(x.thunks, [[0]]) == [[1]]
  {
    var x, t := SharingExecutable(), SharingEnd();
    ThunksLeaveAlone(x.thunks, t.table, t.memory, 0);
    assert x.thunks[1..] == [];
    var v := Apply(x.thunks[0], [[0]]);
    assert v == [[1]];
    assert ApplyAll(x.thunks, [[0]]) == ApplyAll([], v);
  }

  /** Two outputs of one parameter, the second an alias that is not donated: the first output is left
      with the contents from before the thunks ran. */
  lemma {:induction false} DisplacedOutputIsStale()
    ensures var x, args, s, t := SharingExecutable(), Shaped([0]), SharingStart(), SharingEnd();
            && Ready(x, args, s) && !NoneDisplaced(x, args) && After(x, args, s, 2) == Ok(t)
            && t.results[0] in Final(x, t)
            && Final(x, t)[t.results[0]] != ApplyAll(x.thunks, View(s.memory, s.table))[x.outputs[0].alloc]
  {
    var x, args, s := SharingExecutable(), Shaped([0]), SharingStart();
    SharingReady();
    SharingRun();
    SharingThunks();
    assert Protects(x, args, 1) && x.outputs[0].alloc == x.outputs[1].alloc;
    assert View(s.memory, s.table) == [[0]];
  }
}
