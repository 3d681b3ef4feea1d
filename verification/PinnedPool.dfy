/** The pinned host buffers of GpuTransferManager, shared by concurrent ReadDynamicShapes calls. */
module PinnedPool {
  import opened Ordering
  import opened Wrappers

  const PinnedChunkBytes: nat := 128 * 1024
  const PinnedBufferBytes: nat := 128

  type Address = nat
  type CallId = nat

  /** One dynamic leaf: its metadata on the device, 32-bit words, and the rank to read back. */
  datatype Leaf = Leaf(metadata: seq<int>, rank: nat)

  function Bytes(leaf: Leaf): nat {
    4 * |leaf.metadata|
  }

  /** A pinned slot, or a buffer of the call's own for its leaf number index. */
  datatype Dest = Slot(address: Address) | Own(call: CallId, index: nat)

  function Slots(base: Address, n: nat): (s: seq<Address>)
    ensures |s| == n
  {
    seq(n, i requires 0 <= i < n => base + PinnedBufferBytes * i)
  }

  function AllSlots(base: Address): (s: seq<Address>) {
    Slots(base, PinnedChunkBytes / PinnedBufferBytes)
  }

  /** The slots lie within the chunk and do not overlap. */
  lemma {:induction false} SlotsAreDisjoint(base: Address, n: nat)
    ensures Distinct(Slots(base, n))
    ensures forall i :: 0 <= i < n ==>
              base <= Slots(base, n)[i] && Slots(base, n)[i] + PinnedBufferBytes <= base + PinnedBufferBytes * n
    ensures forall i, j :: 0 <= i < j < n ==> Slots(base, n)[i] + PinnedBufferBytes <= Slots(base, n)[j]
  {
  }

  /** A whole buffer inside the chunk, a whole number of buffers from its start. */
  predicate InChunk(base: Address, a: Address) {
    base <= a && a + PinnedBufferBytes <= base + PinnedChunkBytes && (a - base) % PinnedBufferBytes == 0
  }

  /** The slots are all the places in the chunk for a buffer, each once. */
  lemma {:induction false} SlotsFillTheChunk(base: Address)
    ensures forall a: Address :: a in AllSlots(base) <==> InChunk(base, a)
    ensures Distinct(AllSlots(base))
  {
    var all := AllSlots(base);
    SlotsAreDisjoint(base, PinnedChunkBytes / PinnedBufferBytes);
    forall a: Address ensures a in all <==> InChunk(base, a) {
      if InChunk(base, a) {
        assert all[(a - base) / PinnedBufferBytes] == a;
      }
      if a in all {
        var i :| 0 <= i < |all| && all[i] == a;
        assert a - base == PinnedBufferBytes * i;
      }
    }
  }

  lemma {:induction false} PlacesApart(base: Address, a: Address, b: Address)
    requires InChunk(base, a) && InChunk(base, b) && a < b
    ensures a + PinnedBufferBytes <= b
  {
  }

  // ---------------------------------------------------------------------------------------------
  // Checking out

  datatype Taken = Taken(free: seq<Address>, out: seq<Address>, dests: seq<Dest>)

  /** Where each leaf goes when a call with these leaves finds this free list. */
  function Take(id: CallId, free: seq<Address>, leaves: seq<Leaf>): (t: Taken)
    ensures |t.dests| == |leaves|
  {
    if leaves == [] then Taken(free, [], [])
    else
      var n := |leaves| - 1;
      var t := Take(id, free, leaves[..n]);
      if t.free != [] && Bytes(leaves[n]) <= PinnedBufferBytes then
        var last := t.free[|t.free| - 1];
        Taken(t.free[..|t.free| - 1], t.out + [last], t.dests + [Slot(last)])
      else Taken(t.free, t.out, t.dests + [Own(id, n)])
  }

  function Small(leaves: seq<Leaf>): nat {
    if leaves == [] then 0
    else Small(leaves[..|leaves| - 1]) + if Bytes(leaves[|leaves| - 1]) <= PinnedBufferBytes then 1 else 0
  }

  /** The free list and the slots handed out are together the old free list, and as many slots are
      handed out as there are leaves that fit and slots to give. */
  lemma {:induction false} TakeSplits(id: CallId, free: seq<Address>, leaves: seq<Leaf>)
    ensures var t := Take(id, free, leaves);
            && |t.out| == (if Small(leaves) <= |free| then Small(leaves) else |free|)
            && |t.free| + |t.out| == |free| && t.free == free[..|t.free|]
            && forall i :: 0 <= i < |t.out| ==> t.out[i] == free[|free| - 1 - i]
    decreases |leaves|
  {
    if leaves != [] {
      TakeSplits(id, free, leaves[..|leaves| - 1]);
    }
  }

  ghost predicate DestFits(id: CallId, out: seq<Address>, leaves: seq<Leaf>, dests: seq<Dest>, i: nat)
    requires i < |dests| == |leaves|
  {
    match dests[i]
    case Slot(address) => address in out && Bytes(leaves[i]) <= PinnedBufferBytes
    case Own(call, index) => call == id && index == i
  }

  /** Every leaf has a destination of its own that it fits into. */
  ghost predicate Assigned(id: CallId, out: seq<Address>, leaves: seq<Leaf>, dests: seq<Dest>) {
    |dests| == |leaves| && Distinct(dests) && forall i :: 0 <= i < |dests| ==> DestFits(id, out, leaves, dests, i)
  }

  lemma {:induction false} TakeAssigns(id: CallId, free: seq<Address>, leaves: seq<Leaf>)
    requires Distinct(free)
    ensures var t := Take(id, free, leaves); Assigned(id, t.out, leaves, t.dests)
    decreases |leaves|
  {
    if leaves != [] {
      var n := |leaves| - 1;
      TakeAssigns(id, free, leaves[..n]);
      TakeSplits(id, free, leaves[..n]);
      var t, t' := Take(id, free, leaves[..n]), Take(id, free, leaves);
      forall i | 0 <= i < n ensures t'.dests[i] == t.dests[i] && t'.dests[i] != t'.dests[n] &&
          DestFits(id, t'.out, leaves, t'.dests, i) {
        assert DestFits(id, t.out, leaves[..n], t.dests, i);
      }
    }
  }

  /** A leaf falls back to unpinned memory exactly when it is too big or the slots have run out. */
  lemma {:induction false} FallsBackExactly(id: CallId, free: seq<Address>, leaves: seq<Leaf>, i: nat)
    requires i < |leaves|
    ensures Take(id, free, leaves).dests[i].Own? <==>
              Bytes(leaves[i]) > PinnedBufferBytes || Small(leaves[..i]) >= |free|
    decreases |leaves|
  {
    var n := |leaves| - 1;
    if i < n {
      FallsBackExactly(id, free, leaves[..n], i);
      assert leaves[..n][..i] == leaves[..i];
    } else {
      TakeSplits(id, free, leaves[..n]);
    }
  }

  class Pool {
    var chunk: Option<Address>
    var free: seq<Address>

    constructor ()
      ensures chunk == None && free == []
    {
      chunk, free := None, [];
    }

    /** base is what the executor's host allocator returns if it is asked. */
    method EnsurePinnedBuffersAllocated(base: Address)
      modifies this
      ensures chunk == if old(chunk).Some? then old(chunk) else Some(base)
      ensures free == if old(chunk).Some? then old(free) else old(free) + AllSlots(base)
      ensures old(chunk).None? && old(free) == [] ==>
                Distinct(free) && forall a: Address :: a in free <==> InChunk(base, a)
    {
      if chunk.Some? {
        return;
      }
      SlotsFillTheChunk(base);
      chunk := Some(base);
      var buf := base;
      ghost var n := 0;
      while buf < base + PinnedChunkBytes
        invariant buf == base + PinnedBufferBytes * n && n <= PinnedChunkBytes / PinnedBufferBytes
        invariant free == old(free) + Slots(base, n) && chunk == Some(base)
        decreases base + PinnedChunkBytes - buf
      {
        assert Slots(base, n + 1) == Slots(base, n) + [buf];
        free := free + [buf];
        buf := buf + PinnedBufferBytes;
        n := n + 1;
      }
    }

    /** The critical section that checks out a destination for every leaf. */
    method CheckOut(id: CallId, base: Address, leaves: seq<Leaf>) returns (out: seq<Address>, dests: seq<Dest>)
      modifies this
      ensures chunk == if old(chunk).Some? then old(chunk) else Some(base)
      ensures var before := if old(chunk).Some? then old(free) else old(free) + AllSlots(base);
              Taken(free, out, dests) == Take(id, before, leaves)
    {
      EnsurePinnedBuffersAllocated(base);
      ghost var before := free;
      out, dests := [], [];
      for i := 0 to |leaves|
        invariant Taken(free, out, dests) == Take(id, before, leaves[..i])
        invariant chunk == if old(chunk).Some? then old(chunk) else Some(base)
      {
        assert leaves[..i + 1][..i] == leaves[..i];
        if free != [] && Bytes(leaves[i]) <= PinnedBufferBytes {
          var buf := free[|free| - 1];
          free := free[..|free| - 1];
          out, dests := out + [buf], dests + [Slot(buf)];
        } else {
          dests := dests + [Own(id, i)];
        }
      }
      assert leaves[..|leaves|] == leaves;
    }

    /** The cleanup that every return, early or not, runs. */
    method GiveBack(out: seq<Address>)
      modifies this
      ensures free == old(free) + out && chunk == old(chunk)
    {
      free := free + out;
    }

    /** One call from beginning to end, with nobody else about.  It fails on a leaf without metadata, before
        it touches the pool, or if the copies do not complete.  Either way all slots it took are back, and if
        it succeeds every leaf has its own dimensions. */
    method ReadDynamicShapes(id: CallId, base: Address, leaves: seq<Leaf>, copiesComplete: bool)
      returns (dims: Option<seq<seq<int>>>)
      requires Distinct(free) && (chunk.None? ==> free == [])
      requires forall i :: 0 <= i < |leaves| ==> leaves[i].rank <= |leaves[i].metadata|
      modifies this
      ensures dims.Some? <==> Acceptable(leaves) && copiesComplete
      ensures dims.Some? ==> |dims.value| == |leaves|
      ensures dims.Some? ==>
                forall i :: 0 <= i < |leaves| ==> dims.value[i] == leaves[i].metadata[..leaves[i].rank]
      ensures if Acceptable(leaves)
              then chunk == (if old(chunk).Some? then old(chunk) else Some(base)) &&
                   multiset(free) == multiset(if old(chunk).Some? then old(free) else AllSlots(base))
              else chunk == old(chunk) && free == old(free)
    {
      if !Acceptable(leaves) {
        return None;
      }
      ghost var before := if chunk.Some? then free else AllSlots(base);
      SlotsAreDisjoint(base, PinnedChunkBytes / PinnedBufferBytes);
      assert old(free) + AllSlots(base) == AllSlots(base) || old(chunk).Some?;
      var out, dests := CheckOut(id, base, leaves);
      TakeAssigns(id, before, leaves);
      TakeConserves(id, before, leaves);
      if copiesComplete {
        var host := CopyAll(leaves, dests);
        var read := ReadAll(leaves, dests, host);
        dims := Some(read);
      } else {
        dims := None;
      }
      GiveBack(out);
    }
  }

  /** The copies to the host. */
  method CopyAll(leaves: seq<Leaf>, dests: seq<Dest>) returns (host: map<Dest, seq<int>>)
    requires |dests| == |leaves| && Distinct(dests)
    ensures forall i :: 0 <= i < |dests| ==> dests[i] in host && host[dests[i]] == leaves[i].metadata
  {
    host := map[];
    for i := 0 to |leaves|
      invariant forall j :: 0 <= j < i ==> dests[j] in host && host[dests[j]] == leaves[j].metadata
    {
      host := host[dests[i] := leaves[i].metadata];
    }
  }

  /** The dimensions read back from the host. */
  method ReadAll(leaves: seq<Leaf>, dests: seq<Dest>, host: map<Dest, seq<int>>) returns (dims: seq<seq<int>>)
    requires |dests| == |leaves|
    requires forall i :: 0 <= i < |leaves| ==> leaves[i].rank <= |leaves[i].metadata|
    requires forall i :: 0 <= i < |dests| ==> dests[i] in host && host[dests[i]] == leaves[i].metadata
    ensures |dims| == |leaves| && forall i :: 0 <= i < |leaves| ==> dims[i] == leaves[i].metadata[..leaves[i].rank]
  {
    dims := [];
    for i := 0 to |leaves|
      invariant |dims| == i && forall j :: 0 <= j < i ==> dims[j] == leaves[j].metadata[..leaves[j].rank]
    {
      dims := dims + [host[dests[i]][..leaves[i].rank]];
    }
  }

  /** Nothing is lost between the free list and the slots handed out. */
  lemma {:induction false} TakeConserves(id: CallId, free: seq<Address>, leaves: seq<Leaf>)
    ensures var t := Take(id, free, leaves); multiset(t.free + t.out) == multiset(free)
    decreases |leaves|
  {
    if leaves != [] {
      var n := |leaves| - 1;
      var t, t' := Take(id, free, leaves[..n]), Take(id, free, leaves);
      TakeConserves(id, free, leaves[..n]);
      if t.free != [] {
        var m := |t.free| - 1;
        assert t.free == t.free[..m] + [t.free[m]];
      }
    }
  }

  // ---------------------------------------------------------------------------------------------
  // Concurrent calls

  /** A call between checking out and giving back: whether it has issued its copies, and the dimensions it
      has written so far. */
  datatype Call = Call(leaves: seq<Leaf>, out: seq<Address>, dests: seq<Dest>, issued: bool, dims: seq<seq<int>>)

  /** A copy on its way to the host.  It outlives the call that issued it if that returns early. */
  datatype Flight = Flight(id: CallId, index: nat, dest: Dest, data: seq<int>)

  /** Calls are numbered as they enter; ids from next on are unused. */
  datatype State = State(
    chunk: Option<Address>, free: seq<Address>, calls: map<CallId, Call>, next: CallId, flights: set<Flight>,
    host: map<Dest, seq<int>>)

  /** Return: at any time, as when BlockHostUntilDone fails with copies still in flight. */
  datatype Step =
    | Enter(base: Address, leaves: seq<Leaf>)
    | Issue(id: CallId)
    | Land(f: Flight)
    | ReadBack(id: CallId)
    | Return(id: CallId)

  /** A leaf with no metadata ends the call before it checks anything out. */
  predicate Acceptable(leaves: seq<Leaf>) {
    forall i :: 0 <= i < |leaves| ==> leaves[i].metadata != [] && leaves[i].rank <= |leaves[i].metadata|
  }

  /** BlockHostUntilDone has succeeded: no copy of the call is in flight. */
  predicate AllLanded(s: State, id: CallId) {
    forall f :: f in s.flights ==> f.id != id
  }

  predicate Enabled(s: State, step: Step) {
    match step
    case Enter(base, leaves) => Acceptable(leaves)
    case Issue(id) => id in s.calls && !s.calls[id].issued && |s.calls[id].dests| == |s.calls[id].leaves|
    case Land(f) => f in s.flights
    case ReadBack(id) =>
      && id in s.calls && s.calls[id].issued && AllLanded(s, id)
      && |s.calls[id].dims| < |s.calls[id].dests| == |s.calls[id].leaves|
    case Return(id) => id in s.calls
  }

  function Prefix(words: seq<int>, n: nat): seq<int> {
    if n <= |words| then words[..n] else words
  }

  function Read(host: map<Dest, seq<int>>, d: Dest): seq<int> {
    if d in host then host[d] else []
  }

  function FlightOf(id: CallId, c: Call, i: nat): Flight
    requires i < |c.dests| == |c.leaves|
  {
    Flight(id, i, c.dests[i], c.leaves[i].metadata)
  }

  function Flights(id: CallId, c: Call): set<Flight>
    requires |c.dests| == |c.leaves|
  {
    set i | 0 <= i < |c.dests| :: FlightOf(id, c, i)
  }

  /** The free list after lazy initialisation. */
  function Stock(s: State, base: Address): seq<Address> {
    if s.chunk.Some? then s.free else s.free + AllSlots(base)
  }

  function WithDims(c: Call, host: map<Dest, seq<int>>): Call
    requires |c.dims| < |c.dests| == |c.leaves|
  {
    c.(dims := c.dims + [Prefix(Read(host, c.dests[|c.dims|]), c.leaves[|c.dims|].rank)])
  }

  function Next(s: State, step: Step): State
    requires Enabled(s, step)
  {
    match step
    case Enter(base, leaves) =>
      var t := Take(s.next, Stock(s, base), leaves);
      s.(chunk := if s.chunk.Some? then s.chunk else Some(base), free := t.free, next := s.next + 1,
         calls := s.calls[s.next := Call(leaves, t.out, t.dests, false, [])])
    case Issue(id) =>
      s.(calls := s.calls[id := s.calls[id].(issued := true)], flights := s.flights + Flights(id, s.calls[id]))
    case Land(f) => s.(flights := s.flights - {f}, host := s.host[f.dest := f.data])
    case ReadBack(id) => s.(calls := s.calls[id := WithDims(s.calls[id], s.host)])
    case Return(id) => s.(free := s.free + s.calls[id].out, calls := s.calls - {id})
  }

  function Initial(): State {
    State(None, [], map[], 0, {}, map[])
  }

  ghost predicate CanRun(s: State, steps: seq<Step>)
    decreases |steps|
  {
    steps != [] ==> Enabled(s, steps[0]) && CanRun(Next(s, steps[0]), steps[1..])
  }

  ghost function Run(s: State, steps: seq<Step>): State
    requires CanRun(s, steps)
    decreases |steps|
  {
    if steps == [] then s else Run(Next(s, steps[0]), steps[1..])
  }

  // ---------------------------------------------------------------------------------------------
  // Conservation

  ghost predicate IsSlot(s: State, address: Address) {
    s.chunk.Some? && address in AllSlots(s.chunk.value)
  }

  ghost predicate Held(s: State, address: Address) {
    exists id :: id in s.calls && address in s.calls[id].out
  }

  ghost predicate HolderOk(s: State, id: CallId)
    requires id in s.calls
  {
    Distinct(s.calls[id].out) && forall k :: 0 <= k < |s.calls[id].out| ==>
        IsSlot(s, s.calls[id].out[k]) && s.calls[id].out[k] !in s.free
  }

  ghost predicate Apart(s: State, id: CallId, other: CallId)
    requires id in s.calls && other in s.calls
  {
    forall k :: 0 <= k < |s.calls[id].out| ==> s.calls[id].out[k] !in s.calls[other].out
  }

  /** Every slot of the chunk is exactly once in the free list or in one call's list. */
  ghost predicate Conserved(s: State) {
    && Distinct(s.free) && (forall k :: 0 <= k < |s.free| ==> IsSlot(s, s.free[k]))
    && (forall id :: id in s.calls ==> HolderOk(s, id))
    && (forall id, other :: id in s.calls && other in s.calls && id != other ==> Apart(s, id, other))
    && (forall address :: IsSlot(s, address) ==> address in s.free || Held(s, address))
  }

  lemma {:induction false} TakeMembers(id: CallId, free: seq<Address>, leaves: seq<Leaf>)
    requires Distinct(free)
    ensures var t := Take(id, free, leaves);
            && Distinct(t.free) && Distinct(t.out)
            && (forall k :: 0 <= k < |t.out| ==> t.out[k] !in t.free)
            && (forall address :: address in free <==> address in t.free || address in t.out)
  {
    TakeSplits(id, free, leaves);
    var t := Take(id, free, leaves);
    forall address | address in free ensures address in t.free || address in t.out {
      var i :| 0 <= i < |free| && free[i] == address;
      if i >= |t.free| {
        assert t.out[|free| - 1 - i] == address;
      }
    }
  }

  /** After lazy initialisation the free list holds distinct slots and nobody else holds them. */
  lemma {:induction false} StockConserved(s: State, base: Address)
    requires Conserved(s)
    ensures var s' := s.(chunk := if s.chunk.Some? then s.chunk else Some(base), free := Stock(s, base));
            Conserved(s')
  {
    var s' := s.(chunk := if s.chunk.Some? then s.chunk else Some(base), free := Stock(s, base));
    if s.chunk.None? {
      assert |s.free| > 0 ==> IsSlot(s, s.free[0]);
      assert s.free == [];
      SlotsAreDisjoint(base, PinnedChunkBytes / PinnedBufferBytes);
      forall id | id in s'.calls ensures s'.calls[id].out == [] {
        var out := s.calls[id].out;
        var first := if out == [] then 0 else out[0];
        assert HolderOk(s, id) && !IsSlot(s, first);
      }
    } else {
      assert s' == s;
    }
  }

  lemma {:induction false} EnterConserved(s: State, id: CallId, leaves: seq<Leaf>)
    requires Conserved(s) && id !in s.calls
    ensures var t := Take(id, s.free, leaves);
            Conserved(s.(free := t.free, calls := s.calls[id := Call(leaves, t.out, t.dests, false, [])]))
  {
    var t := Take(id, s.free, leaves);
    var s' := s.(free := t.free, calls := s.calls[id := Call(leaves, t.out, t.dests, false, [])]);
    TakeMembers(id, s.free, leaves);
    forall address | address in s.free ensures IsSlot(s', address) {
      assert IsSlot(s, address);
    }
    forall k | 0 <= k < |t.free| ensures IsSlot(s', t.free[k]) {
      assert t.free[k] in s.free;
    }
    forall other | other in s'.calls ensures HolderOk(s', other) {
      if other != id {
        assert HolderOk(s, other);
      }
    }
    forall a, b | a in s'.calls && b in s'.calls && a != b ensures Apart(s', a, b) {
      EnterApart(s, s', id, a, b);
    }
    forall address | IsSlot(s', address) ensures address in s'.free || Held(s', address) {
      assert IsSlot(s, address);
      if address in t.out {
        assert address in s'.calls[id].out;
      } else if address !in s.free {
        var other :| other in s.calls && address in s.calls[other].out;
        assert address in s'.calls[other].out;
      }
    }
  }

  lemma {:induction false} EnterApart(s: State, s': State, id: CallId, a: CallId, b: CallId)
    requires Conserved(s) && id !in s.calls && s'.calls.Keys == s.calls.Keys + {id}
    requires forall other :: other in s.calls ==> s'.calls[other] == s.calls[other]
    requires forall k :: 0 <= k < |s'.calls[id].out| ==> s'.calls[id].out[k] in s.free
    requires a in s'.calls && b in s'.calls && a != b
    ensures Apart(s', a, b)
  {
    if a == id {
      assert HolderOk(s, b);
    } else if b == id {
      assert HolderOk(s, a);
    } else {
      assert Apart(s, a, b);
    }
  }

  lemma {:induction false} ReturnConserved(s: State, id: CallId)
    requires Conserved(s) && id in s.calls
    ensures Conserved(s.(free := s.free + s.calls[id].out, calls := s.calls - {id}))
  {
    var s' := s.(free := s.free + s.calls[id].out, calls := s.calls - {id});
    assert HolderOk(s, id);
    forall other | other in s'.calls ensures HolderOk(s', other) {
      assert HolderOk(s, other) && Apart(s, other, id);
    }
    forall a, b | a in s'.calls && b in s'.calls && a != b ensures Apart(s', a, b) {
      assert Apart(s, a, b);
    }
    forall address | IsSlot(s', address) ensures address in s'.free || Held(s', address) {
      assert IsSlot(s, address);
      if address !in s'.free {
        var other :| other in s.calls && address in s.calls[other].out;
        assert address in s'.calls[other].out;
      }
    }
  }

  /** Steps that change neither the free list nor any call's list keep the slots where they are. */
  lemma {:induction false} SameSlots(s: State, s': State)
    requires Conserved(s) && s'.chunk == s.chunk && s'.free == s.free && s'.calls.Keys == s.calls.Keys
    requires forall id :: id in s.calls ==> s'.calls[id].out == s.calls[id].out
    ensures Conserved(s')
  {
    forall id | id in s'.calls ensures HolderOk(s', id) {
      assert HolderOk(s, id);
    }
    forall a, b | a in s'.calls && b in s'.calls && a != b ensures Apart(s', a, b) {
      assert Apart(s, a, b);
    }
    forall address | IsSlot(s', address) ensures address in s'.free || Held(s', address) {
      assert IsSlot(s, address);
      if address !in s'.free {
        var other :| other in s.calls && address in s.calls[other].out;
        assert address in s'.calls[other].out;
      }
    }
  }

  // ---------------------------------------------------------------------------------------------
  // What holds in every run

  ghost predicate CallShaped(s: State, id: CallId)
    requires id in s.calls
  {
    var c := s.calls[id];
    id < s.next && Assigned(id, c.out, c.leaves, c.dests) && Acceptable(c.leaves) && |c.dims| <= |c.dests|
  }

  /** A flight of a live call is one of its copies; nobody else's buffer is its destination. */
  ghost predicate FlightShaped(s: State, f: Flight) {
    && f.data != [] && f.id < s.next && (f.dest.Own? ==> f.dest.call == f.id)
    && (f.id in s.calls ==>
          && f.index < |s.calls[f.id].dests| == |s.calls[f.id].leaves| && s.calls[f.id].issued
          && f == FlightOf(f.id, s.calls[f.id], f.index))
  }

  ghost predicate Base(s: State) {
    && Conserved(s)
    && (forall id :: id in s.calls ==> CallShaped(s, id))
    && (forall f :: f in s.flights ==> FlightShaped(s, f))
  }

  lemma {:induction false} EnterBase(s: State, base: Address, leaves: seq<Leaf>)
    requires Base(s) && Acceptable(leaves)
    ensures Base(Next(s, Enter(base, leaves)))
  {
    var s' := Next(s, Enter(base, leaves));
    var stocked := s.(chunk := if s.chunk.Some? then s.chunk else Some(base), free := Stock(s, base));
    StockConserved(s, base);
    assert s.next !in s.calls by {
      assert s.next in s.calls ==> CallShaped(s, s.next);
    }
    EnterConserved(stocked, s.next, leaves);
    SameSlots(stocked.(free := s'.free, calls := s'.calls), s');
    TakeAssigns(s.next, stocked.free, leaves);
    forall f | f in s'.flights ensures FlightShaped(s', f) {
      assert FlightShaped(s, f);
    }
    forall id | id in s'.calls ensures CallShaped(s', id) {
      assert id != s.next ==> CallShaped(s, id);
    }
  }

  lemma {:induction false} IssueBase(s: State, id: CallId)
    requires Base(s) && Enabled(s, Issue(id))
    ensures Base(Next(s, Issue(id)))
  {
    var s' := Next(s, Issue(id));
    SameSlots(s, s');
    assert CallShaped(s, id);
    forall f | f in s'.flights ensures FlightShaped(s', f) {
      if f in s.flights {
        assert FlightShaped(s, f);
      } else {
        var i :| 0 <= i < |s.calls[id].dests| && f == FlightOf(id, s.calls[id], i);
        assert DestFits(id, s.calls[id].out, s.calls[id].leaves, s.calls[id].dests, i);
      }
    }
    forall other | other in s'.calls ensures CallShaped(s', other) {
      assert CallShaped(s, other);
    }
  }

  lemma {:induction false} LandBase(s: State, f: Flight)
    requires Base(s) && f in s.flights
    ensures Base(Next(s, Land(f)))
  {
    var s' := Next(s, Land(f));
    SameSlots(s, s');
    forall g | g in s'.flights ensures FlightShaped(s', g) {
      assert FlightShaped(s, g);
    }
    forall id | id in s'.calls ensures CallShaped(s', id) {
      assert CallShaped(s, id);
    }
  }

  lemma {:induction false} ReadBase(s: State, id: CallId)
    requires Base(s) && Enabled(s, ReadBack(id))
    ensures Base(Next(s, ReadBack(id)))
  {
    var s' := Next(s, ReadBack(id));
    SameSlots(s, s');
    forall f | f in s'.flights ensures FlightShaped(s', f) {
      assert FlightShaped(s, f);
    }
    forall other | other in s'.calls ensures CallShaped(s', other) {
      assert CallShaped(s, other);
    }
  }

  lemma {:induction false} ReturnBase(s: State, id: CallId)
    requires Base(s) && id in s.calls
    ensures Base(Next(s, Return(id)))
  {
    var s' := Next(s, Return(id));
    ReturnConserved(s, id);
    forall f | f in s'.flights ensures FlightShaped(s', f) {
      assert FlightShaped(s, f);
    }
    forall other | other in s'.calls ensures CallShaped(s', other) {
      assert CallShaped(s, other);
    }
  }

  lemma {:induction false} StepBase(s: State, step: Step)
    requires Base(s) && Enabled(s, step)
    ensures Base(Next(s, step))
  {
    match step
    case Enter(base, leaves) => EnterBase(s, base, leaves);
    case Issue(id) => IssueBase(s, id);
    case Land(f) => LandBase(s, f);
    case ReadBack(id) => ReadBase(s, id);
    case Return(id) => ReturnBase(s, id);
  }

  ghost predicate NoSharedBuffers(s: State) {
    forall a, b, i, j ::
      (a in s.calls && b in s.calls && (a != b || i != j) && 0 <= i < |s.calls[a].dests| &&
          0 <= j < |s.calls[b].dests|) ==>
      s.calls[a].dests[i] != s.calls[b].dests[j]
  }

  lemma {:induction false} BuffersApart(s: State, a: CallId, b: CallId, i: nat, j: nat)
    requires Base(s) && a in s.calls && b in s.calls && (a != b || i != j)
    requires i < |s.calls[a].dests| && j < |s.calls[b].dests|
    ensures s.calls[a].dests[i] != s.calls[b].dests[j]
  {
    assert CallShaped(s, a) && CallShaped(s, b);
    assert DestFits(a, s.calls[a].out, s.calls[a].leaves, s.calls[a].dests, i);
    assert DestFits(b, s.calls[b].out, s.calls[b].leaves, s.calls[b].dests, j);
    if a != b {
      assert Apart(s, a, b);
    }
  }

  /** In every state of every interleaving, with calls returning at any point and copies landing at any
      time: each slot is exactly once in the free list or in one call's list, every leaf has a buffer that
      it fits into, and no two leaves of live calls share one. */
  lemma {:induction false} PoolConserved(s: State, steps: seq<Step>)
    requires Base(s) && CanRun(s, steps)
    ensures Base(Run(s, steps)) && NoSharedBuffers(Run(s, steps))
    decreases |steps|
  {
    if steps == [] {
      forall a, b, i, j | a in s.calls && b in s.calls && (a != b || i != j) &&
                          0 <= i < |s.calls[a].dests| && 0 <= j < |s.calls[b].dests|
        ensures s.calls[a].dests[i] != s.calls[b].dests[j]
      {
        BuffersApart(s, a, b, i, j);
      }
    } else {
      StepBase(s, steps[0]);
      PoolConserved(Next(s, steps[0]), steps[1..]);
    }
  }

  /** In the free list or in the list of a live call. */
  ghost predicate InUse(s: State, a: Address) {
    a in s.free || Held(s, a)
  }

  /** In every state of every run: the addresses in the free list and in the calls' lists are exactly the
      places for a buffer in the chunk, and no two of these overlap. */
  lemma {:induction false} AddressesInChunk(s: State, steps: seq<Step>)
    requires Base(s) && CanRun(s, steps)
    ensures var t := Run(s, steps);
            && (forall a: Address :: InUse(t, a) <==> t.chunk.Some? && InChunk(t.chunk.value, a))
            && (forall a: Address, b: Address :: InUse(t, a) && InUse(t, b) && a < b ==> a + PinnedBufferBytes <= b)
  {
    PoolConserved(s, steps);
    var t := Run(s, steps);
    forall a: Address ensures InUse(t, a) <==> t.chunk.Some? && InChunk(t.chunk.value, a) {
      InUseIsSlot(t, a);
    }
    forall a: Address, b: Address | InUse(t, a) && InUse(t, b) && a < b ensures a + PinnedBufferBytes <= b {
      PlacesApart(t.chunk.value, a, b);
    }
  }

  lemma {:induction false} InUseIsSlot(s: State, a: Address)
    requires Conserved(s)
    ensures InUse(s, a) <==> s.chunk.Some? && InChunk(s.chunk.value, a)
  {
    if s.chunk.Some? {
      SlotsFillTheChunk(s.chunk.value);
    }
    assert IsSlot(s, a) <==> s.chunk.Some? && InChunk(s.chunk.value, a);
    if a in s.free {
      var k :| 0 <= k < |s.free| && s.free[k] == a;
    } else if Held(s, a) {
      var id :| id in s.calls && a in s.calls[id].out;
      assert HolderOk(s, id);
      var k :| 0 <= k < |s.calls[id].out| && s.calls[id].out[k] == a;
    }
  }

  lemma {:induction false} InitialBase()
    ensures Base(Initial())
  {
  }

  /** When no call is live the free list is a permutation of all slots. */
  lemma {:induction false} IdlePoolIsWhole(s: State)
    requires Base(s) && s.calls == map[] && s.chunk.Some?
    ensures |s.free| == PinnedChunkBytes / PinnedBufferBytes && Distinct(s.free)
    ensures Elements(s.free) == Elements(AllSlots(s.chunk.value))
  {
    var all := AllSlots(s.chunk.value);
    forall address | address in Elements(all) ensures address in Elements(s.free) {
      assert IsSlot(s, address);
    }
    forall address | address in Elements(s.free) ensures address in Elements(all) {
      assert IsSlot(s, address);
    }
    assert Elements(s.free) == Elements(all);
    SlotsAreDisjoint(s.chunk.value, PinnedChunkBytes / PinnedBufferBytes);
    DistinctCount(s.free);
    DistinctCount(all);
  }
}
