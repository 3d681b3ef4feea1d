/** Whose metadata a ReadDynamicShapes call reads back: its own, in all runs, exactly when no call returns
    with a copy still in flight to a pinned slot. */
module PinnedOwnership {
  import opened PinnedPool

  /** The dimensions written so far come from the call's own leaves. */
  predicate DimsOwn(c: Call) {
    |c.dims| <= |c.leaves| && forall i :: 0 <= i < |c.dims| ==>
        c.dims[i] == Prefix(c.leaves[i].metadata, c.leaves[i].rank)
  }

  ghost predicate Owned(s: State) {
    forall id :: id in s.calls ==> DimsOwn(s.calls[id])
  }

  /** The call has a copy in flight to a slot. */
  ghost predicate BadReturn(s: State, id: CallId) {
    exists f :: f in s.flights && f.id == id && f.dest.Slot?
  }

  // ---------------------------------------------------------------------------------------------
  // Without such returns

  /** Copies to slots belong to live calls. */
  ghost predicate NoStray(s: State) {
    forall f :: f in s.flights && f.dest.Slot? ==> f.id in s.calls
  }

  /** What has landed is still there. */
  ghost predicate Intact(s: State, id: CallId)
    requires id in s.calls
  {
    var c := s.calls[id];
    c.issued && |c.dests| == |c.leaves| ==>
      forall i :: 0 <= i < |c.dests| && FlightOf(id, c, i) !in s.flights ==>
          Read(s.host, c.dests[i]) == c.leaves[i].metadata
  }

  ghost predicate Sound(s: State) {
    Base(s) && NoStray(s) && Owned(s) && forall id :: id in s.calls ==> Intact(s, id)
  }

  lemma {:induction false} LandElsewhere(s: State, f: Flight, id: CallId)
    requires Sound(s) && f in s.flights && id in s.calls
    ensures Intact(Next(s, Land(f)), id)
  {
    var c, s' := s.calls[id], Next(s, Land(f));
    assert CallShaped(s, id) && FlightShaped(s, f) && Intact(s, id);
    forall i | c.issued && 0 <= i < |c.dests| && FlightOf(id, c, i) !in s'.flights
      ensures Read(s'.host, c.dests[i]) == c.leaves[i].metadata
    {
      assert DestFits(id, c.out, c.leaves, c.dests, i);
      if c.dests[i] == f.dest {
        SameBuffer(s, f, id, i);
      }
    }
  }

  /** Only a call's own copy is in flight to its buffer. */
  lemma {:induction false} SameBuffer(s: State, f: Flight, id: CallId, i: nat)
    requires Sound(s) && f in s.flights && id in s.calls
    requires i < |s.calls[id].dests| == |s.calls[id].leaves| && s.calls[id].dests[i] == f.dest
    ensures f == FlightOf(id, s.calls[id], i)
  {
    assert CallShaped(s, id) && FlightShaped(s, f);
    assert DestFits(id, s.calls[id].out, s.calls[id].leaves, s.calls[id].dests, i);
    assert f.id in s.calls;
    if f.id != id || f.index != i {
      BuffersApart(s, f.id, id, f.index, i);
    }
  }

  lemma {:induction false} LandSound(s: State, f: Flight)
    requires Sound(s) && f in s.flights
    ensures Sound(Next(s, Land(f)))
  {
    LandBase(s, f);
    forall id | id in s.calls ensures Intact(Next(s, Land(f)), id) {
      LandElsewhere(s, f, id);
    }
  }

  lemma {:induction false} EnterSound(s: State, base: Address, leaves: seq<Leaf>)
    requires Sound(s) && Acceptable(leaves)
    ensures Sound(Next(s, Enter(base, leaves)))
  {
    var s' := Next(s, Enter(base, leaves));
    EnterBase(s, base, leaves);
    forall id | id in s'.calls ensures Intact(s', id) && DimsOwn(s'.calls[id]) {
      assert id != s.next ==> Intact(s, id);
    }
  }

  lemma {:induction false} IssueSound(s: State, id: CallId)
    requires Sound(s) && Enabled(s, Issue(id))
    ensures Sound(Next(s, Issue(id)))
  {
    var s' := Next(s, Issue(id));
    IssueBase(s, id);
    forall other | other in s'.calls ensures Intact(s', other) {
      if other == id {
        forall i | 0 <= i < |s.calls[id].dests| ensures FlightOf(id, s'.calls[id], i) in s'.flights {
          assert FlightOf(id, s.calls[id], i) in Flights(id, s.calls[id]);
        }
      } else {
        assert Intact(s, other);
      }
    }
  }

  lemma {:induction false} ReadSound(s: State, id: CallId)
    requires Sound(s) && Enabled(s, ReadBack(id))
    ensures Sound(Next(s, ReadBack(id)))
  {
    var s', c := Next(s, ReadBack(id)), s.calls[id];
    ReadBase(s, id);
    assert Intact(s, id);
    assert FlightOf(id, c, |c.dims|) !in s.flights;
    forall other | other in s'.calls ensures Intact(s', other) {
      assert Intact(s, other);
      if other == id {
        assert forall i :: 0 <= i < |c.dests| ==> FlightOf(id, s'.calls[id], i) == FlightOf(id, c, i);
      }
    }
  }

  lemma {:induction false} ReturnSound(s: State, id: CallId)
    requires Sound(s) && id in s.calls && !BadReturn(s, id)
    ensures Sound(Next(s, Return(id)))
  {
    ReturnBase(s, id);
    forall other | other in Next(s, Return(id)).calls ensures Intact(Next(s, Return(id)), other) {
      assert Intact(s, other);
    }
  }

  lemma {:induction false} StepSound(s: State, step: Step)
    requires Sound(s) && Enabled(s, step) && (step.Return? ==> !BadReturn(s, step.id))
    ensures Sound(Next(s, step))
  {
    match step
    case Enter(base, leaves) => EnterSound(s, base, leaves);
    case Issue(id) => IssueSound(s, id);
    case Land(f) => LandSound(s, f);
    case ReadBack(id) => ReadSound(s, id);
    case Return(id) => ReturnSound(s, id);
  }

  // ---------------------------------------------------------------------------------------------
  // After such a return

  /** steps lead from s to t without any call returning. */
  ghost predicate Leads(s: State, steps: seq<Step>, t: State) {
    CanRun(s, steps) && Run(s, steps) == t && forall i :: 0 <= i < |steps| ==> !steps[i].Return?
  }

  lemma {:induction false} RunJoin(s: State, a: seq<Step>, b: seq<Step>)
    requires CanRun(s, a) && CanRun(Run(s, a), b)
    ensures CanRun(s, a + b) && Run(s, a + b) == Run(Run(s, a), b)
    decreases |a|
  {
    if a == [] {
      assert a + b == b;
    } else {
      assert (a + b)[0] == a[0] && (a + b)[1..] == a[1..] + b;
      RunJoin(Next(s, a[0]), a[1..], b);
    }
  }

  lemma {:induction false} LeadsJoin(s: State, a: seq<Step>, t: State, b: seq<Step>, u: State)
    requires Leads(s, a, t) && Leads(t, b, u)
    ensures Leads(s, a + b, u)
  {
    RunJoin(s, a, b);
  }

  lemma {:induction false} LeadsOne(s: State, step: Step)
    requires Enabled(s, step) && !step.Return?
    ensures Leads(s, [step], Next(s, step))
  {
    RunOne(s, step);
  }

  /** All copies of a call can land while a stray one stays in flight. */
  lemma {:induction false} LandAll(s: State, id: CallId, f: Flight) returns (steps: seq<Step>, t: State)
    requires f in s.flights && f.id != id
    ensures Leads(s, steps, t) && AllLanded(t, id) && f in t.flights && t.calls == s.calls
    decreases |s.flights|
  {
    if AllLanded(s, id) {
      steps, t := [], s;
    } else {
      var g :| g in s.flights && g.id == id;
      var s' := Next(s, Land(g));
      LeadsOne(s, Land(g));
      var rest: seq<Step>;
      rest, t := LandAll(s', id, f);
      steps := [Land(g)] + rest;
      LeadsJoin(s, [Land(g)], s', rest, t);
    }
  }

  /** What a call that has written n dimensions looks like. */
  ghost predicate HasRead(s: State, t: State, id: CallId, n: nat)
    requires id in s.calls && |s.calls[id].dests| == |s.calls[id].leaves|
  {
    && t.host == s.host && t.flights == s.flights && id in t.calls
    && n <= |s.calls[id].dests| && |t.calls[id].dims| == n && t.calls[id] == s.calls[id].(dims := t.calls[id].dims)
    && forall i :: 0 <= i < n ==> t.calls[id].dims[i] == Prefix(Read(s.host, s.calls[id].dests[i]),
        s.calls[id].leaves[i].rank)
  }

  lemma {:induction false} ReadUpTo(s: State, id: CallId, n: nat) returns (steps: seq<Step>, t: State)
    requires id in s.calls && s.calls[id].issued && AllLanded(s, id) && s.calls[id].dims == []
    requires n <= |s.calls[id].dests| == |s.calls[id].leaves|
    ensures Leads(s, steps, t) && HasRead(s, t, id, n)
  {
    if n == 0 {
      steps, t := [], s;
    } else {
      var before, m := ReadUpTo(s, id, n - 1);
      LeadsOne(m, ReadBack(id));
      t := Next(m, ReadBack(id));
      steps := before + [ReadBack(id)];
      LeadsJoin(s, before, m, [ReadBack(id)], t);
    }
  }

  /** Enough small leaves take every slot from the end of the free list down to any given one. */
  lemma {:induction false} TakeDownTo(id: CallId, free: seq<Address>, leaves: seq<Leaf>)
    requires |leaves| <= |free| && forall i :: 0 <= i < |leaves| ==> Bytes(leaves[i]) <= PinnedBufferBytes
    ensures var t := Take(id, free, leaves);
            && t.free == free[..|free| - |leaves|]
            && forall i :: 0 <= i < |leaves| ==> t.dests[i] == Slot(free[|free| - 1 - i])
    decreases |leaves|
  {
    if leaves != [] {
      TakeDownTo(id, free, leaves[..|leaves| - 1]);
    }
  }

  function Others(x: int, k: nat): seq<Leaf> {
    seq(k, _ => Leaf([x], 1))
  }

  /** A call that checks out all slots down to position p of the free list, and issues its copies. */
  lemma {:induction false} NewCall(s: State, p: nat, x: int, base: Address) returns (steps: seq<Step>, t: State)
    requires s.chunk.Some? && p < |s.free|
    ensures Leads(s, steps, t) && s.flights <= t.flights && s.next in t.calls
    ensures var c, k := t.calls[s.next], |s.free| - p;
            && c.issued && c.dims == [] && c.leaves == Others(x, k) && |c.dests| == k &&
                c.dests[k - 1] == Slot(s.free[p])
  {
    var k := |s.free| - p;
    var leaves := Others(x, k);
    var m := Next(s, Enter(base, leaves));
    TakeDownTo(s.next, s.free, leaves);
    LeadsOne(s, Enter(base, leaves));
    LeadsOne(m, Issue(s.next));
    t := Next(m, Issue(s.next));
    steps := [Enter(base, leaves), Issue(s.next)];
    LeadsJoin(s, [Enter(base, leaves)], m, [Issue(s.next)], t);
    assert steps == [Enter(base, leaves)] + [Issue(s.next)];
  }

  /** A stray copy to a free slot can end up in the dimensions of a call that has nothing to do with it. */
  lemma {:induction false} StrayBreaks(s: State, f: Flight, p: nat) returns (steps: seq<Step>, t: State)
    requires s.chunk.Some? && f in s.flights && f.data != [] && f.id != s.next
    requires p < |s.free| && f.dest == Slot(s.free[p])
    ensures Leads(s, steps, t) && !Owned(t)
  {
    var x, id, k := f.data[0] + 1, s.next, |s.free| - p;
    var entering, entered := NewCall(s, p, x, 0);
    var landing, landed := LandAll(entered, id, f);
    var hit := Next(landed, Land(f));
    LeadsOne(landed, Land(f));
    var reading: seq<Step>;
    reading, t := ReadUpTo(hit, id, k);
    LeadsJoin(s, entering, entered, landing, landed);
    LeadsJoin(s, entering + landing, landed, [Land(f)], hit);
    LeadsJoin(s, entering + landing + [Land(f)], hit, reading, t);
    steps := entering + landing + [Land(f)] + reading;
    WrongDimension(hit, t, id, k, f, x);
  }

  lemma {:induction false} WrongDimension(s: State, t: State, id: CallId, k: nat, f: Flight, x: int)
    requires id in s.calls && |s.calls[id].dests| == |s.calls[id].leaves| == k > 0 && HasRead(s, t, id, k)
    requires s.calls[id].leaves == Others(x, k) && f.data != [] && x != f.data[0]
    requires s.calls[id].dests[k - 1] == f.dest && Read(s.host, f.dest) == f.data
    ensures !Owned(t)
  {
    assert t.calls[id].dims[k - 1] == f.data[..1];
    assert t.calls[id].leaves[k - 1] == Leaf([x], 1);
    assert !DimsOwn(t.calls[id]) by {
      assert f.data[..1][0] != [x][..1][0];
    }
  }

  /** Whenever a call returns with a copy in flight to a slot, some continuation, in which no call returns,
      hands a call dimensions that are not its own. */
  lemma {:induction false} BadReturnBreaks(s: State, id: CallId) returns (steps: seq<Step>, t: State)
    requires Base(s) && id in s.calls && BadReturn(s, id)
    ensures Leads(Next(s, Return(id)), steps, t) && !Owned(t)
  {
    var f :| f in s.flights && f.id == id && f.dest.Slot?;
    var s' := Next(s, Return(id));
    var c := s.calls[id];
    assert FlightShaped(s, f) && CallShaped(s, id) && HolderOk(s, id);
    assert DestFits(id, c.out, c.leaves, c.dests, f.index);
    var q :| 0 <= q < |c.out| && c.out[q] == f.dest.address;
    assert IsSlot(s, c.out[q]);
    assert s'.free[|s.free| + q] == c.out[q];
    steps, t := StrayBreaks(s', f, |s.free| + q);
  }

  // ---------------------------------------------------------------------------------------------
  // Exactly

  /** When calls may return: in the source, when they are done or when an operation has failed. */
  type Policy = (State, CallId) -> bool

  ghost predicate Follows(policy: Policy, s: State, steps: seq<Step>)
    decreases |steps|
  {
    steps != [] ==>
      && Enabled(s, steps[0]) && (steps[0].Return? ==> policy(s, steps[0].id))
      && Follows(policy, Next(s, steps[0]), steps[1..])
  }

  ghost predicate OwnedAfter(steps: seq<Step>) {
    CanRun(Initial(), steps) && Owned(Run(Initial(), steps))
  }

  /** In every state of every run under the policy, all dimensions written are the calls' own. */
  ghost predicate AlwaysOwned(policy: Policy) {
    forall steps :: Follows(policy, Initial(), steps) ==> OwnedAfter(steps)
  }

  ghost predicate ReturnsBadly(policy: Policy, s: State, id: CallId) {
    id in s.calls && policy(s, id) && BadReturn(s, id)
  }

  ghost predicate BadAfter(policy: Policy, steps: seq<Step>, id: CallId) {
    CanRun(Initial(), steps) && ReturnsBadly(policy, Run(Initial(), steps), id)
  }

  /** In no run under the policy may a call return with a copy in flight to a slot. */
  ghost predicate NeverBad(policy: Policy) {
    forall steps, id :: Follows(policy, Initial(), steps) ==> !BadAfter(policy, steps, id)
  }

  lemma {:induction false} FollowsJoin(policy: Policy, s: State, a: seq<Step>, b: seq<Step>)
    requires Follows(policy, s, a) && CanRun(s, a) && Follows(policy, Run(s, a), b)
    ensures Follows(policy, s, a + b)
    decreases |a|
  {
    if a == [] {
      assert a + b == b;
    } else {
      assert (a + b)[0] == a[0] && (a + b)[1..] == a[1..] + b;
      FollowsJoin(policy, Next(s, a[0]), a[1..], b);
    }
  }

  lemma {:induction false} QuietFollows(policy: Policy, s: State, steps: seq<Step>)
    requires CanRun(s, steps) && forall i :: 0 <= i < |steps| ==> !steps[i].Return?
    ensures Follows(policy, s, steps)
    decreases |steps|
  {
    if steps != [] {
      QuietFollows(policy, Next(s, steps[0]), steps[1..]);
    }
  }

  lemma {:induction false} InitialSound()
    ensures Sound(Initial()) && Run(Initial(), []) == Initial()
  {
    InitialBase();
  }

  /** One more step at the end of a run under the policy. */
  lemma {:induction false} OneMoreStep(policy: Policy, pre: seq<Step>, s: State, step: Step)
    requires Follows(policy, Initial(), pre) && CanRun(Initial(), pre) && Run(Initial(), pre) == s
    requires Enabled(s, step) && (step.Return? ==> policy(s, step.id))
    ensures Follows(policy, Initial(), pre + [step]) && CanRun(Initial(), pre + [step])
    ensures Run(Initial(), pre + [step]) == Next(s, step)
  {
    RunOne(s, step);
    RunJoin(Initial(), pre, [step]);
    assert [step][1..] == [];
    FollowsJoin(policy, Initial(), pre, [step]);
  }

  lemma {:induction false} SoundRun(policy: Policy, pre: seq<Step>, s: State, rest: seq<Step>)
    requires NeverBad(policy) && Follows(policy, Initial(), pre) && CanRun(Initial(), pre) && Run(Initial(), pre) == s
    requires Sound(s) && Follows(policy, s, rest)
    ensures CanRun(s, rest) && Sound(Run(s, rest))
    decreases |rest|
  {
    if rest != [] {
      var step := rest[0];
      assert step.Return? ==> !BadAfter(policy, pre, step.id);
      StepSound(s, step);
      OneMoreStep(policy, pre, s, step);
      SoundRun(policy, pre + [step], Next(s, step), rest[1..]);
    }
  }

  lemma {:induction false} RunOne(s: State, step: Step)
    requires Enabled(s, step)
    ensures CanRun(s, [step]) && Run(s, [step]) == Next(s, step)
  {
    assert [step][1..] == [];
    assert Run(Next(s, step), []) == Next(s, step);
  }

  /** A run under the policy whose last call returns badly can go on, under the policy, to wrong dimensions. */
  lemma {:induction false} BadRunBreaks(policy: Policy, steps: seq<Step>, id: CallId)
    requires Follows(policy, Initial(), steps) && BadAfter(policy, steps, id)
    ensures !AlwaysOwned(policy)
  {
    var s := Run(Initial(), steps);
    InitialBase();
    PoolConserved(Initial(), steps);
    var more, t := BadReturnBreaks(s, id);
    var rest := [Return(id)] + more;
    assert rest[1..] == more;
    QuietFollows(policy, Next(s, Return(id)), more);
    assert Follows(policy, s, rest) && CanRun(s, rest) && Run(s, rest) == t;
    FollowsJoin(policy, Initial(), steps, rest);
    RunJoin(Initial(), steps, rest);
    assert !OwnedAfter(steps + rest);
  }

  /** Metadata ownership, exactly: whatever decides when calls may return, every dimension written in every
      run is the call's own if and only if no call ever returns with a copy in flight to a slot. */
  lemma {:induction false} MetadataOwnedExactly(policy: Policy)
    ensures AlwaysOwned(policy) <==> NeverBad(policy)
  {
    if NeverBad(policy) {
      forall steps | Follows(policy, Initial(), steps) ensures OwnedAfter(steps) {
        InitialSound();
        SoundRun(policy, [], Initial(), steps);
      }
    } else {
      var steps, id :| Follows(policy, Initial(), steps) && BadAfter(policy, steps, id);
      BadRunBreaks(policy, steps, id);
    }
  }
}
