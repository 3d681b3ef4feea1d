/** In-order device streams, barrier events, and the barriers a batch of collectives puts around
    its kernels. */
module Streams {
  import opened Participants

  type Stream = nat

  /** An event is the position of the submission that signals it. */
  type Event = nat

  /** Work: anything a rank enqueues itself.  Kernel(call): the kernel of collective call number `call`.
      Barrier(waits): completes after the listed events and, like every command, in stream order. */
  datatype Command = Work | Kernel(call: nat) | Barrier(waits: seq<Event>)

  datatype Submission = Submission(stream: Stream, cmd: Command)

  /** Everything the host has submitted, in the order it was submitted.  Each stream is the
      subsequence of its own submissions. */
  type Log = seq<Submission>

  /** When every submission starts and finishes.  The device may pick any schedule that runs each stream
      in order, one submission at a time, and every barrier after its events. */
  datatype Schedule = Schedule(start: nat -> int, finish: nat -> int)

  /** Submission i has finished when submission j starts. */
  ghost predicate Before(t: Schedule, i: nat, j: nat) {
    t.finish(i) <= t.start(j)
  }

  ghost predicate Legal(log: Log, t: Schedule) {
    && (forall i :: 0 <= i < |log| ==> t.start(i) < t.finish(i))
    && (forall i, j :: 0 <= i < j < |log| && log[i].stream == log[j].stream ==> Before(t, i, j))
    && (forall j, e :: 0 <= j < |log| && log[j].cmd.Barrier? && e in log[j].cmd.waits ==> Before(t, e, j))
  }

  /** Barriers only wait for events that already exist. */
  ghost predicate Causal(log: Log) {
    CausalAt(0, log)
  }

  /** The same for a piece of a log that begins at position base. */
  ghost predicate CausalAt(base: nat, log: Log) {
    forall j, e :: 0 <= j < |log| && log[j].cmd.Barrier? && e in log[j].cmd.waits ==> e < base + j
  }

  function SubmissionOrder(): Schedule {
    Schedule((i: nat) => 2 * i, (i: nat) => 2 * i + 1)
  }

  /** Causal logs have at least one legal schedule: the order of submission. */
  lemma {:induction false} SubmissionOrderIsLegal(log: Log)
    requires Causal(log)
    ensures Legal(log, SubmissionOrder())
  {
  }

  lemma {:induction false} CausalJoin(log: Log, more: Log)
    requires Causal(log) && CausalAt(|log|, more)
    ensures Causal(log + more)
  {
    var l := log + more;
    forall j, e | 0 <= j < |l| && l[j].cmd.Barrier? && e in l[j].cmd.waits ensures e < j {
      assert j >= |log| ==> l[j] == more[j - |log|];
    }
  }

  lemma {:induction false} LegalPrefix(log: Log, rest: Log, t: Schedule)
    requires Legal(log + rest, t)
    ensures Legal(log, t)
  {
    assert forall i :: 0 <= i < |log| ==> (log + rest)[i] == log[i];
  }

  // ---------------------------------------------------------------------------------------------
  // stream_wait_streamlist and streamlist_wait_stream

  function EmptyBarriers(streams: seq<Stream>): Log {
    seq(|streams|, i requires 0 <= i < |streams| => Submission(streams[i], Barrier([])))
  }

  /** One barrier on every stream but the first, then one on the first that waits for them all. */
  function WaitForAll(log: Log, p: seq<Stream>): Log
    requires p != []
  {
    log + EmptyBarriers(p[1..]) +
    [Submission(p[0], Barrier(seq(|p| - 1, i requires 0 <= i < |p| - 1 => |log| + i)))]
  }

  function BarriersOn(streams: seq<Stream>, e: Event): Log {
    seq(|streams|, i requires 0 <= i < |streams| => Submission(streams[i], Barrier([e])))
  }

  /** One barrier on the first stream, then one on every other stream that waits for it. */
  function ReleaseAll(log: Log, p: seq<Stream>): Log
    requires p != []
  {
    log + [Submission(p[0], Barrier([]))] + BarriersOn(p[1..], |log|)
  }

  class Queue {
    var log: Log

    constructor ()
      ensures log == []
    {
      log := [];
    }

    method Submit(stream: Stream, cmd: Command) returns (e: Event)
      modifies this
      ensures log == old(log) + [Submission(stream, cmd)] && e == |old(log)|
    {
      e := |log|;
      log := log + [Submission(stream, cmd)];
    }

    method StreamWaitStreamlist(p: seq<Stream>)
      requires p != []
      modifies this
      ensures log == WaitForAll(old(log), p)
    {
      var events: seq<Event> := [];
      var i := 1;
      while i < |p|
        invariant 1 <= i <= |p|
        invariant log == old(log) + EmptyBarriers(p[1..i])
        invariant events == seq(i - 1, j requires 0 <= j < i - 1 => |old(log)| + j)
      {
        var e := Submit(p[i], Barrier([]));
        events := events + [e];
        assert p[1..i + 1] == p[1..i] + [p[i]];
        i := i + 1;
      }
      assert p[1..i] == p[1..];
      var _ := Submit(p[0], Barrier(events));
    }

    method StreamlistWaitStream(p: seq<Stream>)
      requires p != []
      modifies this
      ensures log == ReleaseAll(old(log), p)
    {
      var e := Submit(p[0], Barrier([]));
      var i := 1;
      while i < |p|
        invariant 1 <= i <= |p|
        invariant log == old(log) + [Submission(p[0], Barrier([]))] + BarriersOn(p[1..i], e)
      {
        var _ := Submit(p[i], Barrier([e]));
        assert p[1..i + 1] == p[1..i] + [p[i]];
        i := i + 1;
      }
      assert p[1..i] == p[1..];
    }

    /** What the last arriver of call `call` out of `maxCall` submits, whatever the order of arrival. */
    method Fire(arrived: seq<Participant>, streamOf: seq<Stream>, call: nat, maxCall: nat)
      requires arrived != []
      modifies this
      ensures log == Fired(old(log), arrived, streamOf, call, maxCall)
    {
      var round := SortByRank(arrived);
      SameLength(arrived, round);
      var p := StreamsOf(round, streamOf);
      if call == 0 {
        StreamWaitStreamlist(p);
      }
      var _ := Submit(p[0], Kernel(call));
      if call == maxCall - 1 {
        StreamlistWaitStream(p);
      }
    }
  }

  lemma {:induction false} SameLength(p: seq<Participant>, q: seq<Participant>)
    requires multiset(p) == multiset(q)
    ensures |p| == |q|
  {
    assert |multiset(p)| == |p| && |multiset(q)| == |q|;
  }

  /** The streams of the participants; streamOf lists the ranks' streams. */
  function StreamsOf(p: seq<Participant>, streamOf: seq<Stream>): (streams: seq<Stream>)
    ensures |streams| == |p|
  {
    seq(|p|, i requires 0 <= i < |p| => if p[i].rank < |streamOf| then streamOf[p[i].rank] else 0)
  }

  function FiredOn(log: Log, p: seq<Stream>, call: nat, maxCall: nat): Log
    requires p != []
  {
    var a := if call == 0 then WaitForAll(log, p) else log;
    var b := a + [Submission(p[0], Kernel(call))];
    if call == maxCall - 1 then ReleaseAll(b, p) else b
  }

  function Fired(log: Log, arrived: seq<Participant>, streamOf: seq<Stream>, call: nat, maxCall: nat): Log
    requires arrived != []
  {
    SameLength(arrived, SortByRank(arrived));
    FiredOn(log, StreamsOf(SortByRank(arrived), streamOf), call, maxCall)
  }

  /** All ranks below n, each once, in some order, with their call number k. */
  ghost predicate IsArrival(arrived: seq<Participant>, n: nat, k: nat) {
    |arrived| == n && DistinctRanks(arrived) && forall x :: x in arrived ==> x.rank < n && x.call == k
  }

  /** The log after calls 0..calls-1 of a batch of maxCall; arrivals[i] is the order in which the ranks
      arrive for call i, gaps[i] is whatever else the host submits, on any streams, between call i and
      call i + 1. */
  function Batch(log: Log, arrivals: seq<seq<Participant>>, streamOf: seq<Stream>, gaps: seq<Log>, calls: nat,
      maxCall: nat)
    : (r: Log)
    requires calls <= maxCall <= |gaps| + 1 && maxCall <= |arrivals|
    requires forall i :: 0 <= i < maxCall ==> arrivals[i] != []
  {
    if calls == 0 then log
    else
      var prev := Batch(log, arrivals, streamOf, gaps, calls - 1, maxCall);
      Fired(if calls == 1 then prev else prev + gaps[calls - 2], arrivals[calls - 1], streamOf, calls - 1, maxCall)
  }

  /** The same with one list of streams for all calls. */
  function BatchOn(log: Log, p: seq<Stream>, gaps: seq<Log>, calls: nat, maxCall: nat): (r: Log)
    requires p != [] && calls <= maxCall <= |gaps| + 1
  {
    if calls == 0 then log
    else
      var prev := BatchOn(log, p, gaps, calls - 1, maxCall);
      FiredOn(if calls == 1 then prev else prev + gaps[calls - 2], p, calls - 1, maxCall)
  }

  /** Every call of the batch is entered by all ranks, in an order of its own. */
  ghost predicate IsBatch(arrivals: seq<seq<Participant>>, streamOf: seq<Stream>, gaps: seq<Log>, maxCall: nat) {
    && streamOf != [] && maxCall <= |gaps| + 1 && maxCall <= |arrivals|
    && forall i :: 0 <= i < maxCall ==> arrivals[i] != [] && IsArrival(arrivals[i], |streamOf|, i)
  }

  /** Sorting puts rank r at position r, whoever came first. */
  lemma {:induction false} SortedStreams(arrived: seq<Participant>, streamOf: seq<Stream>, k: nat)
    requires IsArrival(arrived, |streamOf|, k)
    ensures StreamsOf(SortByRank(arrived), streamOf) == streamOf
  {
    SortedRoundIsComplete(arrived, SortByRank(arrived), |streamOf|, k);
  }

  lemma {:induction false} FiredInRankOrder(
      log: Log, arrived: seq<Participant>, streamOf: seq<Stream>, k: nat, call: nat, maxCall: nat)
    requires IsArrival(arrived, |streamOf|, k) && arrived != [] && streamOf != []
    ensures Fired(log, arrived, streamOf, call, maxCall) == FiredOn(log, streamOf, call, maxCall)
  {
    SortedStreams(arrived, streamOf, k);
  }

  /** So every call of a batch uses the same list of streams, that of the ranks in order. */
  lemma {:induction false} BatchInRankOrder(
      log: Log, arrivals: seq<seq<Participant>>, streamOf: seq<Stream>, gaps: seq<Log>, calls: nat, maxCall: nat)
    requires IsBatch(arrivals, streamOf, gaps, maxCall) && calls <= maxCall
    ensures Batch(log, arrivals, streamOf, gaps, calls, maxCall) == BatchOn(log, streamOf, gaps, calls, maxCall)
    decreases calls
  {
    if calls > 0 {
      BatchInRankOrder(log, arrivals, streamOf, gaps, calls - 1, maxCall);
      var prev := Batch(log, arrivals, streamOf, gaps, calls - 1, maxCall);
      var before := if calls == 1 then prev else prev + gaps[calls - 2];
      FiredInRankOrder(before, arrivals[calls - 1], streamOf, calls - 1, calls - 1, maxCall);
    }
  }

  // ---------------------------------------------------------------------------------------------
  // Ordering

  /** After WaitForAll everything submitted earlier on a participant's stream completes before the
      barrier at the end of the first stream. */
  lemma {:induction false} WaitForAllOrders(log: Log, p: seq<Stream>, t: Schedule, i: nat)
    requires p != [] && Legal(WaitForAll(log, p), t)
    requires i < |log| && log[i].stream in p
    ensures Before(t, i, |WaitForAll(log, p)| - 1)
  {
    var l := WaitForAll(log, p);
    var last := |l| - 1;
    assert l[i] == log[i];
    assert l[last].stream == p[0];
    if log[i].stream != p[0] {
      var j :| 0 <= j < |p| && p[j] == log[i].stream;
      var e := |log| + (j - 1);
      assert l[e] == EmptyBarriers(p[1..])[j - 1];
      assert Before(t, i, e);
      assert l[last].cmd.waits[j - 1] == e;
      assert e in l[last].cmd.waits;
    }
  }

  /** After ReleaseAll everything submitted earlier on the first stream completes before anything
      submitted later on any participant's stream. */
  lemma {:induction false} ReleaseAllOrders(log: Log, p: seq<Stream>, rest: Log, t: Schedule, i: nat, j: nat)
    requires p != [] && Legal(ReleaseAll(log, p) + rest, t)
    requires i < |log| && log[i].stream == p[0]
    requires |ReleaseAll(log, p)| <= j < |ReleaseAll(log, p) + rest|
    requires (ReleaseAll(log, p) + rest)[j].stream in p
    ensures Before(t, i, j)
  {
    var l := ReleaseAll(log, p) + rest;
    assert l[i] == log[i];
    assert l[|log|] == Submission(p[0], Barrier([]));
    assert Before(t, i, |log|);
    if l[j].stream != p[0] {
      var k :| 0 <= k < |p| && p[k] == l[j].stream;
      var b := |log| + 1 + (k - 1);
      assert l[b] == BarriersOn(p[1..], |log|)[k - 1];
      assert |log| in l[b].cmd.waits;
      assert Before(t, |log|, b) && Before(t, b, j);
    }
  }

  /** Where the kernel of call `call` sits in the log. */
  function KernelAt(log: Log, p: seq<Stream>, gaps: seq<Log>, call: nat, maxCall: nat): nat
    requires p != [] && call < maxCall <= |gaps| + 1
  {
    if call == 0 then |WaitForAll(log, p)|
    else |BatchOn(log, p, gaps, call, maxCall) + gaps[call - 1]|
  }

  lemma {:induction false} BatchGrows(log: Log, p: seq<Stream>, gaps: seq<Log>, a: nat, b: nat, maxCall: nat)
    requires p != [] && a <= b <= maxCall <= |gaps| + 1
    ensures BatchOn(log, p, gaps, a, maxCall) <= BatchOn(log, p, gaps, b, maxCall)
    decreases b - a
  {
    if a < b {
      BatchGrows(log, p, gaps, a, b - 1, maxCall);
    }
  }

  lemma {:induction false} KernelsOnFirst(log: Log, p: seq<Stream>, gaps: seq<Log>, call: nat, maxCall: nat)
    requires p != [] && call < maxCall <= |gaps| + 1
    ensures var l, k := BatchOn(log, p, gaps, maxCall, maxCall), KernelAt(log, p, gaps, call, maxCall);
            |log| <= k < |l| && l[k] == Submission(p[0], Kernel(call))
  {
    BatchGrows(log, p, gaps, 0, call, maxCall);
    BatchGrows(log, p, gaps, call + 1, maxCall, maxCall);
    var l1 := BatchOn(log, p, gaps, call + 1, maxCall);
    assert l1[KernelAt(log, p, gaps, call, maxCall)] == Submission(p[0], Kernel(call));
  }

  // ---------------------------------------------------------------------------------------------
  // Each call adds one kernel

  /** From `before` to `after`, submission k is the kernel of the call, on the first stream, and all others
      are barriers on participants' streams. */
  ghost predicate OneKernelAt(before: Log, after: Log, p: seq<Stream>, call: nat, k: nat)
    requires p != []
  {
    && before <= after && |before| <= k < |after| && after[k] == Submission(p[0], Kernel(call))
    && forall i :: |before| <= i < |after| && i != k ==> after[i].cmd.Barrier? && after[i].stream in p
  }

  lemma {:induction false} WaitForAllAdds(log: Log, p: seq<Stream>, i: nat)
    requires p != [] && |log| <= i < |WaitForAll(log, p)|
    ensures log <= WaitForAll(log, p) && WaitForAll(log, p)[i].cmd.Barrier? && WaitForAll(log, p)[i].stream in p
  {
    if i < |log| + |p| - 1 {
      assert WaitForAll(log, p)[i] == EmptyBarriers(p[1..])[i - |log|];
      assert p[1..][i - |log|] == p[i - |log| + 1];
    }
  }

  lemma {:induction false} ReleaseAllAdds(log: Log, p: seq<Stream>, i: nat)
    requires p != [] && |log| <= i < |ReleaseAll(log, p)|
    ensures log <= ReleaseAll(log, p) && ReleaseAll(log, p)[i].cmd.Barrier? && ReleaseAll(log, p)[i].stream in p
  {
    if i > |log| {
      assert ReleaseAll(log, p)[i] == BarriersOn(p[1..], |log|)[i - |log| - 1];
      assert p[1..][i - |log| - 1] == p[i - |log|];
    }
  }

  /** One barrier per participant before the first call, one after the last, none elsewhere. */
  function Added(n: nat, call: nat, maxCall: nat): nat {
    1 + (if call == 0 then n else 0) + (if call == maxCall - 1 then n else 0)
  }

  lemma {:induction false} FiredOnOnce(log: Log, p: seq<Stream>, call: nat, maxCall: nat)
    requires p != []
    ensures OneKernelAt(log, FiredOn(log, p, call, maxCall), p, call,
                        if call == 0 then |WaitForAll(log, p)| else |log|)
    ensures |FiredOn(log, p, call, maxCall)| == |log| + Added(|p|, call, maxCall)
  {
    var a := if call == 0 then WaitForAll(log, p) else log;
    var b, after := a + [Submission(p[0], Kernel(call))], FiredOn(log, p, call, maxCall);
    assert b[|a|] == Submission(p[0], Kernel(call));
    assert b <= after;
    forall i | |log| <= i < |after| && i != |a| ensures after[i].cmd.Barrier? && after[i].stream in p {
      if i < |a| {
        WaitForAllAdds(log, p, i);
        assert after[i] == b[i] == a[i];
      } else {
        ReleaseAllAdds(b, p, i);
      }
    }
  }

  /** The log when call `call` is entered for the last time, if all calls use one list of streams. */
  function BeforeCallOn(log: Log, p: seq<Stream>, gaps: seq<Log>, call: nat, maxCall: nat): Log
    requires p != [] && call < maxCall <= |gaps| + 1
  {
    if call == 0 then log else BatchOn(log, p, gaps, call, maxCall) + gaps[call - 1]
  }

  lemma {:induction false} OneKernelOn(log: Log, p: seq<Stream>, gaps: seq<Log>, call: nat, maxCall: nat)
    requires p != [] && call < maxCall <= |gaps| + 1
    ensures OneKernelAt(BeforeCallOn(log, p, gaps, call, maxCall), BatchOn(log, p, gaps, call + 1, maxCall), p, call,
                        KernelAt(log, p, gaps, call, maxCall))
    ensures |BatchOn(log, p, gaps, call + 1, maxCall)|
         == |BeforeCallOn(log, p, gaps, call, maxCall)| + Added(|p|, call, maxCall)
  {
    var before := BeforeCallOn(log, p, gaps, call, maxCall);
    assert BatchOn(log, p, gaps, call + 1, maxCall) == FiredOn(before, p, call, maxCall);
    FiredOnOnce(before, p, call, maxCall);
  }

  lemma {:induction false} CallOn(
      log: Log, p: seq<Stream>, gaps: seq<Log>, call: nat, maxCall: nat, before: Log, after: Log, end: Log)
    requires p != [] && call < maxCall <= |gaps| + 1 && before == BeforeCallOn(log, p, gaps, call, maxCall)
    requires after == BatchOn(log, p, gaps, call + 1, maxCall) && end == BatchOn(log, p, gaps, maxCall, maxCall)
    ensures OneKernelAt(before, after, p, call, KernelAt(log, p, gaps, call, maxCall))
    ensures |after| == |before| + Added(|p|, call, maxCall) && log <= before && after <= end
  {
    OneKernelOn(log, p, gaps, call, maxCall);
    BatchGrows(log, p, gaps, 0, call, maxCall);
    BatchGrows(log, p, gaps, call + 1, maxCall, maxCall);
  }

  /** Whatever the orders of arrival, a batch is the old log with, for each call in turn, what the host
      submits in between and then one kernel, of that call and on the stream of rank 0, among barriers on
      the ranks' streams. */
  lemma {:induction false} OneKernelPerCall(
      log: Log, arrivals: seq<seq<Participant>>, streamOf: seq<Stream>, gaps: seq<Log>, call: nat, maxCall: nat)
    requires IsBatch(arrivals, streamOf, gaps, maxCall) && call < maxCall
    ensures OneKernelAt(BeforeCallOn(log, streamOf, gaps, call, maxCall),
                        BatchOn(log, streamOf, gaps, call + 1, maxCall), streamOf, call,
                        KernelAt(log, streamOf, gaps, call, maxCall))
    ensures |BatchOn(log, streamOf, gaps, call + 1, maxCall)|
         == |BeforeCallOn(log, streamOf, gaps, call, maxCall)| + Added(|streamOf|, call, maxCall)
    ensures log <= BeforeCallOn(log, streamOf, gaps, call, maxCall)
    ensures BatchOn(log, streamOf, gaps, call + 1, maxCall) <= Batch(log, arrivals, streamOf, gaps, maxCall, maxCall)
  {
    BatchInRankOrder(log, arrivals, streamOf, gaps, maxCall, maxCall);
    CallOn(log, streamOf, gaps, call, maxCall, BeforeCallOn(log, streamOf, gaps, call, maxCall),
           BatchOn(log, streamOf, gaps, call + 1, maxCall), Batch(log, arrivals, streamOf, gaps, maxCall, maxCall));
  }

  /** Submission k of a batch is a kernel, and among the submissions that call `call` adds. */
  ghost predicate KernelOf(log: Log, p: seq<Stream>, gaps: seq<Log>, call: nat, maxCall: nat, k: nat)
    requires p != [] && call < maxCall <= |gaps| + 1
  {
    && |BeforeCallOn(log, p, gaps, call, maxCall)| <= k < |BatchOn(log, p, gaps, call + 1, maxCall)|
    && BatchOn(log, p, gaps, call + 1, maxCall)[k].cmd.Kernel?
  }

  /** There is no other than the one at KernelAt. */
  lemma {:induction false} TheKernel(log: Log, p: seq<Stream>, gaps: seq<Log>, call: nat, maxCall: nat, k: nat)
    requires p != [] && call < maxCall <= |gaps| + 1 && KernelOf(log, p, gaps, call, maxCall, k)
    ensures k == KernelAt(log, p, gaps, call, maxCall)
  {
    OneKernelOn(log, p, gaps, call, maxCall);
  }

  /** The calls whose kernels are in a log, in order. */
  function CallsOf(l: Log): (calls: seq<nat>) {
    if l == [] then []
    else CallsOf(l[..|l| - 1]) + (match l[|l| - 1].cmd case Kernel(call) => [call] case _ => [])
  }

  lemma {:induction false} CallsOfJoin(a: Log, b: Log)
    ensures CallsOf(a + b) == CallsOf(a) + CallsOf(b)
    decreases |b|
  {
    if b == [] {
      assert a + b == a;
    } else {
      CallsOfJoin(a, b[..|b| - 1]);
      assert (a + b)[..|a + b| - 1] == a + b[..|b| - 1];
    }
  }

  lemma {:induction false} NoCalls(l: Log)
    requires NoKernels(l)
    ensures CallsOf(l) == []
    decreases |l|
  {
    if l != [] {
      NoCalls(l[..|l| - 1]);
    }
  }

  lemma {:induction false} OneCall(before: Log, after: Log, p: seq<Stream>, call: nat, k: nat)
    requires p != [] && OneKernelAt(before, after, p, call, k)
    ensures CallsOf(after) == CallsOf(before) + [call]
  {
    var a, kernel, b := after[|before|..k], [after[k]], after[k + 1..];
    assert after == before + a + kernel + b;
    NoCalls(a);
    NoCalls(b);
    CallsOfJoin(before, a);
    CallsOfJoin(before + a, kernel);
    CallsOfJoin(before + a + kernel, b);
    assert kernel[..0] == [];
  }

  ghost predicate NoKernels(l: Log) {
    forall i :: 0 <= i < |l| ==> !l[i].cmd.Kernel?
  }

  lemma {:induction false} OnLaunches(log: Log, p: seq<Stream>, gaps: seq<Log>, calls: nat, maxCall: nat)
    requires p != [] && calls <= maxCall <= |gaps| + 1 && forall i :: 0 <= i < |gaps| ==> NoKernels(gaps[i])
    ensures CallsOf(BatchOn(log, p, gaps, calls, maxCall)) == CallsOf(log) + seq(calls, i => i)
    decreases calls
  {
    if calls > 0 {
      OnLaunches(log, p, gaps, calls - 1, maxCall);
      OneKernelOn(log, p, gaps, calls - 1, maxCall);
      OneMoreLaunch(log, BatchOn(log, p, gaps, calls - 1, maxCall), if calls == 1 then [] else gaps[calls - 2],
                    BeforeCallOn(log, p, gaps, calls - 1, maxCall), BatchOn(log, p, gaps, calls, maxCall), p,
                    calls - 1, KernelAt(log, p, gaps, calls - 1, maxCall));
    }
  }

  lemma {:induction false} OneMoreLaunch(
      log: Log, prev: Log, gap: Log, before: Log, after: Log, p: seq<Stream>, call: nat, k: nat)
    requires p != [] && before == prev + gap && NoKernels(gap) && OneKernelAt(before, after, p, call, k)
    requires CallsOf(prev) == CallsOf(log) + seq(call, i => i)
    ensures CallsOf(after) == CallsOf(log) + seq(call + 1, i => i)
  {
    NoCalls(gap);
    CallsOfJoin(prev, gap);
    OneCall(before, after, p, call, k);
    assert seq(call + 1, i => i) == seq(call, i => i) + [call];
  }

  /** If nothing else launches kernels in between, a batch launches those of calls 0, 1, ..., each once. */
  lemma {:induction false} BatchLaunches(
      log: Log, arrivals: seq<seq<Participant>>, streamOf: seq<Stream>, gaps: seq<Log>, maxCall: nat)
    requires IsBatch(arrivals, streamOf, gaps, maxCall) && forall i :: 0 <= i < |gaps| ==> NoKernels(gaps[i])
    ensures CallsOf(Batch(log, arrivals, streamOf, gaps, maxCall, maxCall)) == CallsOf(log) + seq(maxCall, i => i)
  {
    BatchInRankOrder(log, arrivals, streamOf, gaps, maxCall, maxCall);
    OnLaunches(log, streamOf, gaps, maxCall, maxCall);
  }

  // ---------------------------------------------------------------------------------------------
  // Ordering around a batch

  /** Cross-stream ordering of a batch.  Barriers surround the batch as a whole, not each call; even
      so, under every legal schedule each of its kernels completes after everything submitted before
      the batch and before everything submitted after it, on every participant's stream. */
  lemma {:induction false} BatchOnOrdering(log: Log, p: seq<Stream>, gaps: seq<Log>, maxCall: nat, rest: Log,
                      t: Schedule, call: nat)
    requires p != [] && call < maxCall <= |gaps| + 1
    requires Legal(BatchOn(log, p, gaps, maxCall, maxCall) + rest, t)
    ensures var l, k := BatchOn(log, p, gaps, maxCall, maxCall), KernelAt(log, p, gaps, call, maxCall);
            && (forall i :: 0 <= i < |log| && log[i].stream in p ==> Before(t, i, k))
            && (forall j :: |l| <= j < |l + rest| && (l + rest)[j].stream in p ==> Before(t, k, j))
  {
    var l, k := BatchOn(log, p, gaps, maxCall, maxCall), KernelAt(log, p, gaps, call, maxCall);
    KernelsOnFirst(log, p, gaps, call, maxCall);
    forall i | 0 <= i < |log| && log[i].stream in p ensures Before(t, i, k) {
      BeforeKernel(log, p, gaps, maxCall, rest, t, call, i);
    }
    forall j | |l| <= j < |l + rest| && (l + rest)[j].stream in p ensures Before(t, k, j) {
      AfterKernel(log, p, gaps, maxCall, rest, t, call, j);
    }
  }

  lemma {:induction false} BeforeKernel(log: Log, p: seq<Stream>, gaps: seq<Log>, maxCall: nat, rest: Log,
                     t: Schedule, call: nat, i: nat)
    requires p != [] && call < maxCall <= |gaps| + 1
    requires Legal(BatchOn(log, p, gaps, maxCall, maxCall) + rest, t)
    requires i < |log| && log[i].stream in p
    ensures Before(t, i, KernelAt(log, p, gaps, call, maxCall))
  {
    var l, k := BatchOn(log, p, gaps, maxCall, maxCall) + rest, KernelAt(log, p, gaps, call, maxCall);
    var w := WaitForAll(log, p);
    KernelsOnFirst(log, p, gaps, call, maxCall);
    WaitComesFirst(log, p, gaps, maxCall, call);
    assert l == w + l[|w|..];
    LegalPrefix(w, l[|w|..], t);
    WaitForAllOrders(log, p, t, i);
    assert l[|w| - 1].stream == l[k].stream;
  }

  lemma {:induction false} WaitComesFirst(log: Log, p: seq<Stream>, gaps: seq<Log>, maxCall: nat, call: nat)
    requires p != [] && call < maxCall <= |gaps| + 1
    ensures WaitForAll(log, p) <= BatchOn(log, p, gaps, maxCall, maxCall)
    ensures |WaitForAll(log, p)| <= KernelAt(log, p, gaps, call, maxCall)
  {
    BatchGrows(log, p, gaps, 1, maxCall, maxCall);
    assert WaitForAll(log, p) <= BatchOn(log, p, gaps, 1, maxCall);
    if call > 0 {
      BatchGrows(log, p, gaps, 1, call, maxCall);
    }
  }

  lemma {:induction false} AfterKernel(log: Log, p: seq<Stream>, gaps: seq<Log>, maxCall: nat, rest: Log,
                    t: Schedule, call: nat, j: nat)
    requires p != [] && call < maxCall <= |gaps| + 1
    requires var l := BatchOn(log, p, gaps, maxCall, maxCall);
             Legal(l + rest, t) && |l| <= j < |l + rest| && (l + rest)[j].stream in p
    ensures Before(t, KernelAt(log, p, gaps, call, maxCall), j)
  {
    var k := KernelAt(log, p, gaps, call, maxCall);
    var prev := BatchOn(log, p, gaps, maxCall - 1, maxCall);
    var a := if maxCall == 1 then WaitForAll(prev, p) else prev + gaps[maxCall - 2];
    var b := a + [Submission(p[0], Kernel(maxCall - 1))];
    assert BatchOn(log, p, gaps, maxCall, maxCall) == ReleaseAll(b, p);
    KernelsOnFirst(log, p, gaps, call, maxCall);
    assert k < |b| by {
      if call < maxCall - 1 {
        BatchGrows(log, p, gaps, call + 1, maxCall - 1, maxCall);
        assert BatchOn(log, p, gaps, call + 1, maxCall)[k] == Submission(p[0], Kernel(call));
      }
    }
    assert ReleaseAll(b, p)[k] == b[k];
    ReleaseAllOrders(b, p, rest, t, k, j);
  }

  // ---------------------------------------------------------------------------------------------
  // Batches of arrivals

  /** Whatever the order of arrival at each call, all kernels of a batch sit on the stream of rank 0. */
  lemma {:induction false} KernelsOnFirstStream(
      log: Log, arrivals: seq<seq<Participant>>, streamOf: seq<Stream>, gaps: seq<Log>, call: nat, maxCall: nat)
    requires IsBatch(arrivals, streamOf, gaps, maxCall) && call < maxCall
    ensures var l, k := Batch(log, arrivals, streamOf, gaps, maxCall, maxCall),
              KernelAt(log, streamOf, gaps, call, maxCall);
            |log| <= k < |l| && l[k] == Submission(streamOf[0], Kernel(call))
  {
    BatchInRankOrder(log, arrivals, streamOf, gaps, maxCall, maxCall);
    KernelsOnFirst(log, streamOf, gaps, call, maxCall);
  }

  lemma {:induction false} BatchExtends(
      log: Log, arrivals: seq<seq<Participant>>, streamOf: seq<Stream>, gaps: seq<Log>, maxCall: nat)
    requires IsBatch(arrivals, streamOf, gaps, maxCall)
    ensures log <= Batch(log, arrivals, streamOf, gaps, maxCall, maxCall)
  {
    BatchInRankOrder(log, arrivals, streamOf, gaps, maxCall, maxCall);
    BatchGrows(log, streamOf, gaps, 0, maxCall, maxCall);
  }

  /** Cross-stream ordering of a batch.  Barriers surround the batch as a whole, not each call, and the
      ranks arrive in another order each time; even so, under every legal schedule each of its kernels
      starts after everything submitted before the batch on any participant's stream has finished, and
      finishes before anything submitted after it on any of them starts. */
  lemma {:induction false} BatchOrdering(
      log: Log, arrivals: seq<seq<Participant>>, streamOf: seq<Stream>, gaps: seq<Log>, maxCall: nat, rest: Log,
      t: Schedule, call: nat, k: nat)
    requires IsBatch(arrivals, streamOf, gaps, maxCall) && call < maxCall
    requires KernelOf(log, streamOf, gaps, call, maxCall, k)
    requires Legal(Batch(log, arrivals, streamOf, gaps, maxCall, maxCall) + rest, t)
    ensures var l := Batch(log, arrivals, streamOf, gaps, maxCall, maxCall);
            && (forall i :: 0 <= i < |log| && log[i].stream in streamOf ==> Before(t, i, k))
            && (forall j :: |l| <= j < |l + rest| && (l + rest)[j].stream in streamOf ==> Before(t, k, j))
  {
    TheKernel(log, streamOf, gaps, call, maxCall, k);
    BatchInRankOrder(log, arrivals, streamOf, gaps, maxCall, maxCall);
    BatchOnOrdering(log, streamOf, gaps, maxCall, rest, t, call);
  }

  /** The same seen from a later log l, for one submission before the batch and one after it. */
  lemma {:induction false} KernelBetween(
      start: Log, arrivals: seq<seq<Participant>>, streamOf: seq<Stream>, gaps: seq<Log>, maxCall: nat, fired: Log,
      l: Log, t: Schedule, call: nat, k: nat, i: nat, j: nat)
    requires IsBatch(arrivals, streamOf, gaps, maxCall) && call < maxCall && Legal(l, t)
    requires KernelOf(start, streamOf, gaps, call, maxCall, k)
    requires fired == Batch(start, arrivals, streamOf, gaps, maxCall, maxCall) && start <= fired && fired <= l
    requires i < |start| && l[i].stream in streamOf && |fired| <= j < |l| && l[j].stream in streamOf
    ensures k < |l| && Before(t, i, k) && Before(t, k, j)
  {
    assert l == fired + l[|fired|..];
    TheKernel(start, streamOf, gaps, call, maxCall, k);
    BatchOrdering(start, arrivals, streamOf, gaps, maxCall, l[|fired|..], t, call, k);
    KernelsOnFirstStream(start, arrivals, streamOf, gaps, call, maxCall);
    assert start[i] == l[i];
  }

  // ---------------------------------------------------------------------------------------------
  // Legal schedules exist

  lemma {:induction false} WaitForAllCausal(log: Log, p: seq<Stream>)
    requires p != [] && Causal(log)
    ensures Causal(WaitForAll(log, p))
  {
    var barriers := EmptyBarriers(p[1..]);
    CausalJoin(log, barriers);
    CausalJoin(log + barriers, WaitForAll(log, p)[|log + barriers|..]);
    assert WaitForAll(log, p) == log + barriers + WaitForAll(log, p)[|log + barriers|..];
  }

  lemma {:induction false} ReleaseAllCausal(log: Log, p: seq<Stream>)
    requires p != [] && Causal(log)
    ensures Causal(ReleaseAll(log, p))
  {
    var first := [Submission(p[0], Barrier([]))];
    CausalJoin(log, first);
    CausalJoin(log + first, BarriersOn(p[1..], |log|));
  }

  lemma {:induction false} FiredOnCausal(log: Log, p: seq<Stream>, call: nat, maxCall: nat)
    requires p != [] && Causal(log)
    ensures Causal(FiredOn(log, p, call, maxCall))
  {
    WaitForAllCausal(log, p);
    var a := if call == 0 then WaitForAll(log, p) else log;
    var kernel := [Submission(p[0], Kernel(call))];
    CausalJoin(a, kernel);
    ReleaseAllCausal(a + kernel, p);
  }

  /** What the host submits between the calls waits only for events that exist by then. */
  ghost predicate GapsCausal(
      log: Log, arrivals: seq<seq<Participant>>, streamOf: seq<Stream>, gaps: seq<Log>, maxCall: nat)
    requires IsBatch(arrivals, streamOf, gaps, maxCall)
  {
    forall i :: 1 <= i < maxCall ==> CausalAt(|Batch(log, arrivals, streamOf, gaps, i, maxCall)|, gaps[i - 1])
  }

  lemma {:induction false} BatchOnCausal(log: Log, p: seq<Stream>, gaps: seq<Log>, calls: nat, maxCall: nat)
    requires p != [] && calls <= maxCall <= |gaps| + 1 && Causal(log)
    requires forall i :: 1 <= i < maxCall ==> CausalAt(|BatchOn(log, p, gaps, i, maxCall)|, gaps[i - 1])
    ensures Causal(BatchOn(log, p, gaps, calls, maxCall))
    decreases calls
  {
    if calls > 0 {
      BatchOnCausal(log, p, gaps, calls - 1, maxCall);
      var prev := BatchOn(log, p, gaps, calls - 1, maxCall);
      if calls > 1 {
        CausalJoin(prev, gaps[calls - 2]);
      }
      FiredOnCausal(if calls == 1 then prev else prev + gaps[calls - 2], p, calls - 1, maxCall);
    }
  }

  lemma {:induction false} BatchCausal(
      log: Log, arrivals: seq<seq<Participant>>, streamOf: seq<Stream>, gaps: seq<Log>, maxCall: nat)
    requires IsBatch(arrivals, streamOf, gaps, maxCall)
    requires Causal(log) && GapsCausal(log, arrivals, streamOf, gaps, maxCall)
    ensures Causal(Batch(log, arrivals, streamOf, gaps, maxCall, maxCall))
  {
    forall i | 1 <= i < maxCall ensures CausalAt(|BatchOn(log, streamOf, gaps, i, maxCall)|, gaps[i - 1]) {
      BatchInRankOrder(log, arrivals, streamOf, gaps, i, maxCall);
    }
    BatchInRankOrder(log, arrivals, streamOf, gaps, maxCall, maxCall);
    BatchOnCausal(log, streamOf, gaps, maxCall, maxCall);
  }

  /** Every batch on a causal log has a legal schedule. */
  lemma {:induction false} BatchHasSchedule(
      log: Log, arrivals: seq<seq<Participant>>, streamOf: seq<Stream>, gaps: seq<Log>, maxCall: nat)
    requires IsBatch(arrivals, streamOf, gaps, maxCall) && Causal(log)
    requires GapsCausal(log, arrivals, streamOf, gaps, maxCall)
    ensures Legal(Batch(log, arrivals, streamOf, gaps, maxCall, maxCall), SubmissionOrder())
  {
    BatchCausal(log, arrivals, streamOf, gaps, maxCall);
    SubmissionOrderIsLegal(Batch(log, arrivals, streamOf, gaps, maxCall, maxCall));
  }
}
