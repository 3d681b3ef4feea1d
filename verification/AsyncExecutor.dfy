/** Asynchronous collectives: a start runs on the communication stream after the compute stream's
    inputs are ready and leaves a completion event; the matching done makes the compute stream wait
    for that event. */
module AsyncExecutor {
  import opened Participants
  import opened Streams

  datatype Result = Ok | Error

  function Compute(device: nat): Stream { 2 * device }
  function Comms(device: nat): Stream { 2 * device + 1 }

  /** A start begins with an event at the tail of the compute stream and a wait for it on the
      communication stream. */
  function Begun(log: Log, device: nat): Log {
    log + [Submission(Compute(device), Barrier([])), Submission(Comms(device), Barrier([|log|]))]
  }

  /** It ends with the completion event at the tail of the communication stream. */
  function Finished(log: Log, device: nat): Log {
    log + [Submission(Comms(device), Barrier([]))]
  }

  function OnComms(device: nat, commands: seq<Command>): Log {
    seq(|commands|, i requires 0 <= i < |commands| => Submission(Comms(device), commands[i]))
  }

  /** What one start submits if nobody else submits in between. */
  function Started(log: Log, device: nat, collective: seq<Command>): Log {
    Finished(Begun(log, device) + OnComms(device, collective), device)
  }

  class Executor {
    var queue: Queue
    var doneEvents: map<nat, Event>

    constructor (queue: Queue)
      ensures this.queue == queue && doneEvents == map[]
    {
      this.queue := queue;
      doneEvents := map[];
    }

    method Execute(device: nat, collective: seq<Command>) returns (r: Result)
      modifies this, queue
      ensures queue == old(queue) && queue.log == Started(old(queue.log), device, collective)
      ensures r == if device in old(doneEvents) then Error else Ok
      ensures doneEvents == if r.Ok? then old(doneEvents)[device := |queue.log| - 1] else old(doneEvents)
      ensures State(queue.log, doneEvents, r.Error?) ==
                Run(State(old(queue.log), old(doneEvents), false), StartSteps(device, collective))
    {
      StartedIsRun(State(queue.log, doneEvents, false), device, collective);
      var ready := queue.Submit(Compute(device), Barrier([]));
      var _ := queue.Submit(Comms(device), Barrier([ready]));
      var i := 0;
      while i < |collective|
        invariant 0 <= i <= |collective| && queue == old(queue) && doneEvents == old(doneEvents)
        invariant queue.log == Begun(old(queue.log), device) + OnComms(device, collective[..i])
      {
        var _ := queue.Submit(Comms(device), collective[i]);
        i := i + 1;
      }
      assert collective[..i] == collective;
      var done := queue.Submit(Comms(device), Barrier([]));
      if device in doneEvents {
        return Error;
      }
      doneEvents := doneEvents[device := done];
      return Ok;
    }

    method Await(device: nat) returns (r: Result)
      modifies this, queue
      ensures queue == old(queue)
      ensures r == if device in old(doneEvents) then Ok else Error
      ensures doneEvents == old(doneEvents) - {device}
      ensures State(queue.log, doneEvents, r.Error?) == Next(State(old(queue.log), old(doneEvents), false),
                Done(device))
    {
      if device !in doneEvents {
        assert doneEvents == doneEvents - {device};
        return Error;
      }
      var e := doneEvents[device];
      doneEvents := doneEvents - {device};
      var _ := queue.Submit(Compute(device), Barrier([e]));
      return Ok;
    }
  }

  // ---------------------------------------------------------------------------------------------
  // Runs over any number of devices

  /** The threads of all devices submit in any interleaving.  Submit is anything outside the protocol:
      compute work, and the barriers and kernels of the collectives themselves. */
  datatype Step = Submit(x: Submission) | Begin(device: nat) | Finish(device: nat) | Done(device: nat)

  datatype State = State(log: Log, doneEvents: map<nat, Event>, failed: bool)

  function Next(s: State, a: Step): State {
    match a
    case Submit(x) => s.(log := s.log + [x])
    case Begin(d) => s.(log := Begun(s.log, d))
    case Finish(d) =>
      var log := Finished(s.log, d);
      if d in s.doneEvents then s.(log := log, failed := true)
      else State(log, s.doneEvents[d := |s.log|], s.failed)
    case Done(d) =>
      if d in s.doneEvents then
        State(s.log + [Submission(Compute(d), Barrier([s.doneEvents[d]]))], s.doneEvents - {d}, s.failed)
      else s.(failed := true)
  }

  function Run(s: State, steps: seq<Step>): State
    decreases |steps|
  {
    if steps == [] then s else Run(Next(s, steps[0]), steps[1..])
  }

  /** The device finishes a start only when no done is outstanding, and the other way round. */
  ghost predicate Alternates(steps: seq<Step>, device: nat, outstanding: bool)
    decreases |steps|
  {
    steps != [] ==>
      match steps[0]
      case Finish(d) => if d == device then !outstanding && Alternates(steps[1..], device, true)
                        else Alternates(steps[1..], device, outstanding)
      case Done(d) => if d == device then outstanding && Alternates(steps[1..], device, false)
                      else Alternates(steps[1..], device, outstanding)
      case Submit(_) => Alternates(steps[1..], device, outstanding)
      case Begin(_) => Alternates(steps[1..], device, outstanding)
  }

  ghost predicate AllAlternate(steps: seq<Step>, s: State) {
    forall d: nat :: Alternates(steps, d, d in s.doneEvents)
  }

  /** Neither check ever fails, exactly when every device alternates start and done. */
  lemma {:induction false} ChecksPassExactlyWhenAlternating(s: State, steps: seq<Step>)
    requires !s.failed
    ensures !Run(s, steps).failed <==> AllAlternate(steps, s)
    decreases |steps|
  {
    if steps == [] {
    } else {
      var a, s' := steps[0], Next(s, steps[0]);
      if s'.failed {
        FailureSticks(s', steps[1..]);
        assert !Alternates(steps, a.device, a.device in s.doneEvents);
      } else {
        ChecksPassExactlyWhenAlternating(s', steps[1..]);
        forall d: nat
          ensures Alternates(steps, d, d in s.doneEvents) <==> Alternates(steps[1..], d, d in s'.doneEvents)
        {
        }
      }
    }
  }

  lemma {:induction false} FailureSticks(s: State, steps: seq<Step>)
    requires s.failed
    ensures Run(s, steps).failed
    decreases |steps|
  {
    if steps != [] {
      FailureSticks(Next(s, steps[0]), steps[1..]);
    }
  }

  lemma {:induction false} LogGrows(s: State, steps: seq<Step>)
    ensures s.log <= Run(s, steps).log
    decreases |steps|
  {
    if steps != [] {
      LogGrows(Next(s, steps[0]), steps[1..]);
    }
  }

  /** Steps that neither finish a start nor wait for one on the device. */
  ghost predicate LeavesAlone(steps: seq<Step>, device: nat) {
    forall i :: 0 <= i < |steps| ==> steps[i] != Finish(device) && steps[i] != Done(device)
  }

  lemma {:induction false} EventKept(s: State, steps: seq<Step>, device: nat)
    requires LeavesAlone(steps, device)
    ensures var t := Run(s, steps);
            (device in t.doneEvents <==> device in s.doneEvents) &&
            (device in s.doneEvents ==> t.doneEvents[device] == s.doneEvents[device])
    decreases |steps|
  {
    if steps != [] {
      EventKept(Next(s, steps[0]), steps[1..], device);
    }
  }

  // ---------------------------------------------------------------------------------------------
  // Ordering around any work on the communication stream

  /** The log from a Begin to the matching Done, with any steps of anybody in between; `work` happens
      between Begin and Finish. */
  function AfterDone(s: State, device: nat, work: seq<Step>, between: seq<Step>): State {
    Next(Run(Next(Run(Next(s, Begin(device)), work), Finish(device)), between), Done(device))
  }

  /** Where the protocol's four submissions sit. */
  ghost predicate Handover(l: Log, device: nat, ready: nat, done: nat, await: nat) {
    && ready + 1 < done < await < |l|
    && l[ready] == Submission(Compute(device), Barrier([]))
    && l[ready + 1] == Submission(Comms(device), Barrier([ready]))
    && l[done] == Submission(Comms(device), Barrier([]))
    && l[await] == Submission(Compute(device), Barrier([done]))
  }

  lemma {:induction false} BeginLayout(s: State, device: nat, steps: seq<Step>)
    ensures var l, n := Run(Next(s, Begin(device)), steps).log, |s.log|;
            && s.log <= l && n + 1 < |l|
            && l[n] == Submission(Compute(device), Barrier([])) && l[n + 1] == Submission(Comms(device), Barrier([n]))
  {
    var begun := Next(s, Begin(device));
    LogGrows(begun, steps);
    assert begun.log[|s.log|] == Submission(Compute(device), Barrier([]));
    assert begun.log[|s.log| + 1] == Submission(Comms(device), Barrier([|s.log|]));
  }

  /** The log after the end of a start, the steps in between and the matching done. */
  function FinishedAndDone(s: State, device: nat, between: seq<Step>): Log {
    Next(Run(Next(s, Finish(device)), between), Done(device)).log
  }

  lemma {:induction false} FinishLayout(s: State, device: nat, between: seq<Step>)
    requires device !in s.doneEvents && LeavesAlone(between, device)
    ensures var l, n := FinishedAndDone(s, device, between), |s.log|;
            && s.log <= l && n + 1 < |l|
            && l[n] == Submission(Comms(device), Barrier([]))
            && l[|l| - 1] == Submission(Compute(device), Barrier([n]))
  {
    var finished := Next(s, Finish(device));
    LogGrows(finished, between);
    EventKept(finished, between, device);
    assert finished.log[|s.log|] == Submission(Comms(device), Barrier([]));
  }

  lemma {:induction false} StartDoneLayout(s: State, device: nat, work: seq<Step>, between: seq<Step>)
    requires var worked := Run(Next(s, Begin(device)), work); device !in worked.doneEvents
    requires LeavesAlone(between, device)
    ensures var worked, l := Run(Next(s, Begin(device)), work), AfterDone(s, device, work, between).log;
            && s.log <= worked.log && worked.log <= l && |l| > 0
            && Handover(l, device, |s.log|, |worked.log|, |l| - 1)
  {
    BeginLayout(s, device, work);
    FinishLayout(Run(Next(s, Begin(device)), work), device, between);
  }

  /** Compute work before the event, work on the communication stream between the wait and the done
      event, and compute work after the wait for that: in this order under every legal schedule. */
  lemma {:induction false} ThroughTheEvents(l: Log, device: nat, ready: nat, done: nat, await: nat, t: Schedule, k: nat)
    requires Legal(l, t) && Handover(l, device, ready, done, await)
    requires ready + 1 < k < done && l[k].stream == Comms(device)
    ensures forall i :: 0 <= i < ready && l[i].stream == Compute(device) ==> Before(t, i, k)
    ensures forall j :: await < j < |l| && l[j].stream == Compute(device) ==> Before(t, k, j)
  {
    assert ready in l[ready + 1].cmd.waits && done in l[await].cmd.waits;
    assert Before(t, ready, ready + 1) && Before(t, ready + 1, k) && Before(t, k, done) && Before(t, done, await);
  }

  /** The start/done protocol orders the compute stream and the communication stream: whatever else all
      devices do in between and after, under every legal schedule all compute work submitted before the
      start finishes before any work of the start on the communication stream starts, and that finishes
      before any compute work submitted after the done starts. */
  lemma {:induction false} StartDoneOrders(
      s: State, device: nat, work: seq<Step>, between: seq<Step>, rest: Log, t: Schedule, k: nat)
    requires var worked := Run(Next(s, Begin(device)), work);
             device !in worked.doneEvents && |s.log| + 1 < k < |worked.log| && worked.log[k].stream == Comms(device)
    requires LeavesAlone(between, device) && Legal(AfterDone(s, device, work, between).log + rest, t)
    ensures var end := AfterDone(s, device, work, between).log;
            && (forall i :: 0 <= i < |s.log| && s.log[i].stream == Compute(device) ==> Before(t, i, k))
            && (forall j :: |end| <= j < |end + rest| && (end + rest)[j].stream == Compute(device) ==> Before(t, k, j))
  {
    var worked, end := Run(Next(s, Begin(device)), work), AfterDone(s, device, work, between).log;
    StartDoneLayout(s, device, work, between);
    var l := end + rest;
    assert forall i :: 0 <= i < |end| ==> l[i] == end[i];
    ThroughTheEvents(l, device, |s.log|, |worked.log|, |end| - 1, t, k);
  }

  // ---------------------------------------------------------------------------------------------
  // One start, as its thread submits it

  /** The steps of a start: the wait, the commands of the collective one by one, the done event. */
  function StartSteps(device: nat, collective: seq<Command>): seq<Step> {
    [Begin(device)] + Submits(device, collective) + [Finish(device)]
  }

  function Submits(device: nat, commands: seq<Command>): seq<Step> {
    seq(|commands|, i requires 0 <= i < |commands| => Submit(Submission(Comms(device), commands[i])))
  }

  lemma {:induction false} RunJoin(s: State, a: seq<Step>, b: seq<Step>)
    ensures Run(s, a + b) == Run(Run(s, a), b)
    decreases |a|
  {
    if a == [] {
      assert a + b == b;
    } else {
      assert (a + b)[1..] == a[1..] + b;
      RunJoin(Next(s, a[0]), a[1..], b);
    }
  }

  lemma {:induction false} RunOne(s: State, a: Step)
    ensures Run(s, [a]) == Next(s, a)
  {
    assert [a][1..] == [];
  }

  lemma {:induction false} RunSubmits(s: State, device: nat, commands: seq<Command>)
    ensures Run(s, Submits(device, commands)) == s.(log := s.log + OnComms(device, commands))
    decreases |commands|
  {
    if commands == [] {
      assert s.log + OnComms(device, commands) == s.log;
    } else {
      var n := |commands| - 1;
      var last := Submission(Comms(device), commands[n]);
      assert Submits(device, commands) == Submits(device, commands[..n]) + [Submit(last)];
      assert OnComms(device, commands) == OnComms(device, commands[..n]) + [last];
      RunSubmits(s, device, commands[..n]);
      RunJoin(s, Submits(device, commands[..n]), [Submit(last)]);
      RunOne(Run(s, Submits(device, commands[..n])), Submit(last));
    }
  }

  /** What Execute submits is a run of the protocol. */
  lemma {:induction false} StartedIsRun(s: State, device: nat, collective: seq<Command>)
    ensures var log := Started(s.log, device, collective);
            Run(s, StartSteps(device, collective)) ==
            if device in s.doneEvents then State(log, s.doneEvents, true)
            else State(log, s.doneEvents[device := |log| - 1], s.failed)
  {
    var a, b, c := [Begin(device)], Submits(device, collective), [Finish(device)];
    RunJoin(s, a + b, c);
    RunJoin(s, a, b);
    RunOne(s, Begin(device));
    RunSubmits(Next(s, Begin(device)), device, collective);
    RunOne(Run(s, a + b), Finish(device));
  }

  /** A start adds its event, its wait, the commands of the collective in order and the done event. */
  lemma {:induction false} StartedLayout(log: Log, device: nat, collective: seq<Command>)
    ensures var l, n, m := Started(log, device, collective), |log|, |collective|;
            && |l| == n + m + 3 && log <= l
            && l[n] == Submission(Compute(device), Barrier([])) && l[n + 1] == Submission(Comms(device), Barrier([n]))
            && (forall i :: 0 <= i < m ==> l[n + 2 + i] == Submission(Comms(device), collective[i]))
            && l[n + m + 2] == Submission(Comms(device), Barrier([]))
  {
    var l, n, begun := Started(log, device, collective), |log|, Begun(log, device);
    assert begun[n] == Submission(Compute(device), Barrier([])) && l[n] == begun[n];
    assert begun[n + 1] == Submission(Comms(device), Barrier([n])) && l[n + 1] == begun[n + 1];
    forall i | 0 <= i < |collective| ensures l[n + 2 + i] == Submission(Comms(device), collective[i]) {
      assert l[n + 2 + i] == OnComms(device, collective)[i];
    }
  }

  /** Under every legal schedule of a log that goes on from there, compute work from before the start
      finishes before any command of the collective starts, and every command finishes before the done event. */
  lemma {:induction false} StartedOrders(
      log: Log, device: nat, collective: seq<Command>, rest: Log, t: Schedule, i: nat)
    requires Legal(Started(log, device, collective) + rest, t) && i < |collective|
    ensures var l, k := Started(log, device, collective), |log| + 2 + i;
            && k < |l| - 1 && l[k] == Submission(Comms(device), collective[i])
            && (forall j :: 0 <= j < |log| && log[j].stream == Compute(device) ==> Before(t, j, k))
            && Before(t, k, |l| - 1)
  {
    StartedLayout(log, device, collective);
    var l, n, k := Started(log, device, collective), |log|, |log| + 2 + i;
    LegalPrefix(l, rest, t);
    assert n in l[n + 1].cmd.waits;
    assert Before(t, n, n + 1) && Before(t, n + 1, k) && Before(t, k, |l| - 1);
    forall j | 0 <= j < n && log[j].stream == Compute(device) ensures Before(t, j, k) {
      assert l[j] == log[j];
      assert Before(t, j, n);
    }
  }

  // ---------------------------------------------------------------------------------------------
  // Ordering around the kernels of a batch, which run on the stream of rank 0

  /** A batch of collectives entered by the devices' communication streams, between a participant's Begin
      and its Finish; `before` are the steps from its Begin to the firing of the first call and `after`
      those from the firing of the last call to its Finish. */
  datatype BatchRun = BatchRun(
    s: State, before: seq<Step>, arrivals: seq<seq<Participant>>, streamOf: seq<Stream>, gaps: seq<Log>,
    maxCall: nat, after: seq<Step>, between: seq<Step>)

  function Reached(r: BatchRun, device: nat): State {
    Run(Next(r.s, Begin(device)), r.before)
  }

  function Fired(r: BatchRun, device: nat): State
    requires r.maxCall <= |r.gaps| + 1 && r.maxCall <= |r.arrivals|
    requires forall i :: 0 <= i < r.maxCall ==> r.arrivals[i] != []
  {
    Reached(r, device).(log := Batch(Reached(r, device).log, r.arrivals, r.streamOf, r.gaps, r.maxCall, r.maxCall))
  }

  function Ended(r: BatchRun, device: nat): Log
    requires r.maxCall <= |r.gaps| + 1 && r.maxCall <= |r.arrivals|
    requires forall i :: 0 <= i < r.maxCall ==> r.arrivals[i] != []
  {
    FinishedAndDone(Run(Fired(r, device), r.after), device, r.between)
  }

  lemma {:induction false} StagesLayout(
      s: State, device: nat, before: seq<Step>, fired: State, after: seq<Step>, between: seq<Step>)
    requires Run(Next(s, Begin(device)), before).log <= fired.log
    requires device !in Run(fired, after).doneEvents && LeavesAlone(between, device)
    ensures var start, end := Run(Next(s, Begin(device)), before).log,
              FinishedAndDone(Run(fired, after), device, between);
            var n, done := |s.log|, |Run(fired, after).log|;
            && n + 1 < |start| <= |fired.log| <= done < |end| - 1
            && s.log <= start && fired.log <= end
            && Handover(end, device, n, done, |end| - 1)
  {
    var start, worked := Run(Next(s, Begin(device)), before).log, Run(fired, after);
    BeginLayout(s, device, before);
    LogGrows(fired, after);
    FinishLayout(worked, device, between);
    Chained(s.log, start, fired.log, worked.log, FinishedAndDone(worked, device, between), device);
  }

  /** Five stages of one growing log. */
  lemma {:induction false} Chained(a: Log, b: Log, c: Log, d: Log, e: Log, device: nat)
    requires a <= b && b <= c && c <= d && d <= e && |a| + 1 < |b| && |d| + 1 < |e|
    requires b[|a|] == Submission(Compute(device), Barrier([]))
    requires b[|a| + 1] == Submission(Comms(device), Barrier([|a|]))
    requires e[|d|] == Submission(Comms(device), Barrier([]))
    requires e[|e| - 1] == Submission(Compute(device), Barrier([|d|]))
    ensures c <= e && Handover(e, device, |a|, |d|, |e| - 1)
  {
    assert e[|a|] == b[|a|] && e[|a| + 1] == b[|a| + 1];
  }

  /** Start, kernel, done: for every participant of a batch, whatever all devices do in between, under
      every legal schedule its compute work submitted before its start finishes before any kernel of the
      batch starts, on whichever device that runs, and every kernel finishes before its compute work
      submitted after its done starts. */
  lemma {:induction false} KernelsBetweenStartAndDone(
      r: BatchRun, device: nat, rest: Log, t: Schedule, call: nat, k: nat)
    requires IsBatch(r.arrivals, r.streamOf, r.gaps, r.maxCall) && call < r.maxCall && Comms(device) in r.streamOf
    requires KernelOf(Reached(r, device).log, r.streamOf, r.gaps, call, r.maxCall, k)
    requires device !in Run(Fired(r, device), r.after).doneEvents && LeavesAlone(r.between, device)
    requires Legal(Ended(r, device) + rest, t)
    ensures var end := Ended(r, device);
            && (forall i :: 0 <= i < |r.s.log| && r.s.log[i].stream == Compute(device) ==> Before(t, i, k))
            && (forall j :: |end| <= j < |end + rest| && (end + rest)[j].stream == Compute(device) ==> Before(t, k, j))
  {
    var reached, fired := Reached(r, device), Fired(r, device);
    var worked, end := Run(fired, r.after), Ended(r, device);
    BatchExtends(reached.log, r.arrivals, r.streamOf, r.gaps, r.maxCall);
    StagesOn(r.s, device, r.before, reached, fired, r.after, worked, r.between, end, rest);
    KernelBetweenEvents(r, device, reached.log, fired.log, |worked.log|, end, end + rest, t, call, k);
    OrderedByEvents(end + rest, device, r.s.log, reached.log, fired.log, |worked.log|, end, t, k);
  }

  /** The kernel comes after the wait on the communication stream and before the done event. */
  lemma {:induction false} KernelBetweenEvents(
      r: BatchRun, device: nat, start: Log, fired: Log, done: nat, end: Log, l: Log, t: Schedule, call: nat, k: nat)
    requires IsBatch(r.arrivals, r.streamOf, r.gaps, r.maxCall) && call < r.maxCall && Comms(device) in r.streamOf
    requires KernelOf(start, r.streamOf, r.gaps, call, r.maxCall, k)
    requires fired == Batch(start, r.arrivals, r.streamOf, r.gaps, r.maxCall, r.maxCall) && start <= fired
    requires Legal(l, t) && Bracketed(l, device, r.s.log, start, fired, done, end)
    ensures k < |l| && Before(t, |r.s.log| + 1, k) && Before(t, k, done)
  {
    KernelBetween(start, r.arrivals, r.streamOf, r.gaps, r.maxCall, fired, l, t, call, k, |r.s.log| + 1, done);
  }

  /** So it comes after the compute work before the start and before the compute work after the done. */
  lemma {:induction false} OrderedByEvents(
      l: Log, device: nat, first: Log, start: Log, fired: Log, done: nat, end: Log, t: Schedule, k: nat)
    requires Legal(l, t) && Bracketed(l, device, first, start, fired, done, end)
    requires k < |l| && Before(t, |first| + 1, k) && Before(t, k, done)
    ensures forall i :: 0 <= i < |first| && first[i].stream == Compute(device) ==> Before(t, i, k)
    ensures forall j :: |end| <= j < |l| && l[j].stream == Compute(device) ==> Before(t, k, j)
  {
    HandoverOrders(l, device, |first|, done, |end| - 1, t, k);
  }

  /** The stages of a run seen from a later log l. */
  ghost predicate Bracketed(l: Log, device: nat, first: Log, start: Log, fired: Log, done: nat, end: Log) {
    && |first| + 1 < |start| && |fired| <= done && end != []
    && |first| <= |l| && (forall i :: 0 <= i < |first| ==> l[i] == first[i]) && fired <= l
    && Handover(l, device, |first|, done, |end| - 1)
  }

  lemma {:induction false} StagesOn(
      s: State, device: nat, before: seq<Step>, reached: State, fired: State, after: seq<Step>, worked: State,
      between: seq<Step>, end: Log, rest: Log)
    requires reached == Run(Next(s, Begin(device)), before) && reached.log <= fired.log
    requires worked == Run(fired, after) && end == FinishedAndDone(worked, device, between)
    requires device !in worked.doneEvents && LeavesAlone(between, device)
    ensures Bracketed(end + rest, device, s.log, reached.log, fired.log, |worked.log|, end)
  {
    StagesLayout(s, device, before, fired, after, between);
    HandoverGrows(end, end + rest, device, |s.log|, |worked.log|, |end| - 1);
    Prefixes(s.log, reached.log, fired.log, end, rest);
  }

  lemma {:induction false} Prefixes(a: Log, b: Log, c: Log, d: Log, rest: Log)
    requires a <= b && b <= c && c <= d
    ensures d <= d + rest && c <= d + rest && a <= d + rest
  {
  }

  lemma {:induction false} HandoverGrows(l: Log, more: Log, device: nat, ready: nat, done: nat, await: nat)
    requires Handover(l, device, ready, done, await) && l <= more
    ensures Handover(more, device, ready, done, await)
  {
  }

  lemma {:induction false} HandoverOrders(l: Log, device: nat, ready: nat, done: nat, await: nat, t: Schedule, k: nat)
    requires Legal(l, t) && Handover(l, device, ready, done, await)
    requires 0 <= k < |l| && Before(t, ready + 1, k) && Before(t, k, done)
    ensures forall i :: 0 <= i < ready && l[i].stream == Compute(device) ==> Before(t, i, k)
    ensures forall j :: await < j < |l| && l[j].stream == Compute(device) ==> Before(t, k, j)
  {
    assert ready in l[ready + 1].cmd.waits && done in l[await].cmd.waits;
    assert Before(t, ready, ready + 1) && Before(t, done, await);
  }

  // ---------------------------------------------------------------------------------------------
  // Legal schedules exist

  /** Everything submitted outside the protocol waits only for events that exist by then. */
  ghost predicate Sensible(s: State, steps: seq<Step>)
    decreases |steps|
  {
    steps != [] ==>
      (steps[0].Submit? ==> CausalAt(|s.log|, [steps[0].x])) && Sensible(Next(s, steps[0]), steps[1..])
  }

  ghost predicate EventsExist(s: State) {
    Causal(s.log) && forall d :: d in s.doneEvents ==> s.doneEvents[d] < |s.log|
  }

  lemma {:induction false} StepCausal(s: State, a: Step)
    requires EventsExist(s) && (a.Submit? ==> CausalAt(|s.log|, [a.x]))
    ensures EventsExist(Next(s, a))
  {
    match a
    case Submit(x) => CausalJoin(s.log, [x]);
    case Begin(d) => CausalJoin(s.log, Begun(s.log, d)[|s.log|..]);
                     assert Begun(s.log, d) == s.log + Begun(s.log, d)[|s.log|..];
    case Finish(d) => CausalJoin(s.log, [Submission(Comms(d), Barrier([]))]);
    case Done(d) =>
      if d in s.doneEvents {
        CausalJoin(s.log, [Submission(Compute(d), Barrier([s.doneEvents[d]]))]);
      }
  }

  /** Every run of the protocol has a legal schedule. */
  lemma {:induction false} RunHasSchedule(s: State, steps: seq<Step>)
    requires EventsExist(s) && Sensible(s, steps)
    ensures EventsExist(Run(s, steps)) && Legal(Run(s, steps).log, SubmissionOrder())
    decreases |steps|
  {
    if steps == [] {
      SubmissionOrderIsLegal(s.log);
    } else {
      StepCausal(s, steps[0]);
      RunHasSchedule(Next(s, steps[0]), steps[1..]);
    }
  }

  /** So has a run of the protocol around a batch. */
  lemma {:induction false} BatchRunHasSchedule(r: BatchRun, device: nat)
    requires IsBatch(r.arrivals, r.streamOf, r.gaps, r.maxCall)
    requires EventsExist(r.s) && Sensible(Next(r.s, Begin(device)), r.before)
    requires GapsCausal(Reached(r, device).log, r.arrivals, r.streamOf, r.gaps, r.maxCall)
    requires Sensible(Fired(r, device), r.after)
    requires Sensible(Next(Run(Fired(r, device), r.after), Finish(device)), r.between)
    ensures Legal(Ended(r, device), SubmissionOrder())
  {
    var reached, fired := Reached(r, device), Fired(r, device);
    StepCausal(r.s, Begin(device));
    RunHasSchedule(Next(r.s, Begin(device)), r.before);
    BatchCausal(reached.log, r.arrivals, r.streamOf, r.gaps, r.maxCall);
    BatchExtends(reached.log, r.arrivals, r.streamOf, r.gaps, r.maxCall);
    FinishHasSchedule(fired, device, r.after, r.between);
  }

  lemma {:induction false} FinishHasSchedule(s: State, device: nat, after: seq<Step>, between: seq<Step>)
    requires EventsExist(s) && Sensible(s, after) && Sensible(Next(Run(s, after), Finish(device)), between)
    ensures Legal(FinishedAndDone(Run(s, after), device, between), SubmissionOrder())
  {
    RunHasSchedule(s, after);
    var finished := Next(Run(s, after), Finish(device));
    StepCausal(Run(s, after), Finish(device));
    RunHasSchedule(finished, between);
    StepCausal(Run(finished, between), Done(device));
    SubmissionOrderIsLegal(FinishedAndDone(Run(s, after), device, between));
  }
}
