/** AcquireCclComm: the threads of one rendezvous group share an exclusive clique lock, the first
    group creates one communicator per local rank behind a barrier, later groups reuse them. */
module Clique {
  import opened Ordering
  import opened Wrappers

  /** Thread of local rank `rank` in rendezvous group `group`. */
  datatype Thread = Thread(group: nat, rank: nat)

  /** Entered: has the clique lock, has not looked at `ready`.
      Creating: saw `ready` unset.
      Inserted(n): put its communicator in the map, which then had n entries.
      Blocked: in ready.WaitForNotification.
      Passed: beyond the barrier.
      Returned: holds its communicator's lock.  Finished: has released it. */
  datatype Phase = Entered | Creating | Inserted(count: nat) | Blocked | Passed | Returned | Finished

  datatype State = State(
    lock: Option<nat>,            // group that holds the clique lock
    communicators: set<nat>,      // ranks with an entry in the map
    ready: bool,
    notifications: nat,           // how often ready.Notify has been called
    holders: map<nat, Thread>,    // who holds the lock of each rank's communicator
    phase: map<Thread, Phase>,    // threads that have entered so far
    created: seq<Thread>)         // who created the communicators, in order

  datatype Step =
    | Acquire(group: nat) | Release(group: nat)
    | Check(t: Thread) | Insert(t: Thread) | Decide(t: Thread) | Wake(t: Thread) | Lookup(t: Thread) | Finish(t: Thread)

  const Initial := State(None, {}, false, 0, map[], map[], [])

  predicate At(s: State, t: Thread, p: Phase) {
    t in s.phase && s.phase[t] == p
  }

  /** The thread has dropped its share of the clique lock. */
  predicate Left(s: State, t: Thread) {
    At(s, t, Returned) || At(s, t, Finished)
  }

  predicate Enabled(ranks: set<nat>, s: State, a: Step) {
    match a
    case Acquire(g) => s.lock.None? && forall r :: r in ranks ==> Thread(g, r) !in s.phase
    case Release(g) => s.lock == Some(g) && forall r :: r in ranks ==> Left(s, Thread(g, r))
    case Check(t) => At(s, t, Entered)
    case Insert(t) => At(s, t, Creating)
    case Decide(t) => t in s.phase && s.phase[t].Inserted?
    case Wake(t) => At(s, t, Blocked) && s.ready
    case Lookup(t) => At(s, t, Passed) && t.rank !in s.holders
    case Finish(t) => At(s, t, Returned)
  }

  function Next(ranks: set<nat>, s: State, a: Step): State
    requires Enabled(ranks, s, a)
  {
    match a
    case Acquire(g) => s.(lock := Some(g), phase := s.phase + map r | r in ranks :: Thread(g, r) := Entered)
    case Release(g) => s.(lock := None)
    case Check(t) => s.(phase := s.phase[t := if s.ready then Passed else Creating])
    case Insert(t) =>
      var communicators := s.communicators + {t.rank};
      s.(communicators := communicators, phase := s.phase[t := Inserted(|communicators|)], created := s.created + [t])
    case Decide(t) =>
      if s.phase[t].count == |ranks| then
        s.(ready := true, notifications := s.notifications + 1, phase := s.phase[t := Passed])
      else s.(phase := s.phase[t := Blocked])
    case Wake(t) => s.(phase := s.phase[t := Passed])
    case Lookup(t) => s.(phase := s.phase[t := Returned], holders := s.holders[t.rank := t])
    case Finish(t) => s.(phase := s.phase[t := Finished], holders := s.holders - {t.rank})
  }

  datatype Run = Run(states: seq<State>, steps: seq<Step>)

  ghost predicate IsRun(ranks: set<nat>, run: Run) {
    && |run.states| == |run.steps| + 1
    && run.states[0] == Initial
    && forall i :: 0 <= i < |run.steps| ==>
         Enabled(ranks, run.states[i], run.steps[i]) &&
         run.states[i + 1] == Next(ranks, run.states[i], run.steps[i])
  }

  // ---------------------------------------------------------------------------------------------

  ghost predicate PhaseOk(ranks: set<nat>, s: State, t: Thread)
    requires t in s.phase
  {
    && t.rank in ranks
    && (!s.ready ==> s.lock == Some(t.group))
    && match s.phase[t]
       case Entered => !s.ready ==> t.rank !in s.communicators
       case Creating => !s.ready && t.rank !in s.communicators
       case Inserted(n) => 1 <= n <= |s.created| && s.created[n - 1] == t && (n == |ranks| ==> !s.ready)
       case Blocked => t in s.created
       case Passed => s.ready
       case Returned => s.ready && t.rank in s.holders && s.holders[t.rank] == t
       case Finished => s.ready
  }

  ghost predicate PhasesOk(ranks: set<nat>, s: State) {
    forall t :: t in s.phase ==> PhaseOk(ranks, s, t)
  }

  /** One communicator per rank, all made by one group; until the barrier opens the makers are still
      behind it, and once all are in, the last one has yet to notify. */
  ghost predicate CreatedOk(ranks: set<nat>, s: State) {
    && |s.created| == |s.communicators|
    && s.communicators <= ranks
    && (forall i :: 0 <= i < |s.created| ==> s.created[i] in s.phase && s.created[i].rank in s.communicators)
    && (forall i, j :: 0 <= i < j < |s.created| ==>
          s.created[i].rank != s.created[j].rank && s.created[i].group == s.created[j].group)
    && (!s.ready ==> forall i :: 0 <= i < |s.created| ==>
          s.phase[s.created[i]] == Inserted(i + 1) || (i + 1 < |ranks| && s.phase[s.created[i]] == Blocked))
  }

  ghost predicate HoldersOk(s: State) {
    forall r :: r in s.holders ==> s.holders[r].rank == r && At(s, s.holders[r], Returned)
  }

  ghost predicate Inv(ranks: set<nat>, s: State) {
    && s.notifications == (if s.ready then 1 else 0)
    && (s.ready ==> s.communicators == ranks)
    && PhasesOk(ranks, s)
    && CreatedOk(ranks, s)
    && HoldersOk(s)
    && (s.lock.Some? ==> forall r :: r in ranks ==> Thread(s.lock.value, r) in s.phase)
  }

  lemma {:induction false} CreatorsHoldTheLock(ranks: set<nat>, s: State)
    requires Inv(ranks, s)
    ensures s.communicators != {} && !s.ready ==> s.lock.Some?
  {
    if |s.created| > 0 {
      assert PhaseOk(ranks, s, s.created[0]);
    }
  }

  lemma {:induction false} AcquireKeepsInv(ranks: set<nat>, s: State, g: nat)
    requires ranks != {} && Inv(ranks, s) && Enabled(ranks, s, Acquire(g))
    ensures Inv(ranks, Next(ranks, s, Acquire(g)))
  {
    var s' := Next(ranks, s, Acquire(g));
    CreatorsHoldTheLock(ranks, s);
    forall u | u in s'.phase ensures PhaseOk(ranks, s', u) {
      assert u in s.phase ==> PhaseOk(ranks, s, u);
    }
  }

  lemma {:induction false} ReleaseKeepsInv(ranks: set<nat>, s: State, g: nat)
    requires ranks != {} && Inv(ranks, s) && Enabled(ranks, s, Release(g))
    ensures Inv(ranks, Next(ranks, s, Release(g)))
  {
    var s' := Next(ranks, s, Release(g));
    var r :| r in ranks;
    assert PhaseOk(ranks, s, Thread(g, r));
    forall u | u in s'.phase ensures PhaseOk(ranks, s', u) {
      assert u in s.phase ==> PhaseOk(ranks, s, u);
    }
  }

  lemma {:induction false} CheckPhases(ranks: set<nat>, s: State, s': State, t: Thread)
    requires Inv(ranks, s) && At(s, t, Entered)
    requires s' == s.(phase := s.phase[t := if s.ready then Passed else Creating])
    ensures PhasesOk(ranks, s')
  {
    assert PhaseOk(ranks, s, t);
    forall u | u in s'.phase ensures PhaseOk(ranks, s', u) {
      assert PhaseOk(ranks, s, u);
    }
  }

  lemma {:induction false} CheckCreated(ranks: set<nat>, s: State, s': State, t: Thread)
    requires Inv(ranks, s) && At(s, t, Entered)
    requires s' == s.(phase := s.phase[t := if s.ready then Passed else Creating])
    ensures CreatedOk(ranks, s') && HoldersOk(s')
  {
    assert PhaseOk(ranks, s, t);
  }

  lemma {:induction false} CheckKeepsInv(ranks: set<nat>, s: State, t: Thread)
    requires ranks != {} && Inv(ranks, s) && Enabled(ranks, s, Check(t))
    ensures Inv(ranks, Next(ranks, s, Check(t)))
  {
    var s' := Next(ranks, s, Check(t));
    assert PhaseOk(ranks, s, t);
    CheckPhases(ranks, s, s', t);
    CheckCreated(ranks, s, s', t);
  }

  lemma {:induction false} InsertPhases(ranks: set<nat>, s: State, s': State, t: Thread)
    requires Inv(ranks, s) && At(s, t, Creating)
    requires s' == s.(communicators := s.communicators + {t.rank}, created := s.created + [t],
                  phase := s.phase[t := Inserted(|s.communicators + {t.rank}|)])
    ensures PhasesOk(ranks, s')
  {
    forall u | u in s'.phase ensures PhaseOk(ranks, s', u) {
      InsertPhaseOf(ranks, s, s', t, u);
    }
  }

  lemma {:induction false} InsertPhaseOf(ranks: set<nat>, s: State, s': State, t: Thread, u: Thread)
    requires Inv(ranks, s) && At(s, t, Creating) && u in s.phase
    requires s' == s.(communicators := s.communicators + {t.rank}, created := s.created + [t],
                  phase := s.phase[t := Inserted(|s.communicators + {t.rank}|)])
    ensures PhaseOk(ranks, s', u)
  {
    assert PhaseOk(ranks, s, t);
    if u == t {
      assert |s.communicators + {t.rank}| == |s.communicators| + 1 == |s'.created|;
    } else {
      assert PhaseOk(ranks, s, u);
      assert forall i :: 0 <= i < |s.created| ==> s'.created[i] == s.created[i];
    }
  }

  lemma {:induction false} InsertCreated(ranks: set<nat>, s: State, s': State, t: Thread)
    requires Inv(ranks, s) && At(s, t, Creating)
    requires s' == s.(communicators := s.communicators + {t.rank}, created := s.created + [t],
                  phase := s.phase[t := Inserted(|s.communicators + {t.rank}|)])
    ensures CreatedOk(ranks, s') && HoldersOk(s')
  {
    assert PhaseOk(ranks, s, t);
  }

  lemma {:induction false} InsertKeepsInv(ranks: set<nat>, s: State, t: Thread)
    requires ranks != {} && Inv(ranks, s) && Enabled(ranks, s, Insert(t))
    ensures Inv(ranks, Next(ranks, s, Insert(t)))
  {
    var s' := Next(ranks, s, Insert(t));
    assert PhaseOk(ranks, s, t);
    InsertPhases(ranks, s, s', t);
    InsertCreated(ranks, s, s', t);
  }

  lemma {:induction false} NotifyPhases(ranks: set<nat>, s: State, s': State, t: Thread)
    requires Inv(ranks, s) && At(s, t, Inserted(|ranks|))
    requires s' == s.(ready := true, notifications := s.notifications + 1, phase := s.phase[t := Passed])
    ensures PhasesOk(ranks, s')
  {
    assert PhaseOk(ranks, s, t);
    SubsetCount(s.communicators, ranks);
    forall u | u in s'.phase ensures PhaseOk(ranks, s', u) {
      assert PhaseOk(ranks, s, u);
    }
  }

  lemma {:induction false} NotifyCreated(ranks: set<nat>, s: State, s': State, t: Thread)
    requires Inv(ranks, s) && At(s, t, Inserted(|ranks|))
    requires s' == s.(ready := true, notifications := s.notifications + 1, phase := s.phase[t := Passed])
    ensures CreatedOk(ranks, s') && HoldersOk(s')
  {
    assert PhaseOk(ranks, s, t);
    SubsetCount(s.communicators, ranks);
  }

  lemma {:induction false} NotifyKeepsInv(ranks: set<nat>, s: State, t: Thread)
    requires ranks != {} && Inv(ranks, s) && Enabled(ranks, s, Decide(t)) && s.phase[t].count == |ranks|
    ensures Inv(ranks, Next(ranks, s, Decide(t)))
  {
    var s' := Next(ranks, s, Decide(t));
    assert PhaseOk(ranks, s, t);
    SubsetCount(s.communicators, ranks);
    NotifyPhases(ranks, s, s', t);
    NotifyCreated(ranks, s, s', t);
  }

  lemma {:induction false} BlockPhases(ranks: set<nat>, s: State, s': State, t: Thread)
    requires Inv(ranks, s) && t in s.phase && s.phase[t].Inserted? && s.phase[t].count != |ranks|
    requires s' == s.(phase := s.phase[t := Blocked])
    ensures PhasesOk(ranks, s')
  {
    assert PhaseOk(ranks, s, t);
    SubsetCount(s.communicators, ranks);
    forall u | u in s'.phase ensures PhaseOk(ranks, s', u) {
      assert PhaseOk(ranks, s, u);
    }
  }

  lemma {:induction false} BlockCreated(ranks: set<nat>, s: State, s': State, t: Thread)
    requires Inv(ranks, s) && t in s.phase && s.phase[t].Inserted? && s.phase[t].count != |ranks|
    requires s' == s.(phase := s.phase[t := Blocked])
    ensures CreatedOk(ranks, s') && HoldersOk(s')
  {
    assert PhaseOk(ranks, s, t);
    SubsetCount(s.communicators, ranks);
  }

  lemma {:induction false} BlockKeepsInv(ranks: set<nat>, s: State, t: Thread)
    requires ranks != {} && Inv(ranks, s) && Enabled(ranks, s, Decide(t)) && s.phase[t].count != |ranks|
    ensures Inv(ranks, Next(ranks, s, Decide(t)))
  {
    var s' := Next(ranks, s, Decide(t));
    assert PhaseOk(ranks, s, t);
    SubsetCount(s.communicators, ranks);
    BlockPhases(ranks, s, s', t);
    BlockCreated(ranks, s, s', t);
  }

  lemma {:induction false} WakeKeepsInv(ranks: set<nat>, s: State, t: Thread)
    requires ranks != {} && Inv(ranks, s) && Enabled(ranks, s, Wake(t))
    ensures Inv(ranks, Next(ranks, s, Wake(t)))
  {
    var s' := Next(ranks, s, Wake(t));
    assert PhaseOk(ranks, s, t);
    forall u | u in s'.phase ensures PhaseOk(ranks, s', u) {
      assert u in s.phase ==> PhaseOk(ranks, s, u);
    }
  }

  lemma {:induction false} LookupKeepsInv(ranks: set<nat>, s: State, t: Thread)
    requires ranks != {} && Inv(ranks, s) && Enabled(ranks, s, Lookup(t))
    ensures Inv(ranks, Next(ranks, s, Lookup(t)))
  {
    var s' := Next(ranks, s, Lookup(t));
    assert PhaseOk(ranks, s, t);
    forall u | u in s'.phase ensures PhaseOk(ranks, s', u) {
      assert u in s.phase ==> PhaseOk(ranks, s, u);
    }
  }

  lemma {:induction false} FinishKeepsInv(ranks: set<nat>, s: State, t: Thread)
    requires ranks != {} && Inv(ranks, s) && Enabled(ranks, s, Finish(t))
    ensures Inv(ranks, Next(ranks, s, Finish(t)))
  {
    var s' := Next(ranks, s, Finish(t));
    assert PhaseOk(ranks, s, t);
    forall u | u in s'.phase ensures PhaseOk(ranks, s', u) {
      assert u in s.phase ==> PhaseOk(ranks, s, u);
    }
  }

  lemma {:induction false} StepKeepsInv(ranks: set<nat>, s: State, a: Step)
    requires ranks != {} && Inv(ranks, s) && Enabled(ranks, s, a)
    ensures Inv(ranks, Next(ranks, s, a))
  {
    match a
    case Acquire(g) => AcquireKeepsInv(ranks, s, g);
    case Release(g) => ReleaseKeepsInv(ranks, s, g);
    case Check(t) => CheckKeepsInv(ranks, s, t);
    case Insert(t) => InsertKeepsInv(ranks, s, t);
    case Decide(t) =>
      if s.phase[t].count == |ranks| { NotifyKeepsInv(ranks, s, t); } else { BlockKeepsInv(ranks, s, t); }
    case Wake(t) => WakeKeepsInv(ranks, s, t);
    case Lookup(t) => LookupKeepsInv(ranks, s, t);
    case Finish(t) => FinishKeepsInv(ranks, s, t);
  }

  lemma {:induction false} RunKeepsInv(ranks: set<nat>, run: Run, i: nat)
    requires ranks != {} && IsRun(ranks, run) && i < |run.states|
    ensures Inv(ranks, run.states[i])
  {
    if i > 0 {
      RunKeepsInv(ranks, run, i - 1);
      StepKeepsInv(ranks, run.states[i - 1], run.steps[i - 1]);
    }
  }

  /** Clique initialisation, in every state of every run of any number of groups: `ready` is notified
      at most once; a thread is past the barrier only when every local communicator is in the map;
      each communicator was created once, all by the same group; and two threads never hold the same
      communicator. */
  lemma {:induction false} CliqueInitialisation(ranks: set<nat>, run: Run, i: nat)
    requires ranks != {} && IsRun(ranks, run) && i < |run.states|
    ensures var s := run.states[i];
            && s.notifications <= 1 && s.ready == (s.notifications == 1)
            && (forall t :: t in s.phase && (s.phase[t].Passed? || s.phase[t].Returned? || s.phase[t].Finished?) ==>
                  s.ready && s.communicators == ranks)
            && (forall j, k :: 0 <= j < k < |s.created| ==>
                  s.created[j].rank != s.created[k].rank && s.created[j].group == s.created[k].group)
            && (s.ready ==> |s.created| == |ranks|)
            && (forall t, u :: At(s, t, Returned) && At(s, u, Returned) && t.rank == u.rank ==> t == u)
  {
    RunKeepsInv(ranks, run, i);
    var s := run.states[i];
    forall t | t in s.phase ensures PhaseOk(ranks, s, t) {
    }
  }

  /** Once the barrier is open, no later group creates a communicator again. */
  lemma {:induction false} NeverCreatedAgain(ranks: set<nat>, run: Run, i: nat, j: nat)
    requires ranks != {} && IsRun(ranks, run) && i <= j < |run.states| && run.states[i].ready
    ensures run.states[j].ready && run.states[j].created == run.states[i].created
    ensures run.states[j].communicators == run.states[i].communicators
  {
    if i < j {
      NeverCreatedAgain(ranks, run, i, j - 1);
      RunKeepsInv(ranks, run, j - 1);
      StepKeepsCreated(ranks, run.states[j - 1], run.steps[j - 1]);
    }
  }

  lemma {:induction false} NoInsertWhenReady(ranks: set<nat>, s: State, t: Thread)
    requires Inv(ranks, s) && Enabled(ranks, s, Insert(t))
    ensures !s.ready
  {
    assert PhaseOk(ranks, s, t);
  }

  lemma {:induction false} StepKeepsCreated(ranks: set<nat>, s: State, a: Step)
    requires Inv(ranks, s) && s.ready && Enabled(ranks, s, a)
    ensures var s' := Next(ranks, s, a); s'.ready && s'.created == s.created && s'.communicators == s.communicators
  {
    if a.Insert? {
      NoInsertWhenReady(ranks, s, a.t);
    }
  }

  /** No deadlock: while a group holds the clique lock, some step other than the arrival of a new
      group can be taken. */
  lemma {:induction false} GroupCanGoOn(ranks: set<nat>, run: Run, i: nat) returns (a: Step)
    requires ranks != {} && IsRun(ranks, run) && i < |run.states| && run.states[i].lock.Some?
    ensures !a.Acquire? && Enabled(ranks, run.states[i], a)
  {
    RunKeepsInv(ranks, run, i);
    var s := run.states[i];
    var g := s.lock.value;
    if forall r :: r in ranks ==> Left(s, Thread(g, r)) {
      return Release(g);
    }
    var r :| r in ranks && !Left(s, Thread(g, r));
    var t := Thread(g, r);
    assert PhaseOk(ranks, s, t);
    match s.phase[t]
    case Entered => return Check(t);
    case Creating => return Insert(t);
    case Inserted(_) => return Decide(t);
    case Passed =>
      if t.rank in s.holders {
        return Finish(s.holders[t.rank]);
      }
      return Lookup(t);
    case Blocked =>
      if s.ready {
        return Wake(t);
      }
      a := BarrierCanGoOn(ranks, s);
  }

  lemma {:induction false} BarrierCanGoOn(ranks: set<nat>, s: State) returns (a: Step)
    requires ranks != {} && Inv(ranks, s) && s.lock.Some? && !s.ready
    ensures !a.Acquire? && Enabled(ranks, s, a)
  {
    var g := s.lock.value;
    if s.communicators == ranks {
      var last := s.created[|ranks| - 1];
      assert s.phase[last] == Inserted(|ranks|);
      return Decide(last);
    }
    SubsetCount(s.communicators, ranks);
    var r :| r in ranks && r !in s.communicators;
    var t := Thread(g, r);
    assert PhaseOk(ranks, s, t);
    if s.phase[t].Entered? {
      return Check(t);
    }
    return Insert(t);
  }

  // ---------------------------------------------------------------------------------------------
  // A group that acquires the clique releases it

  /** How far a thread has come. */
  function Weight(p: Phase): nat {
    match p
    case Entered => 0
    case Creating => 1
    case Inserted(_) => 2
    case Blocked => 3
    case Passed => 4
    case Returned => 5
    case Finished => 6
  }

  /** What the threads that have entered still have before them. */
  ghost function Todo(s: State): set<(Thread, nat)> {
    set t, k | t in s.phase && Weight(s.phase[t]) <= k < 6 :: (t, k)
  }

  lemma {:induction false} StepShrinks(ranks: set<nat>, s: State, a: Step)
    requires Enabled(ranks, s, a) && !a.Acquire? && !a.Release?
    ensures |Todo(Next(ranks, s, a))| < |Todo(s)| && Next(ranks, s, a).lock == s.lock
  {
    var s' := Next(ranks, s, a);
    assert Weight(s.phase[a.t]) < Weight(s'.phase[a.t]) <= 6;
    assert s'.phase == s.phase[a.t := s'.phase[a.t]];
    assert Todo(s') <= Todo(s);
    assert (a.t, Weight(s.phase[a.t])) in Todo(s) && (a.t, Weight(s.phase[a.t])) !in Todo(s');
    SubsetCount(Todo(s'), Todo(s));
  }

  /** A group cannot hold the clique for more steps than the threads have before them. */
  lemma {:induction false} HeldForSoLong(ranks: set<nat>, run: Run, i: nat, j: nat)
    requires IsRun(ranks, run) && i <= j < |run.states|
    requires forall k :: i <= k <= j ==> run.states[k].lock.Some?
    ensures j - i + |Todo(run.states[j])| <= |Todo(run.states[i])|
  {
    if i < j {
      HeldForSoLong(ranks, run, i, j - 1);
      assert run.states[j - 1].lock.Some? && run.states[j].lock.Some?;
      StepShrinks(ranks, run.states[j - 1], run.steps[j - 1]);
    }
  }

  /** When a group releases the clique, `ready` has been notified exactly once and all communicators are in
      the map. */
  lemma {:induction false} ReleasedIsReady(ranks: set<nat>, run: Run, j: nat)
    requires ranks != {} && IsRun(ranks, run) && j < |run.steps| && run.steps[j].Release?
    ensures var s := run.states[j + 1]; s.ready && s.notifications == 1 && s.communicators == ranks && s.lock.None?
  {
    RunKeepsInv(ranks, run, j);
    var s := run.states[j];
    var r :| r in ranks;
    assert Left(s, Thread(run.steps[j].group, r)) && PhaseOk(ranks, s, Thread(run.steps[j].group, r));
  }

  function Extend(ranks: set<nat>, run: Run, a: Step): Run
    requires run.states != [] && Enabled(ranks, run.states[|run.states| - 1], a)
  {
    Run(run.states + [Next(ranks, run.states[|run.states| - 1], a)], run.steps + [a])
  }

  lemma {:induction false} ExtendIsRun(ranks: set<nat>, run: Run, a: Step)
    requires IsRun(ranks, run) && Enabled(ranks, run.states[|run.steps|], a)
    ensures IsRun(ranks, Extend(ranks, run, a))
  {
    var more, n := Extend(ranks, run, a), |run.steps|;
    forall i | 0 <= i < |more.steps|
      ensures Enabled(ranks, more.states[i], more.steps[i])
      ensures more.states[i + 1] == Next(ranks, more.states[i], more.steps[i])
    {
      if i < n {
        assert more.steps[i] == run.steps[i] && more.states[i] == run.states[i];
        assert more.states[i + 1] == run.states[i + 1];
      } else {
        assert more.steps[i] == a && more.states[i] == run.states[n];
      }
    }
  }

  /** Every run in which a group holds the clique goes on to the group's release, and `ready` has then been
      notified exactly once. */
  lemma {:induction false} GroupReachesRelease(ranks: set<nat>, run: Run) returns (more: Run)
    requires ranks != {} && IsRun(ranks, run) && run.states[|run.steps|].lock.Some?
    ensures IsRun(ranks, more) && run.steps <= more.steps && |more.steps| > |run.steps|
    ensures more.steps[|more.steps| - 1] == Release(run.states[|run.steps|].lock.value)
    ensures var s := more.states[|more.steps|];
            s.ready && s.notifications == 1 && s.communicators == ranks && s.lock.None?
    ensures |more.steps| <= |run.steps| + |Todo(run.states[|run.steps|])| + 1
    decreases |Todo(run.states[|run.steps|])|
  {
    var n, s := |run.steps|, run.states[|run.steps|];
    var a := GroupCanGoOn(ranks, run, n);
    var next := Extend(ranks, run, a);
    ExtendIsRun(ranks, run, a);
    assert next.steps[n] == a && next.states[n + 1] == Next(ranks, s, a);
    if a.Release? {
      more := next;
      ReleasedIsReady(ranks, more, n);
    } else {
      StepShrinks(ranks, s, a);
      more := GroupReachesRelease(ranks, next);
    }
  }
}
