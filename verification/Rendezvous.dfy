/** The participants of one collective call, and the order std::sort puts them in. */
module Participants {
  import opened Ordering

  /** What a rank thread pushes into Manager.  `call` identifies the stream and the buffers
      that the thread passes on its call number `call`. */
  datatype Participant = Participant(rank: nat, call: nat)

  function Ranks(p: seq<Participant>): seq<nat> {
    seq(|p|, i requires 0 <= i < |p| => p[i].rank)
  }

  ghost predicate DistinctRanks(p: seq<Participant>) {
    forall i, j :: 0 <= i < j < |p| ==> p[i].rank != p[j].rank
  }

  predicate SortedByRank(p: seq<Participant>) {
    |p| >= 2 ==> p[0].rank <= p[1].rank && SortedByRank(p[1..])
  }

  lemma {:induction false} SortedPairwise(p: seq<Participant>, i: nat, j: nat)
    requires SortedByRank(p) && i < j < |p|
    ensures p[i].rank <= p[j].rank
  {
    if i > 0 {
      SortedPairwise(p[1..], i - 1, j - 1);
    } else if j > 1 {
      SortedPairwise(p[1..], 0, j - 1);
    }
  }

  function Insert(x: Participant, p: seq<Participant>): (q: seq<Participant>)
    requires SortedByRank(p)
    ensures SortedByRank(q)
    ensures q != [] && (q[0] == x || (p != [] && q[0] == p[0]))
    ensures multiset(q) == multiset(p) + multiset{x}
  {
    if p == [] then [x]
    else if x.rank < p[0].rank then assert ([x] + p)[1..] == p; [x] + p
    else
      var rest := Insert(x, p[1..]);
      assert p == [p[0]] + p[1..];
      assert ([p[0]] + rest)[1..] == rest;
      [p[0]] + rest
  }

  /** The participant vector after std::sort by rank. */
  function SortByRank(p: seq<Participant>): (q: seq<Participant>)
    ensures SortedByRank(q)
    ensures multiset(q) == multiset(p)
  {
    if p == [] then []
    else
      assert p == [p[0]] + p[1..];
      Insert(p[0], SortByRank(p[1..]))
  }

  /** Every rank once, in rank order, all from call number k. */
  ghost predicate CompleteRound(p: seq<Participant>, n: nat, k: nat) {
    |p| == n && forall i :: 0 <= i < n ==> p[i] == Participant(i, k)
  }

  lemma {:induction false} DistinctMeansSimple(p: seq<Participant>)
    requires DistinctRanks(p)
    ensures forall x :: multiset(p)[x] <= 1
  {
    if p == [] {
    } else {
      assert p == [p[0]] + p[1..];
      DistinctMeansSimple(p[1..]);
      assert p[0] !in p[1..];
    }
  }

  lemma {:induction false} SortKeepsDistinct(p: seq<Participant>, q: seq<Participant>)
    requires DistinctRanks(p)
    requires multiset(q) == multiset(p)
    ensures DistinctRanks(q)
  {
    DistinctMeansSimple(p);
    forall i, j | 0 <= i < j < |q| ensures q[i].rank != q[j].rank {
      TwoCopies(q, i, j);
      assert q[i] in multiset(q) && q[j] in multiset(q);
      var a :| 0 <= a < |p| && p[a] == q[i];
      var b :| 0 <= b < |p| && p[b] == q[j];
      assert a != b;
    }
  }

  lemma {:induction false} TwoCopies(q: seq<Participant>, i: nat, j: nat)
    requires i < j < |q|
    ensures q[i] == q[j] ==> multiset(q)[q[i]] >= 2
  {
    assert q == q[..j] + [q[j]] + q[j + 1..];
    assert q[i] in q[..j];
  }

  /** Whatever order the n ranks arrived in, and whatever sorting algorithm runs, a sorted
      permutation of n distinct ranks below n holds rank i at position i. */
  lemma {:induction false} SortedRoundIsComplete(p: seq<Participant>, q: seq<Participant>, n: nat, k: nat)
    requires |p| == n && DistinctRanks(p)
    requires forall x :: x in p ==> x.rank < n && x.call == k
    requires multiset(q) == multiset(p) && SortedByRank(q)
    ensures CompleteRound(q, n, k)
  {
    SortKeepsDistinct(p, q);
    assert |q| == |multiset(q)| == |multiset(p)| == n;
    forall i | 0 <= i < n ensures q[i].rank < n && q[i].call == k {
      assert q[i] in multiset(q);
      assert q[i] in p;
    }
    forall i, j | 0 <= i < j < n ensures q[i].rank < q[j].rank {
      SortedPairwise(q, i, j);
    }
    AscendingIsRange(Ranks(q), 0);
    forall i | 0 <= i < n ensures q[i] == Participant(i, k) {
      assert Ranks(q)[i] == i;
    }
  }
}

/** The in-process rendezvous of xla/service/gpu/ccl_ops.cc: one thread per rank, a mutex, one
    condition variable shared by every communicator, and a map from communicator id to the
    participants that have arrived. */
module Rendezvous {
  import opened Participants
  import opened Wrappers

  type CommId = nat

  /** One entry per live communicator: its size and how many calls each of its ranks issues. */
  datatype Comm = Comm(nranks: nat, calls: nat)
  type Config = seq<Comm>

  ghost predicate ValidConfig(cfg: Config) {
    forall c :: 0 <= c < |cfg| ==> cfg[c].nranks >= 1
  }

  datatype Thread = Thread(comm: CommId, rank: nat)

  ghost predicate IsThread(cfg: Config, t: Thread) {
    t.comm < |cfg| && t.rank < cfg[t.comm].nranks
  }

  /** Running(k): outside the critical section, about to issue call k.
      Waiting(k): inside cv.wait of call k.
      Woken(k): notified, not yet returned from call k. */
  datatype Phase = Running(next: nat) | Waiting(call: nat) | Woken(call: nat)

  type Collectives = map<CommId, seq<Participant>>

  datatype State = State(
    collectives: Collectives,
    phase: map<Thread, Phase>,
    rounds: seq<seq<seq<Participant>>>)  // per communicator, the rounds fired so far

  function Pending(m: Collectives, c: CommId): seq<Participant> {
    if c in m then m[c] else []
  }

  /** The critical section: push, then either keep waiting or take the full list out, sorted. */
  function Enter(m: Collectives, c: CommId, n: nat, x: Participant): (r: (Collectives, Option<seq<Participant>>))
  {
    var p := Pending(m, c) + [x];
    if |p| != n then (m[c := p], None) else (m - {c}, Some(SortByRank(p)))
  }

  /** The last arriver, and only it, gets the whole list, each entry once, and leaves none of it
      behind; no other communicator's list is touched. */
  lemma {:induction false} EnterTakesAllOrNothing(m: Collectives, c: CommId, n: nat, x: Participant)
    ensures var (m', fired) := Enter(m, c, n, x);
            && (fired.Some? <==> |Pending(m, c)| + 1 == n)
            && (fired.Some? ==> SortedByRank(fired.value) && Pending(m', c) == []
                                && multiset(fired.value) == multiset(Pending(m, c)) + multiset{x})
            && (fired.None? ==> Pending(m', c) == Pending(m, c) + [x])
            && forall d :: d != c ==> Pending(m', d) == Pending(m, d)
  {
    var p := Pending(m, c) + [x];
    assert multiset(p) == multiset(Pending(m, c)) + multiset{x};
    if |p| == n {
      assert Enter(m, c, n, x) == (m - {c}, Some(SortByRank(p)));
    } else {
      assert Enter(m, c, n, x) == (m[c := p], None);
    }
  }

  class Manager {
    var collectives: Collectives

    constructor ()
      ensures collectives == map[]
    {
      collectives := map[];
    }

    /** The locked part of every sycl_* entry point, up to the wait or the kernel launch. */
    method Arrive(c: CommId, n: nat, x: Participant) returns (fired: Option<seq<Participant>>)
      modifies this
      ensures collectives == Enter(old(collectives), c, n, x).0
      ensures fired == Enter(old(collectives), c, n, x).1
    {
      var p: seq<Participant>;
      if c !in collectives {
        var participants := [x];
        collectives := collectives[c := participants];
        p := participants;
      } else {
        collectives := collectives[c := collectives[c] + [x]];
        p := collectives[c];
      }
      assert p == Pending(old(collectives), c) + [x];
      if |p| != n {
        fired := None;
      } else {
        collectives := collectives - {c};
        fired := Some(SortByRank(p));
        assert collectives == old(collectives) - {c};
      }
    }
  }

  datatype Step = Arrive(t: Thread) | Return(t: Thread)

  ghost predicate ValidState(cfg: Config, s: State) {
    && (forall t :: IsThread(cfg, t) <==> t in s.phase)
    && |s.rounds| == |cfg|
  }

  ghost predicate Enabled(cfg: Config, s: State, a: Step) {
    IsThread(cfg, a.t) && a.t in s.phase && |s.rounds| == |cfg| &&
    match a
    case Arrive(t) => s.phase[t].Running? && s.phase[t].next < cfg[t.comm].calls
    case Return(t) => s.phase[t].Woken?
  }

  /** notify_all: the caller goes on, every waiter of every communicator is woken. */
  function NotifyAll(phase: map<Thread, Phase>, t: Thread): map<Thread, Phase>
    requires t in phase && phase[t].Running?
  {
    map u | u in phase ::
      if u == t then Running(phase[t].next + 1)
      else if phase[u].Waiting? then Woken(phase[u].call)
      else phase[u]
  }

  function Next(cfg: Config, s: State, a: Step): State
    requires Enabled(cfg, s, a)
  {
    match a
    case Return(t) => s.(phase := s.phase[t := Running(s.phase[t].call + 1)])
    case Arrive(t) =>
      var k := s.phase[t].next;
      var (m, fired) := Enter(s.collectives, t.comm, cfg[t.comm].nranks, Participant(t.rank, k));
      if fired.None? then
        s.(collectives := m, phase := s.phase[t := Waiting(k)])
      else
        State(m, NotifyAll(s.phase, t), s.rounds[t.comm := s.rounds[t.comm] + [fired.value]])
  }

  ghost function AllThreads(cfg: Config): (ts: set<Thread>)
    ensures forall t :: t in ts <==> IsThread(cfg, t)
  {
    set c, r | 0 <= c < |cfg| && 0 <= r < cfg[c].nranks :: Thread(c, r)
  }

  ghost function Init(cfg: Config): (s: State)
    ensures ValidState(cfg, s)
  {
    State(map[],
          map t | t in AllThreads(cfg) :: Running(0),
          seq(|cfg|, _ => []))
  }

  /** A run: the states passed through and the step taken out of each but the last. */
  datatype Run = Run(states: seq<State>, steps: seq<Step>)

  ghost predicate IsRun(cfg: Config, run: Run) {
    && |run.states| == |run.steps| + 1
    && run.states[0] == Init(cfg)
    && forall i :: 0 <= i < |run.steps| ==>
         Enabled(cfg, run.states[i], run.steps[i]) &&
         run.states[i + 1] == Next(cfg, run.states[i], run.steps[i])
  }

  // ---------------------------------------------------------------------------------------------
  // What a run must guarantee

  /** Every round fired so far holds each rank of its communicator exactly once, all from the same
      call, in call order; and nobody has got past call k before round k has fired. */
  ghost predicate Sound(cfg: Config, s: State) {
    && ValidState(cfg, s)
    && (forall c, k :: 0 <= c < |cfg| && 0 <= k < |s.rounds[c]| ==>
          CompleteRound(s.rounds[c][k], cfg[c].nranks, k))
    && (forall t :: t in s.phase ==>
          match s.phase[t]
          case Running(k) => k <= |s.rounds[t.comm]|
          case Woken(k) => k < |s.rounds[t.comm]|
          case Waiting(_) => true)
  }

  /** The step makes a round fire while a thread of another communicator waits. */
  ghost predicate WakesForeigner(cfg: Config, s: State, a: Step) {
    a.Arrive? && a.t.comm < |cfg| && |Pending(s.collectives, a.t.comm)| + 1 == cfg[a.t.comm].nranks &&
    exists u :: u in s.phase && u.comm != a.t.comm && s.phase[u].Waiting?
  }

  /** The pending list of one communicator: fewer than nranks entries, distinct ranks, one call
      number, and exactly the threads that wait. */
  ghost predicate PendingOk(cfg: Config, s: State, c: CommId)
    requires ValidState(cfg, s) && c < |cfg|
  {
    var p := Pending(s.collectives, c);
    && |p| < cfg[c].nranks
    && DistinctRanks(p)
    && (forall x :: x in p ==>
          x.call == |s.rounds[c]| && x.rank < cfg[c].nranks && s.phase[Thread(c, x.rank)] == Waiting(x.call))
  }

  ghost predicate PhaseOk(cfg: Config, s: State, t: Thread)
    requires ValidState(cfg, s) && t in s.phase
  {
    var fired := |s.rounds[t.comm]|;
    match s.phase[t]
    case Running(k) => k == fired
    case Waiting(k) => k == fired < cfg[t.comm].calls && Participant(t.rank, k) in Pending(s.collectives, t.comm)
    case Woken(k) => k + 1 == fired
  }

  ghost predicate Inv(cfg: Config, s: State) {
    && ValidState(cfg, s)
    && (forall c: nat :: c < |cfg| ==> PendingOk(cfg, s, c))
    && (forall t :: t in s.phase ==> PhaseOk(cfg, s, t))
    && (forall c, k :: 0 <= c < |cfg| && 0 <= k < |s.rounds[c]| ==>
          CompleteRound(s.rounds[c][k], cfg[c].nranks, k))
    && (forall c: nat :: c < |cfg| ==> |s.rounds[c]| <= cfg[c].calls)
  }

  lemma {:induction false} InitInv(cfg: Config)
    requires ValidConfig(cfg)
    ensures Inv(cfg, Init(cfg))
  {
  }

  lemma {:induction false} ReturnKeepsInv(cfg: Config, s: State, t: Thread)
    requires Inv(cfg, s) && Enabled(cfg, s, Return(t))
    ensures Inv(cfg, Next(cfg, s, Return(t)))
  {
    var s' := Next(cfg, s, Return(t));
    forall c: nat | c < |cfg| ensures PendingOk(cfg, s', c) {
      assert PendingOk(cfg, s, c);
    }
    forall u | u in s'.phase ensures PhaseOk(cfg, s', u) {
      assert PhaseOk(cfg, s, u);
    }
  }

  lemma {:induction false} WaitKeepsInv(cfg: Config, s: State, t: Thread)
    requires Inv(cfg, s) && Enabled(cfg, s, Arrive(t))
    requires |Pending(s.collectives, t.comm)| + 1 != cfg[t.comm].nranks
    ensures Inv(cfg, Next(cfg, s, Arrive(t)))
  {
    var s' := Next(cfg, s, Arrive(t));
    assert PhaseOk(cfg, s, t) && PendingOk(cfg, s, t.comm);
    var p, p' := Pending(s.collectives, t.comm), Pending(s'.collectives, t.comm);
    assert p' == p + [Participant(t.rank, s.phase[t].next)];
    forall c: nat | c < |cfg| ensures PendingOk(cfg, s', c) {
      assert PendingOk(cfg, s, c);
    }
    forall u | u in s'.phase ensures PhaseOk(cfg, s', u) {
      assert PhaseOk(cfg, s, u);
    }
  }

  /** At the moment of firing, every rank of the communicator is in the list, so every other rank
      is waiting. */
  lemma {:induction false} FullListWaits(cfg: Config, s: State, t: Thread)
    requires Inv(cfg, s) && Enabled(cfg, s, Arrive(t))
    requires |Pending(s.collectives, t.comm)| + 1 == cfg[t.comm].nranks
    ensures var k := |s.rounds[t.comm]|;
            && CompleteRound(SortByRank(Pending(s.collectives, t.comm) + [Participant(t.rank, k)]),
                             cfg[t.comm].nranks, k)
            && forall u :: u in s.phase && u.comm == t.comm && u != t ==> s.phase[u] == Waiting(k)
  {
    var c, n, k := t.comm, cfg[t.comm].nranks, |s.rounds[t.comm]|;
    assert PhaseOk(cfg, s, t) && PendingOk(cfg, s, c);
    var before := Pending(s.collectives, c);
    var p := before + [Participant(t.rank, k)];
    forall x | x in before ensures x.rank != t.rank {
      assert s.phase[Thread(c, x.rank)].Waiting?;
    }
    var q := SortByRank(p);
    SortedRoundIsComplete(p, q, n, k);
    forall u | u in s.phase && u.comm == c && u != t ensures s.phase[u] == Waiting(k) {
      assert q[u.rank] == Participant(u.rank, k);
      InRound(p, q, u.rank);
    }
  }

  lemma {:induction false} InRound(p: seq<Participant>, q: seq<Participant>, i: nat)
    requires multiset(p) == multiset(q) && i < |q|
    ensures q[i] in p
  {
    assert q[i] in multiset(q);
  }

  lemma {:induction false} FireKeepsInv(cfg: Config, s: State, t: Thread)
    requires Inv(cfg, s) && Enabled(cfg, s, Arrive(t))
    requires |Pending(s.collectives, t.comm)| + 1 == cfg[t.comm].nranks
    requires !WakesForeigner(cfg, s, Arrive(t))
    ensures Inv(cfg, Next(cfg, s, Arrive(t)))
  {
    var s', round := Next(cfg, s, Arrive(t)), FiredRound(s, t);
    assert PhaseOk(cfg, s, t);
    FullListWaits(cfg, s, t);
    assert s' == AfterFire(s, t, round);
    forall c: nat | c < |cfg| ensures PendingOk(cfg, s', c) {
      FirePending(cfg, s, t, round, c);
    }
    forall u | u in s'.phase ensures PhaseOk(cfg, s', u) {
      FirePhase(cfg, s, t, round, u);
    }
  }

  function FiredRound(s: State, t: Thread): seq<Participant>
    requires t.comm < |s.rounds|
  {
    SortByRank(Pending(s.collectives, t.comm) + [Participant(t.rank, |s.rounds[t.comm]|)])
  }

  function AfterFire(s: State, t: Thread, round: seq<Participant>): State
    requires t in s.phase && s.phase[t].Running? && t.comm < |s.rounds|
  {
    State(s.collectives - {t.comm}, NotifyAll(s.phase, t), s.rounds[t.comm := s.rounds[t.comm] + [round]])
  }

  lemma {:induction false} FirePending(cfg: Config, s: State, t: Thread, round: seq<Participant>, c: CommId)
    requires Inv(cfg, s) && Enabled(cfg, s, Arrive(t)) && c < |cfg|
    requires |Pending(s.collectives, t.comm)| + 1 == cfg[t.comm].nranks && !WakesForeigner(cfg, s, Arrive(t))
    ensures PendingOk(cfg, AfterFire(s, t, round), c)
  {
    assert PendingOk(cfg, s, c);
    if c != t.comm {
      forall x | x in Pending(s.collectives, c) ensures false {
      }
    }
  }

  lemma {:induction false} FirePhase(cfg: Config, s: State, t: Thread, round: seq<Participant>, u: Thread)
    requires Inv(cfg, s) && Enabled(cfg, s, Arrive(t)) && u in s.phase
    requires |Pending(s.collectives, t.comm)| + 1 == cfg[t.comm].nranks && !WakesForeigner(cfg, s, Arrive(t))
    requires forall u' :: u' in s.phase && u'.comm == t.comm && u' != t ==> s.phase[u'] == Waiting(|s.rounds[t.comm]|)
    ensures PhaseOk(cfg, AfterFire(s, t, round), u)
  {
    assert PhaseOk(cfg, s, u) && PhaseOk(cfg, s, t);
  }

  lemma {:induction false} StepKeepsInv(cfg: Config, s: State, a: Step)
    requires Inv(cfg, s) && Enabled(cfg, s, a) && !WakesForeigner(cfg, s, a)
    ensures Inv(cfg, Next(cfg, s, a))
  {
    match a
    case Return(t) => ReturnKeepsInv(cfg, s, t);
    case Arrive(t) =>
      if |Pending(s.collectives, t.comm)| + 1 != cfg[t.comm].nranks {
        WaitKeepsInv(cfg, s, t);
      } else {
        FireKeepsInv(cfg, s, t);
      }
  }

  lemma {:induction false} InvIsSound(cfg: Config, s: State)
    requires Inv(cfg, s)
    ensures Sound(cfg, s)
  {
    forall t | t in s.phase ensures PhaseOk(cfg, s, t) {
    }
  }

  lemma {:induction false} RunKeepsInv(cfg: Config, run: Run, i: nat)
    requires ValidConfig(cfg) && IsRun(cfg, run) && i < |run.states|
    requires forall j :: 0 <= j < i ==> !WakesForeigner(cfg, run.states[j], run.steps[j])
    ensures Inv(cfg, run.states[i])
  {
    if i == 0 {
      InitInv(cfg);
    } else {
      RunKeepsInv(cfg, run, i - 1);
      StepKeepsInv(cfg, run.states[i - 1], run.steps[i - 1]);
    }
  }

  /** A foreign wake-up lets a thread go on before its own round has fired. */
  lemma {:induction false} ForeignWakeBreaks(cfg: Config, s: State, a: Step)
    requires Inv(cfg, s) && Enabled(cfg, s, a) && WakesForeigner(cfg, s, a)
    ensures !Sound(cfg, Next(cfg, s, a))
  {
    var u :| u in s.phase && u.comm != a.t.comm && s.phase[u].Waiting?;
    assert PhaseOk(cfg, s, u);
    assert Next(cfg, s, a).phase[u] == Woken(s.phase[u].call);
    assert Next(cfg, s, a).rounds[u.comm] == s.rounds[u.comm];
  }

  /** Round integrity, exactly: a run is sound in every state if and only if no round ever fires
      while a thread of another communicator is waiting on the shared condition variable. */
  lemma {:induction false} RoundIntegrity(cfg: Config, run: Run)
    requires ValidConfig(cfg) && IsRun(cfg, run)
    ensures (forall i :: 0 <= i < |run.states| ==> Sound(cfg, run.states[i]))
       <==> (forall i :: 0 <= i < |run.steps| ==> !WakesForeigner(cfg, run.states[i], run.steps[i]))
  {
    if j: nat :| j < |run.steps| && WakesForeigner(cfg, run.states[j], run.steps[j]) {
      var i := FirstForeign(cfg, run, j);
      RunKeepsInv(cfg, run, i);
      ForeignWakeBreaks(cfg, run.states[i], run.steps[i]);
      assert !Sound(cfg, run.states[i + 1]);
    } else {
      forall i | 0 <= i < |run.states| ensures Sound(cfg, run.states[i]) {
        RunKeepsInv(cfg, run, i);
        InvIsSound(cfg, run.states[i]);
      }
    }
  }

  lemma {:induction false} FirstForeign(cfg: Config, run: Run, j: nat) returns (i: nat)
    requires IsRun(cfg, run) && j < |run.steps| && WakesForeigner(cfg, run.states[j], run.steps[j])
    ensures i < |run.steps| && WakesForeigner(cfg, run.states[i], run.steps[i])
    ensures forall h :: 0 <= h < i ==> !WakesForeigner(cfg, run.states[h], run.steps[h])
  {
    if h: nat :| h < j && WakesForeigner(cfg, run.states[h], run.steps[h]) {
      i := FirstForeign(cfg, run, h);
    } else {
      i := j;
    }
  }

  // ---------------------------------------------------------------------------------------------
  // Which sets of communicators may share the condition variable

  /** At most one communicator is in use, unless all those in use have a single rank. */
  ghost predicate Exclusive(cfg: Config) {
    forall c, d :: 0 <= c < |cfg| && 0 <= d < |cfg| && c != d && cfg[c].calls > 0 && cfg[d].calls > 0 ==>
      cfg[c].nranks == 1
  }

  lemma {:induction false} WaitersHavePeers(cfg: Config, s: State, u: Thread)
    requires Inv(cfg, s) && u in s.phase && s.phase[u].Waiting?
    ensures cfg[u.comm].nranks >= 2 && cfg[u.comm].calls > 0
  {
    assert PhaseOk(cfg, s, u) && PendingOk(cfg, s, u.comm);
  }

  lemma {:induction false} ExclusiveNeverWakesForeigner(cfg: Config, s: State, a: Step)
    requires Exclusive(cfg) && Inv(cfg, s) && Enabled(cfg, s, a)
    ensures !WakesForeigner(cfg, s, a)
  {
    if WakesForeigner(cfg, s, a) {
      var u :| u in s.phase && u.comm != a.t.comm && s.phase[u].Waiting?;
      WaitersHavePeers(cfg, s, u);
      assert false;
    }
  }

  ghost predicate AllSound(cfg: Config, run: Run) {
    forall i :: 0 <= i < |run.states| ==> Sound(cfg, run.states[i])
  }

  lemma {:induction false} ExclusiveRunKeepsInv(cfg: Config, run: Run, i: nat)
    requires ValidConfig(cfg) && Exclusive(cfg) && IsRun(cfg, run) && i < |run.states|
    ensures Inv(cfg, run.states[i])
  {
    if i == 0 {
      InitInv(cfg);
    } else {
      ExclusiveRunKeepsInv(cfg, run, i - 1);
      ExclusiveNeverWakesForeigner(cfg, run.states[i - 1], run.steps[i - 1]);
      StepKeepsInv(cfg, run.states[i - 1], run.steps[i - 1]);
    }
  }

  function Extend(cfg: Config, run: Run, a: Step): Run
    requires run.states != [] && Enabled(cfg, run.states[|run.states| - 1], a)
  {
    Run(run.states + [Next(cfg, run.states[|run.states| - 1], a)], run.steps + [a])
  }

  lemma {:induction false} ExtendIsRun(cfg: Config, run: Run, a: Step)
    requires IsRun(cfg, run) && Enabled(cfg, run.states[|run.steps|], a)
    ensures IsRun(cfg, Extend(cfg, run, a))
  {
    var more, n := Extend(cfg, run, a), |run.steps|;
    forall i | 0 <= i < |more.steps|
      ensures Enabled(cfg, more.states[i], more.steps[i]) &&
                more.states[i + 1] == Next(cfg, more.states[i], more.steps[i])
    {
      if i < n {
        assert more.steps[i] == run.steps[i] && more.states[i] == run.states[i] &&
            more.states[i + 1] == run.states[i + 1];
      } else {
        assert more.steps[i] == a && more.states[i] == run.states[n];
      }
    }
  }

  /** Rank 0 of c waits, and the first j ranks of d have arrived. */
  lemma {:induction false} PartialArrival(cfg: Config, c: CommId, d: CommId, j: nat) returns (run: Run)
    requires ValidConfig(cfg) && c < |cfg| && d < |cfg| && c != d
    requires cfg[c].nranks >= 2 && cfg[c].calls > 0 && cfg[d].calls > 0 && j < cfg[d].nranks
    ensures IsRun(cfg, run) && |run.steps| == j + 1
    ensures var s := run.states[j + 1];
            && ValidState(cfg, s)
            && s.phase[Thread(c, 0)].Waiting?
            && (forall r :: j <= r < cfg[d].nranks ==> s.phase[Thread(d, r)] == Running(0))
            && |Pending(s.collectives, d)| == j
  {
    if j == 0 {
      var a := Arrive(Thread(c, 0));
      assert IsThread(cfg, a.t);
      var start := Run([Init(cfg)], []);
      run := WitnessStep(cfg, start, a);
      assert forall r :: 0 <= r < cfg[d].nranks ==> IsThread(cfg, Thread(d, r));
    } else {
      var prev := PartialArrival(cfg, c, d, j - 1);
      var s, a := prev.states[j], Arrive(Thread(d, j - 1));
      assert IsThread(cfg, a.t);
      run := WitnessStep(cfg, prev, a);
      PartialStep(cfg, s, c, d, j);
    }
  }

  lemma {:induction false} PartialStep(cfg: Config, s: State, c: CommId, d: CommId, j: nat)
    requires ValidState(cfg, s) && c < |cfg| && d < |cfg| && c != d && 0 < j < cfg[d].nranks
    requires Enabled(cfg, s, Arrive(Thread(d, j - 1)))
    requires |Pending(s.collectives, d)| == j - 1
    ensures var s' := Next(cfg, s, Arrive(Thread(d, j - 1)));
            && ValidState(cfg, s')
            && |Pending(s'.collectives, d)| == j
            && forall t :: t in s.phase && t != Thread(d, j - 1) ==> s'.phase[t] == s.phase[t]
  {
  }

  /** A group of communicators is safe under every schedule exactly when it is Exclusive. */
  lemma {:induction false} SafeExactlyWhenExclusive(cfg: Config)
    requires ValidConfig(cfg)
    ensures (forall run :: IsRun(cfg, run) ==> AllSound(cfg, run)) <==> Exclusive(cfg)
  {
    if Exclusive(cfg) {
      forall run | IsRun(cfg, run) ensures AllSound(cfg, run) {
        forall i | 0 <= i < |run.states| ensures Sound(cfg, run.states[i]) {
          ExclusiveRunKeepsInv(cfg, run, i);
          InvIsSound(cfg, run.states[i]);
        }
      }
    } else {
      var run := UnsoundRun(cfg);
    }
  }

  lemma {:induction false} UnsoundRun(cfg: Config) returns (run: Run)
    requires ValidConfig(cfg) && !Exclusive(cfg)
    ensures IsRun(cfg, run) && !AllSound(cfg, run)
  {
    var c, d :| 0 <= c < |cfg| && 0 <= d < |cfg| && c != d && cfg[c].calls > 0 && cfg[d].calls > 0
                && cfg[c].nranks != 1;
    var n := cfg[d].nranks;
    var prev := PartialArrival(cfg, c, d, n - 1);
    var last := prev.states[n];
    var a := Arrive(Thread(d, n - 1));
    assert last.phase[Thread(c, 0)].Waiting?;
    assert WakesForeigner(cfg, last, a);
    run := Extend(cfg, prev, a);
    ExtendIsRun(cfg, prev, a);
    assert run.states[n] == last && run.steps[n] == a;
    RoundIntegrity(cfg, run);
  }

  /** No deadlock, no lost round: when an Exclusive group can take no further step, every rank has
      returned from every call and every round has fired. */
  lemma {:induction false} StuckMeansDone(cfg: Config, run: Run)
    requires ValidConfig(cfg) && Exclusive(cfg) && IsRun(cfg, run)
    requires forall a :: !Enabled(cfg, run.states[|run.steps|], a)
    ensures var s := run.states[|run.steps|];
            && ValidState(cfg, s)
            && (forall t :: t in s.phase ==> s.phase[t] == Running(cfg[t.comm].calls))
            && (forall c :: 0 <= c < |cfg| ==> |s.rounds[c]| == cfg[c].calls && Pending(s.collectives, c) == [])
  {
    ExclusiveRunKeepsInv(cfg, run, |run.steps|);
    var s := run.states[|run.steps|];
    forall c | 0 <= c < |cfg|
      ensures |s.rounds[c]| == cfg[c].calls && Pending(s.collectives, c) == []
      ensures forall r :: 0 <= r < cfg[c].nranks ==> s.phase[Thread(c, r)] == Running(cfg[c].calls)
    {
      StuckComm(cfg, s, c);
    }
  }

  // Runs are finite, so a group that keeps taking steps gets there

  /** How far a thread has come: two steps per call. */
  function Progress(p: Phase): nat {
    match p
    case Running(k) => 2 * k
    case Waiting(k) => 2 * k + 1
    case Woken(k) => 2 * k + 1
  }

  function ProgressOf(phase: map<Thread, Phase>, t: Thread): nat {
    if t in phase then Progress(phase[t]) else 0
  }

  /** The progress of the first n ranks of communicator c, and of the first n communicators. */
  function RankProgress(phase: map<Thread, Phase>, c: CommId, n: nat): nat {
    if n == 0 then 0 else RankProgress(phase, c, n - 1) + ProgressOf(phase, Thread(c, n - 1))
  }

  function TotalProgress(cfg: Config, phase: map<Thread, Phase>, n: nat): nat
    requires n <= |cfg|
  {
    if n == 0 then 0 else TotalProgress(cfg, phase, n - 1) + RankProgress(phase, n - 1, cfg[n - 1].nranks)
  }

  /** Twice the number of calls of all ranks of the first n communicators. */
  function MaxSteps(cfg: Config, n: nat): nat
    requires n <= |cfg|
  {
    if n == 0 then 0 else MaxSteps(cfg, n - 1) + 2 * cfg[n - 1].calls * cfg[n - 1].nranks
  }

  ghost predicate Advances(phase: map<Thread, Phase>, phase': map<Thread, Phase>, t: Thread) {
    && (forall u :: ProgressOf(phase, u) <= ProgressOf(phase', u)) && ProgressOf(phase, t) < ProgressOf(phase', t)
  }

  lemma {:induction false} RankProgressGrows(
      phase: map<Thread, Phase>, phase': map<Thread, Phase>, t: Thread, c: CommId, n: nat)
    requires Advances(phase, phase', t)
    ensures RankProgress(phase, c, n) <= RankProgress(phase', c, n)
    ensures c == t.comm && t.rank < n ==> RankProgress(phase, c, n) < RankProgress(phase', c, n)
  {
    if n > 0 {
      RankProgressGrows(phase, phase', t, c, n - 1);
    }
  }

  lemma {:induction false} TotalProgressGrows(
      cfg: Config, phase: map<Thread, Phase>, phase': map<Thread, Phase>, t: Thread, n: nat)
    requires Advances(phase, phase', t) && n <= |cfg| && IsThread(cfg, t)
    ensures TotalProgress(cfg, phase, n) <= TotalProgress(cfg, phase', n)
    ensures t.comm < n ==> TotalProgress(cfg, phase, n) < TotalProgress(cfg, phase', n)
  {
    if n > 0 {
      TotalProgressGrows(cfg, phase, phase', t, n - 1);
      RankProgressGrows(phase, phase', t, n - 1, cfg[n - 1].nranks);
    }
  }

  ghost predicate WithinCalls(cfg: Config, phase: map<Thread, Phase>) {
    forall t :: t in phase && t.comm < |cfg| ==> Progress(phase[t]) <= 2 * cfg[t.comm].calls
  }

  lemma {:induction false} RankProgressBound(cfg: Config, phase: map<Thread, Phase>, c: CommId, n: nat)
    requires WithinCalls(cfg, phase) && c < |cfg|
    ensures RankProgress(phase, c, n) <= 2 * cfg[c].calls * n
  {
    if n > 0 {
      RankProgressBound(cfg, phase, c, n - 1);
      assert 2 * cfg[c].calls * n == 2 * cfg[c].calls * (n - 1) + 2 * cfg[c].calls;
    }
  }

  lemma {:induction false} TotalProgressBound(cfg: Config, phase: map<Thread, Phase>, n: nat)
    requires WithinCalls(cfg, phase) && n <= |cfg|
    ensures TotalProgress(cfg, phase, n) <= MaxSteps(cfg, n)
  {
    if n > 0 {
      TotalProgressBound(cfg, phase, n - 1);
      RankProgressBound(cfg, phase, n - 1, cfg[n - 1].nranks);
    }
  }

  lemma {:induction false} UpdateAdvances(cfg: Config, phase: map<Thread, Phase>, t: Thread, p: Phase)
    requires t in phase && Progress(phase[t]) < Progress(p) && WithinCalls(cfg, phase)
    requires t.comm < |cfg| && Progress(p) <= 2 * cfg[t.comm].calls
    ensures Advances(phase, phase[t := p], t) && WithinCalls(cfg, phase[t := p])
  {
  }

  lemma {:induction false} NotifyAdvances(cfg: Config, phase: map<Thread, Phase>, t: Thread)
    requires t in phase && phase[t].Running? && t.comm < |cfg| && phase[t].next < cfg[t.comm].calls
    requires WithinCalls(cfg, phase)
    ensures Advances(phase, NotifyAll(phase, t), t) && WithinCalls(cfg, NotifyAll(phase, t))
  {
  }

  lemma {:induction false} StepProgresses(cfg: Config, s: State, a: Step)
    requires Enabled(cfg, s, a) && WithinCalls(cfg, s.phase)
    ensures Advances(s.phase, Next(cfg, s, a).phase, a.t) && WithinCalls(cfg, Next(cfg, s, a).phase)
  {
    match a
    case Return(t) => UpdateAdvances(cfg, s.phase, t, Running(s.phase[t].call + 1));
    case Arrive(t) =>
      UpdateAdvances(cfg, s.phase, t, Waiting(s.phase[t].next));
      NotifyAdvances(cfg, s.phase, t);
  }

  lemma {:induction false} ProgressCountsSteps(cfg: Config, run: Run, i: nat)
    requires IsRun(cfg, run) && i < |run.states|
    ensures WithinCalls(cfg, run.states[i].phase) && i <= TotalProgress(cfg, run.states[i].phase, |cfg|)
  {
    if i > 0 {
      ProgressCountsSteps(cfg, run, i - 1);
      var s, a := run.states[i - 1], run.steps[i - 1];
      StepProgresses(cfg, s, a);
      TotalProgressGrows(cfg, s.phase, run.states[i].phase, a.t, |cfg|);
    }
  }

  /** No run, of any communicators, is longer than twice the number of calls of all ranks: every group
      reaches a state in which it can take no further step. */
  lemma {:induction false} RunsAreFinite(cfg: Config, run: Run)
    requires IsRun(cfg, run)
    ensures |run.steps| <= MaxSteps(cfg, |cfg|)
  {
    ProgressCountsSteps(cfg, run, |run.steps|);
    TotalProgressBound(cfg, run.states[|run.steps|].phase, |cfg|);
  }

  lemma {:induction false} StuckComm(cfg: Config, s: State, c: CommId)
    requires Inv(cfg, s) && c < |cfg|
    requires forall a :: !Enabled(cfg, s, a)
    ensures |s.rounds[c]| == cfg[c].calls && Pending(s.collectives, c) == []
    ensures forall r :: 0 <= r < cfg[c].nranks ==> s.phase[Thread(c, r)] == Running(cfg[c].calls)
  {
    assert PendingOk(cfg, s, c);
    var p := Pending(s.collectives, c);
    if |p| > 0 {
      assert p[0] in p;
      assert s.phase[Thread(c, p[0].rank)].Waiting?;
    }
    forall r | 0 <= r < cfg[c].nranks
      ensures s.phase[Thread(c, r)] == Running(cfg[c].calls) ||
              (|s.rounds[c]| < cfg[c].calls && Participant(r, |s.rounds[c]|) in Pending(s.collectives, c))
    {
      var t := Thread(c, r);
      assert PhaseOk(cfg, s, t);
      assert !Enabled(cfg, s, Arrive(t)) && !Enabled(cfg, s, Return(t));
    }
    if |s.rounds[c]| < cfg[c].calls {
      forall r | 0 <= r < cfg[c].nranks ensures Participant(r, |s.rounds[c]|) in Pending(s.collectives, c) {
        assert PhaseOk(cfg, s, Thread(c, r));
      }
      AllPresentMeansFull(Pending(s.collectives, c), cfg[c].nranks, |s.rounds[c]|);
      assert false;
    }
  }

  lemma {:induction false} AllPresentMeansFull(p: seq<Participant>, n: nat, k: nat)
    requires forall r :: 0 <= r < n ==> Participant(r, k) in p
    ensures |p| >= n
  {
    if n == 0 {
    } else {
      var i :| 0 <= i < |p| && p[i] == Participant(n - 1, k);
      var q := p[..i] + p[i + 1..];
      forall r | 0 <= r < n - 1 ensures Participant(r, k) in q {
        var j :| 0 <= j < |p| && p[j] == Participant(r, k);
        assert q[if j < i then j else j - 1] == p[j];
      }
      AllPresentMeansFull(q, n - 1, k);
    }
  }

  /** The failure is not only an early return: with a two-rank communicator issuing two calls next
      to a single-rank one, a round fires that holds rank 0 twice, from two different calls. */
  lemma {:induction false} MixedRoundWitness(cfg: Config) returns (run: Run)
    requires cfg == [Comm(2, 2), Comm(1, 1)]
    ensures IsRun(cfg, run)
    ensures var s := run.states[|run.steps|];
            ValidState(cfg, s) && |s.rounds[0]| == 1 &&
            multiset(s.rounds[0][0]) == multiset{Participant(0, 0), Participant(0, 1)}
  {
    var a, b := Thread(0, 0), Thread(1, 0);
    assert IsThread(cfg, a) && IsThread(cfg, b);
    run := Run([Init(cfg)], []);
    run := WitnessStep(cfg, run, Arrive(a));
    var s1 := run.states[1];
    WitnessFirstArrival(cfg, s1);
    run := WitnessStep(cfg, run, Arrive(b));
    var s2 := run.states[2];
    WitnessForeignWake(cfg, s1, s2);
    run := WitnessStep(cfg, run, Return(a));
    var s3 := run.states[3];
    run := WitnessStep(cfg, run, Arrive(a));
    WitnessMix(cfg, s3, run.states[4]);
  }

  lemma {:induction false} WitnessFirstArrival(cfg: Config, s1: State)
    requires cfg == [Comm(2, 2), Comm(1, 1)]
    requires Enabled(cfg, Init(cfg), Arrive(Thread(0, 0))) && s1 == Next(cfg, Init(cfg), Arrive(Thread(0, 0)))
    ensures ValidState(cfg, s1) && Enabled(cfg, s1, Arrive(Thread(1, 0)))
    ensures s1.phase[Thread(0, 0)] == Waiting(0) && s1.rounds[0] == []
    ensures Pending(s1.collectives, 0) == [Participant(0, 0)] && Pending(s1.collectives, 1) == []
  {
    assert IsThread(cfg, Thread(1, 0));
  }

  lemma {:induction false} WitnessMix(cfg: Config, s3: State, s4: State)
    requires cfg == [Comm(2, 2), Comm(1, 1)]
    requires ValidState(cfg, s3) && Enabled(cfg, s3, Arrive(Thread(0, 0))) && s4 == Next(cfg, s3, Arrive(Thread(0, 0)))
    requires s3.phase[Thread(0, 0)] == Running(1) && s3.rounds[0] == []
    requires Pending(s3.collectives, 0) == [Participant(0, 0)]
    ensures ValidState(cfg, s4) && |s4.rounds[0]| == 1
    ensures multiset(s4.rounds[0][0]) == multiset{Participant(0, 0), Participant(0, 1)}
  {
    assert multiset([Participant(0, 0)] + [Participant(0, 1)]) == multiset{Participant(0, 0), Participant(0, 1)};
  }

  lemma {:induction false} WitnessForeignWake(cfg: Config, s1: State, s2: State)
    requires cfg == [Comm(2, 2), Comm(1, 1)]
    requires ValidState(cfg, s1) && Enabled(cfg, s1, Arrive(Thread(1, 0))) && s2 == Next(cfg, s1, Arrive(Thread(1, 0)))
    requires Thread(0, 0) in s1.phase && s1.phase[Thread(0, 0)] == Waiting(0)
    requires Pending(s1.collectives, 1) == []
    ensures ValidState(cfg, s2) && s2.phase[Thread(0, 0)] == Woken(0)
    ensures s2.rounds[0] == s1.rounds[0] && Pending(s2.collectives, 0) == Pending(s1.collectives, 0)
  {
  }

  lemma {:induction false} WitnessStep(cfg: Config, run: Run, a: Step) returns (next: Run)
    requires IsRun(cfg, run) && Enabled(cfg, run.states[|run.steps|], a)
    ensures IsRun(cfg, next) && |next.steps| == |run.steps| + 1
    ensures next.states[|next.steps|] == Next(cfg, run.states[|run.steps|], a)
  {
    next := Extend(cfg, run, a);
    ExtendIsRun(cfg, run, a);
  }
}
