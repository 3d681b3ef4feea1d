/** Collective permute, from the source-target pairs of the operation to the contents of the
    receive buffers, and the test that skips it altogether. */
module CollectivePermute {
  import opened Ordering
  import opened Participants
  import opened Wrappers
  import Kernels

  datatype Pair = Pair(source: nat, target: nat)

  /** Whom a rank receives from and whom it sends to, if anybody. */
  datatype Entry = Entry(source: Option<nat>, target: Option<nat>)

  type IdMap = map<nat, Entry>

  function GetSourceTarget(m: IdMap, id: nat): Entry {
    if id in m then m[id] else Entry(None, None)
  }

  /** The source of the last pair that targets the rank. */
  function SourceOf(pairs: seq<Pair>, id: nat): (s: Option<nat>)
    ensures s.Some? ==> Pair(s.value, id) in pairs
    ensures s.None? ==> forall p :: p in pairs ==> p.target != id
  {
    if pairs == [] then None
    else
      var last := pairs[|pairs| - 1];
      assert pairs == pairs[..|pairs| - 1] + [last];
      if last.target == id then Some(last.source) else SourceOf(pairs[..|pairs| - 1], id)
  }

  /** The target of the last pair that the rank is the source of. */
  function TargetOf(pairs: seq<Pair>, id: nat): (t: Option<nat>)
    ensures t.Some? ==> Pair(id, t.value) in pairs
    ensures t.None? ==> forall p :: p in pairs ==> p.source != id
  {
    if pairs == [] then None
    else
      var last := pairs[|pairs| - 1];
      assert pairs == pairs[..|pairs| - 1] + [last];
      if last.source == id then Some(last.target) else TargetOf(pairs[..|pairs| - 1], id)
  }

  function Touch(m: IdMap, id: nat): IdMap {
    if id in m then m else m[id := Entry(None, None)]
  }

  /** GetCclCollectivePermuteConfig: both directions of every pair, later pairs overriding. */
  method BuildIdMap(pairs: seq<Pair>) returns (m: IdMap)
    ensures forall id :: GetSourceTarget(m, id) == Entry(SourceOf(pairs, id), TargetOf(pairs, id))
  {
    m := map[];
    for i := 0 to |pairs|
      invariant forall id :: GetSourceTarget(m, id) == Entry(SourceOf(pairs[..i], id), TargetOf(pairs[..i], id))
    {
      var p := pairs[i];
      assert pairs[..i + 1][..i] == pairs[..i] && pairs[..i + 1][i] == p;
      m := Touch(m, p.target);
      m := m[p.target := m[p.target].(source := Some(p.source))];
      m := Touch(m, p.source);
      m := m[p.source := m[p.source].(target := Some(p.target))];
    }
    assert pairs[..|pairs|] == pairs;
  }

  // ---------------------------------------------------------------------------------------------
  // What the operation leaves in the receive buffers

  function Zeros<T>(zero: T, size: nat): seq<T> {
    seq(size, _ => zero)
  }

  function Received<T>(pairs: seq<Pair>, sends: seq<seq<T>>, zero: T, size: nat, r: nat): seq<T> {
    match SourceOf(pairs, r)
    case Some(s) => if s < |sends| then sends[s] else []
    case None => Zeros(zero, size)
  }

  ghost predicate ValidPairs(pairs: seq<Pair>, n: nat) {
    && (forall p :: p in pairs ==> p.source < n && p.target < n)
    && (forall i, j :: 0 <= i < j < |pairs| ==>
        pairs[i].source != pairs[j].source && pairs[i].target != pairs[j].target)
  }

  /** Each target receives its own source's data and everybody else receives zeros. */
  lemma {:induction false} DeliveredToTheTarget<T>(pairs: seq<Pair>, sends: seq<seq<T>>, zero: T, size: nat)
    requires ValidPairs(pairs, |sends|)
    ensures forall p :: p in pairs ==> Received(pairs, sends, zero, size, p.target) == sends[p.source]
    ensures forall r :: (forall p :: p in pairs ==> p.target != r) ==>
              Received(pairs, sends, zero, size, r) == Zeros(zero, size)
  {
    forall p | p in pairs ensures SourceOf(pairs, p.target) == Some(p.source) {
      var i :| 0 <= i < |pairs| && pairs[i] == p;
      var s := SourceOf(pairs, p.target);
      var j :| 0 <= j < |pairs| && pairs[j] == Pair(s.value, p.target);
      assert i == j;
    }
  }

  /** permute_dpcpp: participants[i] receives from the participant at position send_id. */
  method PermuteKernel<T>(round: seq<Participant>, ids: IdMap, send: seq<array<T>>, recv: seq<array<T>>, size: nat)
    returns (ok: bool)
    requires |round| == |send| == |recv| && CompleteRound(round, |send|, 0)
    requires forall i, j :: 0 <= i < j < |recv| ==> recv[i] != recv[j]
    requires forall i :: 0 <= i < |send| ==> send[i] !in recv
    requires forall i :: 0 <= i < |send| ==> send[i].Length == size && recv[i].Length == size
    requires forall r :: 0 <= r < |send| ==>
               GetSourceTarget(ids, r).source.Some? ==> GetSourceTarget(ids, r).source.value < |send|
    modifies recv
    ensures ok == (|send| <= Kernels.MAX_RANK_SIZE)
    ensures ok ==> forall r :: 0 <= r < |recv| ==>
              recv[r][..] == match GetSourceTarget(ids, r).source
                             case Some(s) => send[s][..]
                             case None => old(recv[r][..])
  {
    if |send| > Kernels.MAX_RANK_SIZE {
      return false;
    }
    assert forall i, j :: 0 <= i < |send| && 0 <= j < |recv| ==> send[i] != recv[j];
    for i := 0 to |round|
      invariant forall r :: i <= r < |recv| ==> recv[r][..] == old(recv[r][..])
      invariant forall r :: 0 <= r < |send| ==> send[r][..] == old(send[r][..])
      invariant forall r :: 0 <= r < i ==>
                  recv[r][..] == match GetSourceTarget(ids, r).source
                                 case Some(s) => old(send[s][..])
                                 case None => old(recv[r][..])
    {
      var rank := round[i].rank;
      var from := GetSourceTarget(ids, rank).source;
      if from.Some? {
        Kernels.CopyBuffer(recv[rank], send[round[from.value].rank]);
      }
    }
    return true;
  }

  /** The whole operation: build the id map, sort the participants however they arrived, copy, and
      let every rank without a source clear its own buffer. */
  method CollectivePermute<T>(pairs: seq<Pair>, arrived: seq<Participant>, send: seq<array<T>>, recv: seq<array<T>>,
                              zero: T, size: nat, ghost sends: seq<seq<T>>) returns (ok: bool)
    requires |arrived| == |send| == |recv| == |sends|
    requires DistinctRanks(arrived) && forall x :: x in arrived ==> x.rank < |send| && x.call == 0
    requires forall p :: p in pairs ==> p.source < |send|
    requires forall i, j :: 0 <= i < j < |recv| ==> recv[i] != recv[j]
    requires forall i :: 0 <= i < |send| ==> send[i] !in recv
    requires forall i :: 0 <= i < |send| ==> send[i].Length == size && recv[i].Length == size
    requires forall i :: 0 <= i < |send| ==> send[i][..] == sends[i]
    modifies recv
    ensures ok == (|send| <= Kernels.MAX_RANK_SIZE)
    ensures ok ==> forall r :: 0 <= r < |recv| ==> recv[r][..] == Received(pairs, sends, zero, size, r)
  {
    var ids := BuildIdMap(pairs);
    var round := SortByRank(arrived);
    SortedRoundIsComplete(arrived, round, |send|, 0);
    ok := PermuteKernel(round, ids, send, recv, size);
    if !ok {
      return;
    }
    ClearOthers(pairs, ids, recv, zero, size, sends);
  }

  /** Every rank without a source clears its receive buffer. */
  method ClearOthers<T>(ghost pairs: seq<Pair>, ids: IdMap, recv: seq<array<T>>, zero: T, size: nat,
                        ghost sends: seq<seq<T>>)
    requires forall i, j :: 0 <= i < j < |recv| ==> recv[i] != recv[j]
    requires forall i :: 0 <= i < |recv| ==> recv[i].Length == size
    requires forall id :: GetSourceTarget(ids, id).source == SourceOf(pairs, id)
    requires forall k :: 0 <= k < |recv| && SourceOf(pairs, k).Some? ==>
               recv[k][..] == Received(pairs, sends, zero, size, k)
    modifies recv
    ensures forall r :: 0 <= r < |recv| ==> recv[r][..] == Received(pairs, sends, zero, size, r)
  {
    for r := 0 to |recv|
      invariant forall k :: 0 <= k < |recv| && (SourceOf(pairs, k).Some? || k < r) ==>
                  recv[k][..] == Received(pairs, sends, zero, size, k)
    {
      if GetSourceTarget(ids, r).source.None? {
        ClearBuffer(recv[r], zero);
      }
    }
  }

  method ClearBuffer<T>(b: array<T>, zero: T)
    modifies b
    ensures b[..] == Zeros(zero, b.Length)
  {
    forall i | 0 <= i < b.Length {
      b[i] := zero;
    }
  }

  // ---------------------------------------------------------------------------------------------
  // The degenerate case

  predicate IsDegenerate(pairs: seq<Pair>, expectedSize: nat) {
    |pairs| == expectedSize && forall i :: 0 <= i < |pairs| ==> pairs[i].source == pairs[i].target
  }

  function Sources(pairs: seq<Pair>): seq<nat> {
    seq(|pairs|, i requires 0 <= i < |pairs| => pairs[i].source)
  }

  /** Every rank gets its own data back. */
  ghost predicate IsIdentity(pairs: seq<Pair>, sends: seq<seq<int>>, size: nat) {
    forall r :: 0 <= r < |sends| ==> Received(pairs, sends, 0, size, r) == sends[r]
  }

  /** The test is exact: the permute may be skipped precisely when it would leave every rank's data
      where it is, whatever the data. */
  lemma {:induction false} DegenerateExactly(pairs: seq<Pair>, n: nat)
    requires ValidPairs(pairs, n)
    ensures IsDegenerate(pairs, n) <==> forall sends, size: nat :: |sends| == n ==> IsIdentity(pairs, sends, size)
  {
    if IsDegenerate(pairs, n) {
      forall i | 0 <= i < |pairs| ensures Sources(pairs)[i] < n {
        assert pairs[i] in pairs;
      }
      DistinctCovers(Sources(pairs), n);
      forall sends: seq<seq<int>>, size: nat | |sends| == n ensures IsIdentity(pairs, sends, size) {
        forall r | 0 <= r < n ensures Received(pairs, sends, 0, size, r) == sends[r] {
          assert r in Sources(pairs);
          var i :| 0 <= i < n && Sources(pairs)[i] == r;
          assert pairs[i] == Pair(r, r);
          DeliveredToTheTarget(pairs, sends, 0, size);
        }
      }
    } else if forall sends, size: nat :: |sends| == n ==> IsIdentity(pairs, sends, size) {
      IdentityMeansDegenerate(pairs, n);
      assert false;
    }
  }

  lemma {:induction false} IdentityMeansDegenerate(pairs: seq<Pair>, n: nat)
    requires ValidPairs(pairs, n)
    requires forall sends, size: nat :: |sends| == n ==> IsIdentity(pairs, sends, size)
    ensures IsDegenerate(pairs, n)
  {
    var sends: seq<seq<int>> := seq(n, i => [i + 1]);
    assert IsIdentity(pairs, sends, 1);
    forall r: nat | r < n ensures Pair(r, r) in pairs {
      assert Received(pairs, sends, 0, 1, r) == [r + 1];
      assert Zeros(0, 1)[0] != [r + 1][0];
      var s := SourceOf(pairs, r).value;
      assert sends[s][0] == r + 1;
    }
    forall i | 0 <= i < |pairs| ensures pairs[i].source == pairs[i].target {
      var r := pairs[i].source;
      assert pairs[i] in pairs;
      var j :| 0 <= j < |pairs| && pairs[j] == Pair(r, r);
      assert i == j;
    }
    forall r: nat | r < n ensures r in Sources(pairs) {
      var j :| 0 <= j < |pairs| && pairs[j] == Pair(r, r);
      assert Sources(pairs)[j] == r;
    }
    forall i | 0 <= i < |pairs| ensures Sources(pairs)[i] < n {
      assert pairs[i] in pairs;
    }
    DistinctCovers(Sources(pairs), n);
    CoversIsLong(Sources(pairs), n);
  }
}
