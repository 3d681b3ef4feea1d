/** The reduction kernels of xla/service/gpu/ccl_ops.cc, over the buffers of the participants in
    rank order. */
module Kernels {
  import opened Arithmetic
  import opened Participants

  const MAX_RANK_SIZE: nat := 16

  // ---------------------------------------------------------------------------------------------
  // What the collectives compute

  /** Left fold; f stands for the reduction with its rounding, and need not be associative. */
  function Fold<T>(f: (T, T) -> T, xs: seq<T>): T
    requires xs != []
  {
    if |xs| == 1 then xs[0] else f(Fold(f, xs[..|xs| - 1]), xs[|xs| - 1])
  }

  /** Element i of every rank's buffer, in rank order. */
  function Column<T>(bufs: seq<seq<T>>, i: nat): (c: seq<T>)
    requires forall r :: 0 <= r < |bufs| ==> i < |bufs[r]|
  {
    seq(|bufs|, r requires 0 <= r < |bufs| => bufs[r][i])
  }

  ghost predicate Uniform<T>(bufs: seq<seq<T>>, size: nat) {
    forall r :: 0 <= r < |bufs| ==> |bufs[r]| == size
  }

  /** What all-reduce leaves in every rank's buffer. */
  function AllReduced<T>(f: (T, T) -> T, sends: seq<seq<T>>, size: nat): seq<T>
    requires sends != [] && Uniform(sends, size)
  {
    seq(size, i requires 0 <= i < size => Fold(f, Column(sends, i)))
  }

  /** What reduce-scatter leaves in rank r's buffer: chunk r of the reduction. */
  function ReducedChunk<T>(f: (T, T) -> T, sends: seq<seq<T>>, size: nat, r: nat): seq<T>
    requires sends != [] && r < |sends| && Uniform(sends, |sends| * size)
  {
    ChunkInside(|sends|, size, r);
    seq(size, i requires 0 <= i < size => Fold(f, Column(sends, i + size * r)))
  }

  function ReduceScattered<T>(f: (T, T) -> T, sends: seq<seq<T>>, size: nat): (chunks: seq<seq<T>>)
    requires sends != [] && Uniform(sends, |sends| * size)
    ensures |chunks| == |sends| && Uniform(chunks, size)
  {
    seq(|sends|, r requires 0 <= r < |sends| => ReducedChunk(f, sends, size, r))
  }

  /** What all-gather leaves in every rank's buffer: the send buffers end to end. */
  function Gathered<T>(sends: seq<seq<T>>): seq<T> {
    if sends == [] then [] else Gathered(sends[..|sends| - 1]) + sends[|sends| - 1]
  }

  lemma {:induction false} GatheredAt<T>(bufs: seq<seq<T>>, size: nat, r: nat, i: nat)
    requires Uniform(bufs, size) && r < |bufs| && i < size
    ensures |Gathered(bufs)| == |bufs| * size
    ensures i + size * r < |bufs| * size && Gathered(bufs)[i + size * r] == bufs[r][i]
  {
    var n := |bufs| - 1;
    GatheredLength(bufs, size);
    GatheredLength(bufs[..n], size);
    ChunkInside(|bufs|, size, r);
    if r < n {
      GatheredAt(bufs[..n], size, r, i);
    }
  }

  lemma {:induction false} GatheredLength<T>(bufs: seq<seq<T>>, size: nat)
    requires Uniform(bufs, size)
    ensures |Gathered(bufs)| == |bufs| * size
  {
    if bufs != [] {
      var n := |bufs| - 1;
      GatheredLength(bufs[..n], size);
      assert (n + 1) * size == n * size + size;
    }
  }

  // ---------------------------------------------------------------------------------------------
  // What a fold over the ranks is, for the reductions

  /** One more rank is one more application, on the right. */
  lemma {:induction false} FoldOneMore<T>(f: (T, T) -> T, xs: seq<T>, x: T)
    requires xs != []
    ensures Fold(f, [x]) == x && Fold(f, xs + [x]) == f(Fold(f, xs), x)
  {
    assert (xs + [x])[..|xs|] == xs;
  }

  /** The sum of element i of all buffers, counted from rank 0. */
  function Total(bufs: seq<seq<int>>, i: nat): int
    requires forall r :: 0 <= r < |bufs| ==> i < |bufs[r]|
  {
    if bufs == [] then 0 else bufs[0][i] + Total(bufs[1..], i)
  }

  lemma {:induction false} TotalOneMore(bufs: seq<seq<int>>, last: seq<int>, i: nat)
    requires (forall r :: 0 <= r < |bufs| ==> i < |bufs[r]|) && i < |last|
    ensures Total(bufs + [last], i) == Total(bufs, i) + last[i]
  {
    if bufs == [] {
      assert bufs + [last] == [last] && [last][1..] == [];
    } else {
      assert (bufs + [last])[1..] == bufs[1..] + [last];
      TotalOneMore(bufs[1..], last, i);
    }
  }

  lemma {:induction false} ColumnOneMore<T>(bufs: seq<seq<T>>, i: nat)
    requires bufs != [] && forall r :: 0 <= r < |bufs| ==> i < |bufs[r]|
    ensures var n := |bufs| - 1; Column(bufs, i) == Column(bufs[..n], i) + [bufs[n][i]] && bufs == bufs[..n] + [bufs[n]]
  {
  }

  /** For addition it is the sum over all ranks. */
  lemma {:induction false} FoldAdds(bufs: seq<seq<int>>, i: nat)
    requires bufs != [] && forall r :: 0 <= r < |bufs| ==> i < |bufs[r]|
    ensures Fold((x: int, y: int) => x + y, Column(bufs, i)) == Total(bufs, i)
    decreases |bufs|
  {
    var n := |bufs| - 1;
    ColumnOneMore(bufs, i);
    TotalOneMore(bufs[..n], bufs[n], i);
    if n > 0 {
      FoldAdds(bufs[..n], i);
      FoldOneMore((x: int, y: int) => x + y, Column(bufs[..n], i), bufs[n][i]);
    } else {
      assert Column(bufs, i) == [bufs[0][i]];
      FoldOneMore((x: int, y: int) => x + y, Column(bufs, i), bufs[0][i]);
    }
  }

  function Larger(x: int, y: int): int {
    if x < y then y else x
  }

  /** For maximum it is the element of some rank, and no rank's element is larger. */
  lemma {:induction false} FoldMaximises(xs: seq<int>)
    requires xs != []
    ensures Fold(Larger, xs) in xs && forall r :: 0 <= r < |xs| ==> xs[r] <= Fold(Larger, xs)
    decreases |xs|
  {
    var n := |xs| - 1;
    assert xs == xs[..n] + [xs[n]];
    if n > 0 {
      FoldMaximises(xs[..n]);
      FoldOneMore(Larger, xs[..n], xs[n]);
    } else {
      FoldOneMore(Larger, xs, xs[0]);
    }
  }

  /** A reduction that records what it is given. */
  function Record(x: seq<nat>, y: seq<nat>): seq<nat> {
    x + y
  }

  /** Every rank is used once, in rank order. */
  lemma {:induction false} FoldRecords(xs: seq<seq<nat>>)
    requires xs != [] && forall r :: 0 <= r < |xs| ==> xs[r] == [r]
    ensures Fold(Record, xs) == seq(|xs|, r => r)
    decreases |xs|
  {
    var n := |xs| - 1;
    assert xs == xs[..n] + [xs[n]];
    if n > 0 {
      FoldRecords(xs[..n]);
      FoldOneMore(Record, xs[..n], xs[n]);
    } else {
      FoldOneMore(Record, xs, xs[0]);
    }
  }

  /** v is element `at` of the buffer of some rank, and no rank's element is larger. */
  ghost predicate IsLargest(bufs: seq<seq<int>>, at: nat, v: int)
    requires forall r :: 0 <= r < |bufs| ==> at < |bufs[r]|
  {
    && (exists r :: 0 <= r < |bufs| && v == bufs[r][at])
    && (forall r :: 0 <= r < |bufs| ==> bufs[r][at] <= v)
  }

  lemma {:induction false} FoldIsLargest(bufs: seq<seq<int>>, at: nat)
    requires bufs != [] && forall r :: 0 <= r < |bufs| ==> at < |bufs[r]|
    ensures IsLargest(bufs, at, Fold(Larger, Column(bufs, at)))
  {
    var column := Column(bufs, at);
    FoldMaximises(column);
    var most :| 0 <= most < |column| && column[most] == Fold(Larger, column);
    assert Fold(Larger, column) == bufs[most][at];
    forall r | 0 <= r < |bufs| ensures bufs[r][at] <= Fold(Larger, column) {
      assert column[r] == bufs[r][at];
    }
  }

  /** What all-reduce leaves, for three reductions and without the fold. */
  lemma {:induction false} AllReducedMeans(sends: seq<seq<int>>, records: seq<seq<seq<nat>>>, size: nat, i: nat)
    requires sends != [] && Uniform(sends, size) && i < size
    requires records != [] && Uniform(records, size) && forall r :: 0 <= r < |records| ==> records[r][i] == [r]
    ensures AllReduced((x: int, y: int) => x + y, sends, size)[i] == Total(sends, i)
    ensures IsLargest(sends, i, AllReduced(Larger, sends, size)[i])
    ensures AllReduced(Record, records, size)[i] == seq(|records|, r => r)
  {
    FoldAdds(sends, i);
    FoldIsLargest(sends, i);
    FoldRecords(Column(records, i));
  }

  lemma {:induction false} ScatteredAt<T>(f: (T, T) -> T, sends: seq<seq<T>>, size: nat, r: nat, i: nat)
    requires sends != [] && Uniform(sends, |sends| * size) && r < |sends| && i < size
    ensures i + size * r < |sends| * size
    ensures ReduceScattered(f, sends, size)[r][i] == Fold(f, Column(sends, i + size * r))
  {
    ChunkInside(|sends|, size, r);
  }

  /** What reduce-scatter leaves with rank r, likewise. */
  lemma {:induction false} ReduceScatteredMeans(
      sends: seq<seq<int>>, records: seq<seq<seq<nat>>>, size: nat, r: nat, i: nat, at: nat)
    requires sends != [] && Uniform(sends, |sends| * size) && r < |sends| == |records| && i < size
    requires Uniform(records, |sends| * size) && at == i + size * r < |sends| * size
    requires forall q :: 0 <= q < |records| ==> records[q][at] == [q]
    ensures ReduceScattered((x: int, y: int) => x + y, sends, size)[r][i] == Total(sends, at)
    ensures IsLargest(sends, at, ReduceScattered(Larger, sends, size)[r][i])
    ensures ReduceScattered(Record, records, size)[r][i] == seq(|records|, q => q)
  {
    ScatteredAt((x: int, y: int) => x + y, sends, size, r, i);
    FoldAdds(sends, at);
    ScatteredAt(Larger, sends, size, r, i);
    FoldIsLargest(sends, at);
    ScatteredAt(Record, records, size, r, i);
    FoldRecords(Column(records, at));
  }

  /** Reduce-scatter followed by all-gather is all-reduce, element for element, for any binary
      function: both fold the ranks from the left in the same order. */
  lemma {:induction false} ReduceScatterThenAllGather<T>(f: (T, T) -> T, sends: seq<seq<T>>, size: nat)
    requires sends != [] && Uniform(sends, |sends| * size)
    ensures Gathered(ReduceScattered(f, sends, size)) == AllReduced(f, sends, |sends| * size)
  {
    var chunks := ReduceScattered(f, sends, size);
    GatheredLength(chunks, size);
    forall k | 0 <= k < |sends| * size
      ensures Gathered(chunks)[k] == AllReduced(f, sends, |sends| * size)[k]
    {
      var r, i := k / size, k % size;
      SplitIndex(k, |sends|, size);
      GatheredAt(chunks, size, r, i);
    }
  }

  // ---------------------------------------------------------------------------------------------
  // Launches

  /** Work items launched for `size` elements in groups of `group`: the size rounded up. */
  function LaunchSize(size: nat, group: nat): (total: nat)
    requires group > 0
    ensures size <= total < size + group
  {
    var q := (size + group - 1) / group;
    assert size + group - 1 == group * q + (size + group - 1) % group;
    group * q
  }

  /** The work items of a launch, in the order the device happens to run them: every global id
      below the launch size exactly once. */
  ghost predicate IsSchedule(order: seq<nat>, total: nat) {
    && (forall x: nat :: x in order <==> x < total)
    && (forall i, j :: 0 <= i < j < |order| ==> order[i] != order[j])
  }

  /** The work items among the first k. */
  ghost function RunSoFar(order: seq<nat>, k: nat): set<nat>
    requires k <= |order|
  {
    set j | 0 <= j < k :: order[j]
  }

  lemma {:induction false} OneMore(order: seq<nat>, k: nat)
    requires k < |order| && forall i, j :: 0 <= i < j < |order| ==> order[i] != order[j]
    ensures RunSoFar(order, k + 1) == RunSoFar(order, k) + {order[k]} && order[k] !in RunSoFar(order, k)
  {
  }

  lemma {:induction false} AllRun(order: seq<nat>, total: nat)
    requires IsSchedule(order, total)
    ensures forall i: nat :: i < total ==> i in RunSoFar(order, |order|)
  {
    forall i: nat | i < total ensures i in RunSoFar(order, |order|) {
      assert i in order;
    }
  }

  /** Receive buffers are distinct; a send buffer is at most its own rank's receive buffer. */
  ghost predicate Disjoint<T>(send: seq<array<T>>, recv: seq<array<T>>) {
    && |send| == |recv|
    && (forall i, j :: 0 <= i < j < |recv| ==> recv[i] != recv[j])
    && (forall i, j :: 0 <= i < |send| && 0 <= j < |recv| && send[i] == recv[j] ==> i == j)
  }

  predicate AllReduceSupports(n: nat) {
    n == 2 || n == 4 || n == 6 || n == 8 || n == 10 || n == 12
  }

  /** One work item of all-reduce: accumulate into rank 0, then copy to the others. */
  method AllReduceItem<T>(f: (T, T) -> T, send: seq<array<T>>, recv: seq<array<T>>, index: nat, ghost column: seq<T>)
    requires |send| >= 1 && Disjoint(send, recv) && |column| == |send|
    requires forall r :: 0 <= r < |send| ==> index < send[r].Length && index < recv[r].Length
    requires recv[0][index] == column[0]
    requires forall r :: 1 <= r < |send| ==> send[r][index] == column[r]
    modifies recv
    ensures forall r :: 0 <= r < |recv| ==> recv[r][index] == Fold(f, column)
    ensures forall r, i :: 0 <= r < |recv| && 0 <= i < recv[r].Length && i != index ==> recv[r][i] == old(recv[r][i])
  {
    var n := |send|;
    assert column[..1] == [column[0]];
    for j := 1 to n
      invariant recv[0][index] == Fold(f, column[..j])
      invariant forall r :: j <= r < n ==> send[r][index] == column[r]
      invariant forall r, i :: 0 <= r < n && 0 <= i < recv[r].Length && i != index ==> recv[r][i] == old(recv[r][i])
    {
      assert column[..j + 1][..j] == column[..j];
      recv[0][index] := f(recv[0][index], send[j][index]);
    }
    assert column[..n] == column;
    for j := 1 to n
      invariant forall r :: 0 <= r < j ==> recv[r][index] == Fold(f, column)
      invariant forall r, i :: 0 <= r < n && 0 <= i < recv[r].Length && i != index ==> recv[r][i] == old(recv[r][i])
    {
      recv[j][index] := recv[0][index];
    }
  }

  /** All-reduce: whatever order the work items run in, every receive buffer ends up with the left
      fold over `fed`, which is what rank 0's RECEIVE buffer and the other ranks' send buffers hold
      at launch.  In place, rank 0 receives where it sends, so `fed` is the send data of every rank.
      Rank counts the kernel has no case for are refused. */
  method AllReduce<T>(f: (T, T) -> T, send: seq<array<T>>, recv: seq<array<T>>, size: nat, group: nat,
                      order: seq<nat>, ghost fed: seq<seq<T>>) returns (ok: bool)
    requires |send| >= 1 && Disjoint(send, recv) && |fed| == |send| && Uniform(fed, size)
    requires forall r :: 0 <= r < |send| ==> size <= send[r].Length && size <= recv[r].Length
    requires fed[0] == recv[0][..size]
    requires forall r :: 1 <= r < |send| ==> fed[r] == send[r][..size]
    requires group > 0 && IsSchedule(order, LaunchSize(size, group))
    modifies recv
    ensures ok == (2 <= |send| <= 12 && |send| % 2 == 0)
    ensures ok ==> forall r :: 0 <= r < |recv| ==> recv[r][..size] == AllReduced(f, fed, size)
    ensures forall r, i :: 0 <= r < |recv| && (if ok then size else 0) <= i < recv[r].Length ==>
              recv[r][i] == old(recv[r][i])
  {
    if !AllReduceSupports(|send|) {
      return false;
    }
    AllReduceItems(f, send, recv, size, order, fed);
    AllRun(order, LaunchSize(size, group));
    forall r | 0 <= r < |recv| ensures recv[r][..size] == AllReduced(f, fed, size) {
      assert forall i :: 0 <= i < size ==> recv[r][..size][i] == AllReduced(f, fed, size)[i];
    }
    return true;
  }

  /** Its work items, in the order given. */
  method AllReduceItems<T>(f: (T, T) -> T, send: seq<array<T>>, recv: seq<array<T>>, size: nat, order: seq<nat>,
                           ghost fed: seq<seq<T>>)
    requires |send| >= 1 && Disjoint(send, recv) && |fed| == |send| && Uniform(fed, size)
    requires forall r :: 0 <= r < |send| ==> size <= send[r].Length && size <= recv[r].Length
    requires fed[0] == recv[0][..size]
    requires forall r :: 1 <= r < |send| ==> fed[r] == send[r][..size]
    requires forall i, j :: 0 <= i < j < |order| ==> order[i] != order[j]
    modifies recv
    ensures forall r, i :: 0 <= r < |recv| && 0 <= i < size && i in RunSoFar(order, |order|) ==>
              recv[r][i] == Fold(f, Column(fed, i))
    ensures forall r, i :: 0 <= r < |recv| && size <= i < recv[r].Length ==> recv[r][i] == old(recv[r][i])
  {
    ghost var n := |send|;
    assert forall r, i :: 1 <= r < n && 0 <= i < size ==> send[r][i] == send[r][..size][i];
    assert forall i :: 0 <= i < size ==> recv[0][i] == recv[0][..size][i];
    ghost var done: set<nat> := {};
    for k := 0 to |order|
      invariant done == RunSoFar(order, k)
      invariant forall r, i :: 0 <= r < n && 0 <= i < size && i in done ==> recv[r][i] == Fold(f, Column(fed, i))
      invariant forall i :: 0 <= i < size && i !in done ==> recv[0][i] == fed[0][i]
      invariant forall r, i :: 1 <= r < n && 0 <= i < size && i !in done ==> send[r][i] == fed[r][i]
      invariant forall r, i :: 0 <= r < n && size <= i < recv[r].Length ==> recv[r][i] == old(recv[r][i])
    {
      var index := order[k];
      OneMore(order, k);
      if index < size {
        AllReduceItem(f, send, recv, index, Column(fed, index));
      }
      done := done + {index};
    }
  }

  /** The buffers of the participants, in the order of the list. */
  function BuffersOf<T>(p: seq<Participant>, buffers: seq<array<T>>): seq<array<T>>
    requires forall i :: 0 <= i < |p| ==> p[i].rank < |buffers|
  {
    seq(|p|, i requires 0 <= i < |p| => buffers[p[i].rank])
  }

  /** The whole operation, in place: send and recv list the buffers by rank, and the ranks arrive in any
      order.  Sorted by rank, every receive buffer ends up with the left fold over send 0, 1, ..., n - 1. */
  method AllReduceInPlace<T>(f: (T, T) -> T, arrived: seq<Participant>, call: nat, send: seq<array<T>>,
                             recv: seq<array<T>>, size: nat, group: nat, order: seq<nat>, ghost sends: seq<seq<T>>)
    returns (ok: bool)
    requires |arrived| == |send| == |sends| >= 1 && Disjoint(send, recv) && Uniform(sends, size)
    requires DistinctRanks(arrived) && forall x :: x in arrived ==> x.rank < |send| && x.call == call
    requires forall r :: 0 <= r < |send| ==> size <= send[r].Length && size <= recv[r].Length
    requires forall r :: 0 <= r < |send| ==> send[r][..size] == sends[r]
    requires recv[0][..size] == sends[0]
    requires group > 0 && IsSchedule(order, LaunchSize(size, group))
    modifies recv
    ensures ok == (2 <= |send| <= 12 && |send| % 2 == 0)
    ensures ok ==> forall r :: 0 <= r < |recv| ==> recv[r][..size] == AllReduced(f, sends, size)
  {
    var round := SortByRank(arrived);
    SortedRoundIsComplete(arrived, round, |send|, call);
    assert BuffersOf(round, send) == send && BuffersOf(round, recv) == recv;
    ok := AllReduce(f, BuffersOf(round, send), BuffersOf(round, recv), size, group, order, sends);
  }

  /** The reduction of element `at` of every send buffer into out[index]. */
  method ReduceColumn<T>(f: (T, T) -> T, send: seq<array<T>>, out: array<T>, index: nat, at: nat, ghost column: seq<T>)
    requires 2 <= |send| == |column| && out !in send && index < out.Length
    requires forall r :: 0 <= r < |send| ==> at < send[r].Length && send[r][at] == column[r]
    modifies out
    ensures out[index] == Fold(f, column)
    ensures forall i :: 0 <= i < out.Length && i != index ==> out[i] == old(out[i])
  {
    var n := |send|;
    assert column[..2] == [column[0], column[1]] && column[..2][..1] == [column[0]];
    out[index] := f(send[0][at], send[1][at]);
    for j := 2 to n
      invariant out[index] == Fold(f, column[..j])
      invariant forall i :: 0 <= i < out.Length && i != index ==> out[i] == old(out[i])
    {
      assert column[..j + 1][..j] == column[..j];
      assert send[j] != out;
      out[index] := f(out[index], send[j][at]);
    }
    assert column[..n] == column;
  }

  /** One work item of reduce-scatter: element `index` of every rank's chunk. */
  method ReduceScatterItem<T>(f: (T, T) -> T, send: seq<array<T>>, recv: seq<array<T>>, size: nat, index: nat,
                              ghost sends: seq<seq<T>>)
    requires 2 <= |send| == |recv| == |sends| && Uniform(sends, |sends| * size) && index < size
    requires forall i, j :: 0 <= i < j < |recv| ==> recv[i] != recv[j]
    requires forall i :: 0 <= i < |send| ==> send[i] !in recv
    requires forall r :: 0 <= r < |send| ==> send[r].Length == |send| * size && size <= recv[r].Length
    requires forall r, k :: 0 <= r < |send| && 0 <= k < |send| * size ==> send[r][k] == sends[r][k]
    modifies recv
    ensures forall r :: 0 <= r < |recv| ==> recv[r][index] == ReducedChunk(f, sends, size, r)[index]
    ensures forall r, i :: 0 <= r < |recv| && 0 <= i < recv[r].Length && i != index ==> recv[r][i] == old(recv[r][i])
  {
    var n := |send|;
    for i := 0 to n
      invariant forall r, k :: 0 <= r < n && 0 <= k < n * size ==> send[r][k] == sends[r][k]
      invariant forall r :: 0 <= r < i ==> recv[r][index] == ReducedChunk(f, sends, size, r)[index]
      invariant forall r, k :: 0 <= r < n && 0 <= k < recv[r].Length && k != index ==> recv[r][k] == old(recv[r][k])
    {
      ChunkInside(n, size, i);
      var at := index + size * i;
      ReduceColumn(f, send, recv[i], index, at, Column(sends, at));
    }
  }

  /** Reduce-scatter: whatever order the work items run in, rank r receives chunk r of the reduction. */
  method ReduceScatter<T>(f: (T, T) -> T, send: seq<array<T>>, recv: seq<array<T>>, size: nat, group: nat,
                          order: seq<nat>, ghost sends: seq<seq<T>>) returns (ok: bool)
    requires 2 <= |send| == |recv| == |sends| && Uniform(sends, |sends| * size)
    requires forall i, j :: 0 <= i < j < |recv| ==> recv[i] != recv[j]
    requires forall i :: 0 <= i < |send| ==> send[i] !in recv
    requires forall r :: 0 <= r < |send| ==> send[r].Length == |send| * size && size <= recv[r].Length
    requires forall r, k :: 0 <= r < |send| && 0 <= k < |send| * size ==> send[r][k] == sends[r][k]
    requires group > 0 && IsSchedule(order, LaunchSize(size, group))
    modifies recv
    ensures ok == (|send| <= MAX_RANK_SIZE)
    ensures ok ==> forall r :: 0 <= r < |recv| ==> recv[r][..size] == ReduceScattered(f, sends, size)[r]
  {
    if |send| > MAX_RANK_SIZE {
      return false;
    }
    ghost var n := |send|;
    for k := 0 to |order|
      invariant forall r, k :: 0 <= r < n && 0 <= k < n * size ==> send[r][k] == sends[r][k]
      invariant forall i :: 0 <= i < size && i in order[..k] ==>
                  forall r :: 0 <= r < n ==> recv[r][i] == ReducedChunk(f, sends, size, r)[i]
    {
      var index := order[k];
      assert order[..k + 1] == order[..k] + [index];
      if index < size {
        ReduceScatterItem(f, send, recv, size, index, sends);
      }
    }
    assert order[..|order|] == order;
    forall r | 0 <= r < n ensures recv[r][..size] == ReduceScattered(f, sends, size)[r] {
      forall i | 0 <= i < size ensures recv[r][i] == ReducedChunk(f, sends, size, r)[i] {
        assert i in order;
      }
    }
    return true;
  }

  /** stream->memcpy: `count` elements from the start of src to offset `at` of dst. */
  method MemCopy<T>(dst: array<T>, at: nat, src: array<T>, count: nat)
    requires at + count <= dst.Length && count <= src.Length && dst != src
    modifies dst
    ensures dst[..] == old(dst[..at]) + src[..count] + old(dst[at + count..])
  {
    forall i | 0 <= i < count {
      dst[at + i] := src[i];
    }
  }

  /** The same for a whole buffer. */
  method CopyBuffer<T>(dst: array<T>, src: array<T>)
    requires dst.Length == src.Length && dst != src
    modifies dst
    ensures dst[..] == src[..]
  {
    MemCopy(dst, 0, src, src.Length);
  }

  /** The same for a chunk that follows what is there already. */
  method AppendChunk<T>(dst: array<T>, at: nat, src: array<T>)
    requires at + src.Length <= dst.Length && dst != src
    modifies dst
    ensures dst[..at + src.Length] == old(dst[..at]) + src[..]
  {
    MemCopy(dst, at, src, src.Length);
  }

  /** All-gather: gather into rank 0's buffer, then copy that buffer to everybody. */
  method AllGather<T>(send: seq<array<T>>, recv: seq<array<T>>, size: nat, ghost sends: seq<seq<T>>) returns (ok: bool)
    requires 1 <= |send| == |recv| == |sends| && Uniform(sends, size)
    requires forall i, j :: 0 <= i < j < |recv| ==> recv[i] != recv[j]
    requires forall i :: 0 <= i < |send| ==> send[i] !in recv
    requires forall r :: 0 <= r < |send| ==> send[r].Length == size && recv[r].Length == |send| * size
    requires forall r :: 0 <= r < |send| ==> send[r][..] == sends[r]
    modifies recv
    ensures ok == (|send| <= MAX_RANK_SIZE)
    ensures ok ==> forall r :: 0 <= r < |recv| ==> recv[r][..] == Gathered(sends)
  {
    if |send| > MAX_RANK_SIZE {
      return false;
    }
    var n := |send|;
    for i := 0 to n
      invariant size * i <= n * size
      invariant forall r :: 0 <= r < n ==> send[r][..] == sends[r]
      invariant recv[0][..size * i] == Gathered(sends[..i])
    {
      ChunkInside(n, size, i);
      var at := size * i;
      assert size * (i + 1) == at + size;
      assert sends[..i + 1][..i] == sends[..i];
      AppendChunk(recv[0], at, send[i]);
    }
    assert sends[..n] == sends && recv[0][..] == recv[0][..size * n];
    for i := 1 to n
      invariant forall r :: 0 <= r < i ==> recv[r][..] == Gathered(sends)
    {
      CopyBuffer(recv[i], recv[0]);
    }
    return true;
  }
}
