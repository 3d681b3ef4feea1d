/** When a collective operation needs no communication: CclCollectiveConfig::IsDegenerate against
    the device groups that each group mode forms. */
module CollectiveConfig {
  import opened Ordering
  import opened Arithmetic

  datatype GroupMode = CrossReplica | CrossPartition | CrossReplicaAndPartition | FlattenedId

  type Groups = seq<seq<nat>>

  datatype Device = Device(replica: nat, partition: nat)

  predicate AllSingleton(groups: Groups) {
    groups != [] && forall g :: g in groups ==> |g| == 1
  }

  /** The CHECK in flattened-id mode demands at least one group. */
  predicate IsDegenerate(mode: GroupMode, groups: Groups, replicas: nat, partitions: nat)
    requires mode.FlattenedId? ==> groups != []
  {
    match mode
    case CrossReplica => AllSingleton(groups) || (groups == [] && replicas == 1)
    case CrossPartition => AllSingleton(groups) || (groups == [] && partitions == 1)
    case CrossReplicaAndPartition =>
      (AllSingleton(groups) && partitions == 1) || (groups == [] && replicas == 1 && partitions == 1)
    case FlattenedId => AllSingleton(groups)
  }

  // ---------------------------------------------------------------------------------------------
  // GetParticipatingDevices, as documented for the four modes

  /** How many ids the groups of a mode range over. */
  function IdCount(mode: GroupMode, replicas: nat, partitions: nat): nat {
    match mode
    case CrossReplica => replicas
    case CrossPartition => partitions
    case CrossReplicaAndPartition => replicas
    case FlattenedId => replicas * partitions
  }

  ghost predicate Listed(groups: Groups, x: nat) {
    exists g :: g in groups && x in g
  }

  /** Groups split the ids below n: no group is empty, no id is missing or listed twice. */
  ghost predicate Splits(groups: Groups, n: nat) {
    && (forall g :: g in groups ==> g != [] && Distinct(g) && forall x :: x in g ==> x < n)
    && (forall x: nat :: x < n ==> Listed(groups, x))
    && (forall g, h, x :: g in groups && h in groups && x in g && x in h ==> g == h)
  }

  /** The ids grouped with id; with no groups given, all ids form one group. */
  ghost function Peers(groups: Groups, n: nat, id: nat): set<nat>
    requires groups != [] ==> Splits(groups, n)
    requires id < n
  {
    if groups == [] then Below(n)
    else
      assert Listed(groups, id);
      var g :| g in groups && id in g;
      Elements(g)
  }

  /** The id under which a mode's groups list a device. */
  ghost function GroupId(mode: GroupMode, partitions: nat, d: Device): nat {
    match mode
    case CrossReplica => d.replica
    case CrossPartition => d.partition
    case CrossReplicaAndPartition => d.replica
    case FlattenedId => d.replica * partitions + d.partition
  }

  ghost predicate IsDevice(replicas: nat, partitions: nat, d: Device) {
    d.replica < replicas && d.partition < partitions
  }

  lemma {:induction false} GroupIdInRange(mode: GroupMode, replicas: nat, partitions: nat, d: Device)
    requires IsDevice(replicas, partitions, d)
    ensures GroupId(mode, partitions, d) < IdCount(mode, replicas, partitions)
  {
    assert d.replica * partitions == partitions * d.replica;
    ChunkInside(replicas, partitions, d.replica);
  }

  /** Two devices take part in the same instance of the operation. */
  ghost predicate Together(mode: GroupMode, groups: Groups, replicas: nat, partitions: nat, d: Device, e: Device)
    requires groups != [] ==> Splits(groups, IdCount(mode, replicas, partitions))
    requires IsDevice(replicas, partitions, d) && IsDevice(replicas, partitions, e)
  {
    GroupIdInRange(mode, replicas, partitions, d);
    && GroupId(mode, partitions, e) in Peers(groups, IdCount(mode, replicas, partitions), GroupId(mode, partitions, d))
    && (mode.CrossReplica? ==> e.partition == d.partition)
    && (mode.CrossPartition? ==> e.replica == d.replica)
  }

  /** No device has a partner other than itself. */
  ghost predicate AllAlone(mode: GroupMode, groups: Groups, replicas: nat, partitions: nat)
    requires groups != [] ==> Splits(groups, IdCount(mode, replicas, partitions))
  {
    forall d, e | IsDevice(replicas, partitions, d) && IsDevice(replicas, partitions, e) ::
      Together(mode, groups, replicas, partitions, d, e) ==> d == e
  }

  lemma {:induction false} PeersAreTheGroup(groups: Groups, n: nat, g: seq<nat>, id: nat)
    requires groups != [] && Splits(groups, n) && g in groups && id in g && id < n
    ensures Peers(groups, n, id) == Elements(g)
  {
  }

  lemma {:induction false} SelfIsPeer(groups: Groups, n: nat, id: nat)
    requires groups != [] ==> Splits(groups, n)
    requires id < n
    ensures id in Peers(groups, n, id)
  {
  }

  lemma {:induction false} FlatIdsDiffer(partitions: nat, d: Device, e: Device)
    requires d.partition < partitions && e.partition < partitions
    requires d.replica * partitions + d.partition == e.replica * partitions + e.partition
    ensures d == e
  {
    DivModUnique(d.replica * partitions + d.partition, partitions, d.replica, d.partition);
    DivModUnique(e.replica * partitions + e.partition, partitions, e.replica, e.partition);
  }

  /** Some device of every id below the count. */
  lemma {:induction false} DeviceFor(mode: GroupMode, replicas: nat, partitions: nat, id: nat, p: nat)
    returns (d: Device)
    requires replicas > 0 && p < partitions && id < IdCount(mode, replicas, partitions)
    ensures IsDevice(replicas, partitions, d) && GroupId(mode, partitions, d) == id
    ensures mode.CrossReplica? || mode.CrossReplicaAndPartition? ==> d.partition == p
    ensures mode.CrossPartition? ==> d.replica == 0
  {
    match mode
    case CrossReplica => d := Device(id, p);
    case CrossPartition => d := Device(0, id);
    case CrossReplicaAndPartition => d := Device(id, p);
    case FlattenedId => d := FlatDevice(replicas, partitions, id);
  }

  lemma {:induction false} FlatDevice(replicas: nat, partitions: nat, id: nat) returns (d: Device)
    requires id < replicas * partitions
    ensures d.replica < replicas && d.partition < partitions && d.replica * partitions + d.partition == id
  {
    SplitIndex(id, replicas, partitions);
    d := Device(id / partitions, id % partitions);
    assert d.replica * partitions == partitions * d.replica;
  }

  lemma {:induction false} AloneMeansSmallGroups(mode: GroupMode, groups: Groups, replicas: nat, partitions: nat,
      x: nat, y: nat)
    requires replicas > 0 && partitions > 0
    requires groups != [] ==> Splits(groups, IdCount(mode, replicas, partitions))
    requires AllAlone(mode, groups, replicas, partitions)
    requires x < IdCount(mode, replicas, partitions) && y < IdCount(mode, replicas, partitions)
    requires y in Peers(groups, IdCount(mode, replicas, partitions), x)
    ensures x == y
  {
    var d := DeviceFor(mode, replicas, partitions, x, 0);
    var e := DeviceFor(mode, replicas, partitions, y, 0);
    assert Together(mode, groups, replicas, partitions, d, e);
  }

  /** The test is exact in all four modes: an operation is degenerate precisely when every device
      only takes part together with itself. */
  lemma {:induction false} DegenerateExactly(mode: GroupMode, groups: Groups, replicas: nat, partitions: nat)
    requires replicas > 0 && partitions > 0
    requires mode.FlattenedId? ==> groups != []
    requires groups != [] ==> Splits(groups, IdCount(mode, replicas, partitions))
    ensures IsDegenerate(mode, groups, replicas, partitions) <==> AllAlone(mode, groups, replicas, partitions)
  {
    if IsDegenerate(mode, groups, replicas, partitions) {
      DegenerateMeansAlone(mode, groups, replicas, partitions);
    } else if AllAlone(mode, groups, replicas, partitions) {
      AloneMeansDegenerate(mode, groups, replicas, partitions);
      assert false;
    }
  }

  lemma {:induction false} OwnPeerOnly(groups: Groups, n: nat, x: nat, y: nat)
    requires if groups == [] then n == 1 else AllSingleton(groups) && Splits(groups, n)
    requires x < n && y < n && y in Peers(groups, n, x)
    ensures x == y
  {
    if groups != [] {
      assert Listed(groups, x);
      var g :| g in groups && x in g;
      PeersAreTheGroup(groups, n, g, x);
    }
  }

  lemma {:induction false} DegenerateMeansAlone(mode: GroupMode, groups: Groups, replicas: nat, partitions: nat)
    requires mode.FlattenedId? ==> groups != []
    requires groups != [] ==> Splits(groups, IdCount(mode, replicas, partitions))
    requires IsDegenerate(mode, groups, replicas, partitions)
    ensures AllAlone(mode, groups, replicas, partitions)
  {
    var n := IdCount(mode, replicas, partitions);
    assert groups == [] ==> n == 1;
    forall d, e | IsDevice(replicas, partitions, d) && IsDevice(replicas, partitions, e) &&
                  Together(mode, groups, replicas, partitions, d, e)
      ensures d == e
    {
      var x, y := GroupId(mode, partitions, d), GroupId(mode, partitions, e);
      GroupIdInRange(mode, replicas, partitions, d);
      GroupIdInRange(mode, replicas, partitions, e);
      OwnPeerOnly(groups, n, x, y);
      if mode.FlattenedId? {
        FlatIdsDiffer(partitions, d, e);
      }
    }
  }

  lemma {:induction false} AloneMeansDegenerate(mode: GroupMode, groups: Groups, replicas: nat, partitions: nat)
    requires replicas > 0 && partitions > 0
    requires mode.FlattenedId? ==> groups != []
    requires groups != [] ==> Splits(groups, IdCount(mode, replicas, partitions))
    requires AllAlone(mode, groups, replicas, partitions)
    ensures IsDegenerate(mode, groups, replicas, partitions)
  {
    var n := IdCount(mode, replicas, partitions);
    if groups == [] {
      if n > 1 {
        AloneMeansSmallGroups(mode, groups, replicas, partitions, 0, 1);
      }
    } else {
      forall g | g in groups ensures |g| == 1 {
        assert g[0] in g;
        if |g| > 1 {
          assert g[1] in g;
          PeersAreTheGroup(groups, n, g, g[0]);
          AloneMeansSmallGroups(mode, groups, replicas, partitions, g[0], g[1]);
        }
      }
    }
    if mode.CrossReplicaAndPartition? && partitions > 1 {
      var d := DeviceFor(mode, replicas, partitions, 0, 0);
      var e := DeviceFor(mode, replicas, partitions, 0, 1);
      SelfIsPeer(groups, n, 0);
      assert Together(mode, groups, replicas, partitions, d, e);
    }
  }
}
