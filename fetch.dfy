/** Partition derivation (`fetch_partitions`): one partition per nodearray
    whose slurm configuration enables autoscale, with the documented
    defaults, and the compressed list of the nodes it already has. */
module Fetch {
  import opened Wrappers
  import opened Cluster
  import opened Partitions

  /** A nodearray is a partition only when `autoscale` is explicitly true;
      a missing key excludes it. */
  predicate Included(na: NodearrayStatus)
  {
    na.slurm.autoscale == Some(true)
  }

  /** Names of the nodes whose `Template` is `nodearray`, in listed order. */
  function NodeNamesOf(nodes: seq<Node>, nodearray: string): (r: seq<string>)
    ensures |r| <= |nodes|
    ensures forall x :: x in r <==> exists n :: n in nodes && n.template == Some(nodearray) && n.name == x
  {
    if nodes == [] then []
    else (if nodes[0].template == Some(nodearray) then [nodes[0].name] else [])
         + NodeNamesOf(nodes[1..], nodearray)
  }

  /** A nodearray's `node_list`: unset while it has no nodes, otherwise
      the compressed names of its nodes. */
  function NodeList(nodes: seq<Node>, nodearray: string, compress: seq<string> -> string): (r: Option<string>)
    ensures r.None? <==> forall n :: n in nodes ==> n.template != Some(nodearray)
    ensures r.Some? ==> r.value == compress(NodeNamesOf(nodes, nodearray))
  {
    var names := NodeNamesOf(nodes, nodearray);
    assert names != [] ==> names[0] in names;
    assert forall n :: n in nodes && n.template == Some(nodearray) ==> n.name in names;
    if names == [] then None else Some(compress(names))
  }

  /** The partition built from one nodearray. `compress` is the hostlist
      compression service (`scontrol show hostlist`). */
  function DerivePartition(na: NodearrayStatus, nodes: seq<Node>, compress: seq<string> -> string): (p: Partition)
    ensures p.name == na.name && p.nodearray == na.name && p.nodeNamePrefix == ""
    ensures p.machineType == na.machineType && p.vm == na.vm && p.maxVmCount == na.maxCount
    // hpc defaults to true, default_partition to false, use_pcpu to true
    ensures p.isHpc <==> na.slurm.hpc != Some(false)
    ensures p.isDefault <==> na.slurm.defaultPartition == Some(true)
    ensures p.usePcpu <==> na.slurm.usePcpu != Some(false)
    // dampen_memory is configured as a percentage and defaults to 5%
    ensures p.dampenMemory == if na.slurm.dampenMemory.Some? then na.slurm.dampenMemory.value / 100.0 else DefaultDampenMemory
    // only HPC partitions take the Azure scaleset limit; the others are unbounded
    ensures !p.isHpc ==> p.maxScalesetSize == UnboundedScalesetSize
    ensures p.isHpc && na.maxScalesetSize.Some? ==> p.maxScalesetSize == na.maxScalesetSize.value
    ensures p.isHpc && na.maxScalesetSize.None? ==> p.maxScalesetSize == UnboundedScalesetSize
    ensures na.maxScalesetSize != Some(0) ==> p.maxScalesetSize > 0
    // node_list stays None until the nodearray has nodes
    ensures p.nodeList.None? <==> forall n :: n in nodes ==> n.template != Some(na.name)
    ensures p.nodeList.Some? ==> p.nodeList.value == compress(NodeNamesOf(nodes, na.name))
  {
    var isHpc := na.slurm.hpc.None? || na.slurm.hpc.value;
    var scaleset :=
      if isHpc && na.maxScalesetSize.Some? then na.maxScalesetSize.value else UnboundedScalesetSize;
    var dampen :=
      if na.slurm.dampenMemory.Some? then na.slurm.dampenMemory.value / 100.0 else DefaultDampenMemory;
    Partition(
      na.name, na.name, "", na.machineType,
      na.slurm.defaultPartition == Some(true), isHpc, scaleset, na.vm, na.maxCount, dampen,
      na.slurm.usePcpu.None? || na.slurm.usePcpu.value,
      NodeList(nodes, na.name, compress))
  }

  /** `fetch_partitions`: walks the nodearrays in order; a later nodearray
      with an already-used name replaces the value but keeps the position. */
  function FetchPartitions(status: seq<NodearrayStatus>, nodes: seq<Node>, compress: seq<string> -> string): (r: PartitionMap)
    ensures UniqueNames(r)
    ensures |r| <= |status|
  {
    if status == [] then []
    else
      var prev := FetchPartitions(status[..|status| - 1], nodes, compress);
      var last := status[|status| - 1];
      if Included(last) then Put(prev, DerivePartition(last, nodes, compress)) else prev
  }

  /** Some nodearray named `x` enables autoscale. */
  predicate EnablesName(status: seq<NodearrayStatus>, x: string)
  {
    exists i :: 0 <= i < |status| && Included(status[i]) && status[i].name == x
  }

  /** A name is a fetched partition exactly when some nodearray of that name
      enables autoscale. */
  lemma {:induction false} FetchedNames(status: seq<NodearrayStatus>, nodes: seq<Node>,
                                        compress: seq<string> -> string, x: string)
    ensures x in Names(FetchPartitions(status, nodes, compress)) <==> EnablesName(status, x)
  {
    if status != [] {
      var prefix := status[..|status| - 1];
      var last := status[|status| - 1];
      var prev := FetchPartitions(prefix, nodes, compress);
      FetchedNames(prefix, nodes, compress, x);
      var viaLast := Included(last) && last.name == x;
      assert EnablesName(status, x) <==> EnablesName(prefix, x) || viaLast by {
        if EnablesName(prefix, x) {
          var i :| 0 <= i < |prefix| && Included(prefix[i]) && prefix[i].name == x;
          assert status[i] == prefix[i];
        }
        if EnablesName(status, x) && !viaLast {
          var i :| 0 <= i < |status| && Included(status[i]) && status[i].name == x;
          assert i < |prefix| && prefix[i] == status[i];
        }
        if viaLast {
          assert status[|status| - 1] == last;
        }
      }
      if Included(last) {
        var d := DerivePartition(last, nodes, compress);
        assert x in Names(Put(prev, d)) <==> x in Names(prev) || x == d.name;
      }
    }
  }

  /** Every fetched partition is the derivation of an enabled nodearray. */
  lemma {:induction false} FetchedAreDerived(status: seq<NodearrayStatus>, nodes: seq<Node>,
                                             compress: seq<string> -> string, p: Partition)
    requires p in FetchPartitions(status, nodes, compress)
    ensures exists i :: 0 <= i < |status| && Included(status[i]) && p == DerivePartition(status[i], nodes, compress)
  {
    var prefix := status[..|status| - 1];
    var last := status[|status| - 1];
    if !(Included(last) && p == DerivePartition(last, nodes, compress)) {
      FetchedAreDerived(prefix, nodes, compress, p);
      var i :| 0 <= i < |prefix| && Included(prefix[i]) && p == DerivePartition(prefix[i], nodes, compress);
      assert prefix[i] == status[i];
    }
  }

  /** Default exclusion: when no nodearray enables autoscale (the key is
      false or missing), no partition is fetched. */
  lemma {:induction false} NothingIncludedNoPartitions(status: seq<NodearrayStatus>, nodes: seq<Node>,
                                                       compress: seq<string> -> string)
    requires forall i :: 0 <= i < |status| ==> !Included(status[i])
    ensures FetchPartitions(status, nodes, compress) == []
  {
    if status != [] {
      var prefix := status[..|status| - 1];
      assert forall i :: 0 <= i < |prefix| ==> prefix[i] == status[i];
      NothingIncludedNoPartitions(prefix, nodes, compress);
    }
  }

  /** On a repeated name the last autoscale-enabled nodearray supplies the
      partition. */
  lemma {:induction false} LastNodearrayWins(status: seq<NodearrayStatus>, nodes: seq<Node>,
                                             compress: seq<string> -> string, i: nat)
    requires i < |status| && Included(status[i])
    requires forall j :: i < j < |status| && Included(status[j]) ==> status[j].name != status[i].name
    ensures DerivePartition(status[i], nodes, compress) in FetchPartitions(status, nodes, compress)
  {
    var prefix := status[..|status| - 1];
    var last := status[|status| - 1];
    if i < |status| - 1 {
      LastNodearrayWins(prefix, nodes, compress, i);
      var d := DerivePartition(status[i], nodes, compress);
      if Included(last) {
        assert last.name != d.name;
      }
    }
  }

  /** The derived partitions of the enabled nodearrays, in order. */
  function Derived(status: seq<NodearrayStatus>, nodes: seq<Node>, compress: seq<string> -> string): (r: PartitionMap)
    ensures |r| <= |status|
  {
    if status == [] then []
    else
      var last := status[|status| - 1];
      Derived(status[..|status| - 1], nodes, compress)
        + (if Included(last) then [DerivePartition(last, nodes, compress)] else [])
  }

  /** With distinct nodearray names the fetched mapping is exactly the
      derived partitions of the enabled nodearrays, in order. */
  lemma {:induction false} FetchDistinctNames(status: seq<NodearrayStatus>, nodes: seq<Node>,
                                              compress: seq<string> -> string)
    requires forall i, j :: 0 <= i < j < |status| ==> status[i].name != status[j].name
    ensures FetchPartitions(status, nodes, compress) == Derived(status, nodes, compress)
  {
    if status != [] {
      var prefix := status[..|status| - 1];
      var last := status[|status| - 1];
      FetchDistinctNames(prefix, nodes, compress);
      if Included(last) {
        assert forall k :: 0 <= k < |prefix| ==> prefix[k].name != last.name;
        FetchedNames(prefix, nodes, compress, last.name);
      }
    }
  }
}
