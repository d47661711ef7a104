/** The partitions `test_fetch_partitions` expects, derived from the model:
    two nodearrays of 2 `Standard_D2_v2` machines, `hpc` (default partition,
    Azure scaleset limit 30) and `htc` (`hpc` switched off). */
module FetchScenarios {
  import opened Wrappers
  import opened Cluster
  import opened Partitions
  import opened Fetch

  /** 4 GiB and 2 vCPUs; the test leaves the other counts unset. */
  const Shape: VirtualMachine := VirtualMachine(2, 0, 0, 4.0)

  const HpcArray: NodearrayStatus :=
    NodearrayStatus("hpc", 2, "Standard_D2_v2", Shape, Some(30),
                    SlurmSettings(Some(true), None, Some(true), None, None))
  const HtcArray: NodearrayStatus :=
    NodearrayStatus("htc", 2, "Standard_D2_v2", Shape, None,
                    SlurmSettings(Some(true), Some(false), None, None, None))

  const HpcPart: Partition :=
    Partition("hpc", "hpc", "", "Standard_D2_v2", true, true, 30, Shape, 2, 0.05, true, None)
  const HtcPart: Partition :=
    Partition("htc", "htc", "", "Standard_D2_v2", false, false, 0x8000_0000, Shape, 2, 0.05, true, None)

  const StartedHpc: seq<Node> :=
    [ Node("hpc-100", Some("hpc"), None, None, false, None, None, None),
      Node("hpc-101", Some("hpc"), None, None, false, None, None, None),
      Node("hpc-102", Some("hpc"), None, None, false, None, None, None) ]

  /** Two enabled nodearrays of different names give their two partitions,
      in order. */
  lemma FetchTwo(a: NodearrayStatus, b: NodearrayStatus, nodes: seq<Node>, compress: seq<string> -> string)
    requires Included(a) && Included(b) && a.name != b.name
    ensures FetchPartitions([a, b], nodes, compress)
         == [DerivePartition(a, nodes, compress), DerivePartition(b, nodes, compress)]
  {
    var da, db := DerivePartition(a, nodes, compress), DerivePartition(b, nodes, compress);
    assert [a, b][..1] == [a] && [a][..0] == [];
    assert FetchPartitions([a], nodes, compress) == Put([], da);
    assert Put([], da) == [da];
    assert Names([da]) == [da.name];
    assert Put([da], db) == [da] + [db];
  }

  /** The started nodes are all on `hpc`. */
  lemma StartedOnHpc()
    ensures NodeNamesOf(StartedHpc, "hpc") == ["hpc-100", "hpc-101", "hpc-102"]
    ensures forall n :: n in StartedHpc ==> n.template != Some("htc")
    ensures NodeNamesOf(StartedHpc, "htc") == []
  {
    assert NodeNamesOf(StartedHpc, "hpc") == ["hpc-100", "hpc-101", "hpc-102"];
  }

  /** Without nodes both nodearrays become partitions with no node list;
      only `hpc` is HPC and default, and only it takes the Azure limit. */
  lemma FetchWithoutNodes(compress: seq<string> -> string)
    ensures FetchPartitions([HpcArray, HtcArray], [], compress) == [HpcPart, HtcPart]
  {
    assert DerivePartition(HpcArray, [], compress) == HpcPart;
    assert DerivePartition(HtcArray, [], compress) == HtcPart;
    FetchTwo(HpcArray, HtcArray, [], compress);
  }

  /** With three started `hpc` nodes, the `hpc` node list is what the
      hostlist service makes of their names. */
  lemma FetchWithStartedNodes(compress: seq<string> -> string)
    requires compress(["hpc-100", "hpc-101", "hpc-102"]) == "hpc-10[0-2]"
    ensures FetchPartitions([HpcArray, HtcArray], StartedHpc, compress)
         == [HpcPart.(nodeList := Some("hpc-10[0-2]")), HtcPart]
  {
    StartedOnHpc();
    assert DerivePartition(HpcArray, StartedHpc, compress) == HpcPart.(nodeList := Some("hpc-10[0-2]"));
    assert DerivePartition(HtcArray, StartedHpc, compress) == HtcPart;
    FetchTwo(HpcArray, HtcArray, StartedHpc, compress);
  }

  /** Lowering the Azure scaleset limit to 2 lowers the HPC partition's. */
  lemma FetchSmallerScaleset(compress: seq<string> -> string)
    requires compress(["hpc-100", "hpc-101", "hpc-102"]) == "hpc-10[0-2]"
    ensures var r := FetchPartitions([HpcArray.(maxScalesetSize := Some(2)), HtcArray], StartedHpc, compress);
      Lookup(r, "hpc") == Some(HpcPart.(nodeList := Some("hpc-10[0-2]"), maxScalesetSize := 2))
  {
    var hpc := HpcArray.(maxScalesetSize := Some(2));
    var expected := HpcPart.(nodeList := Some("hpc-10[0-2]"), maxScalesetSize := 2);
    StartedOnHpc();
    assert DerivePartition(hpc, StartedHpc, compress) == expected;
    assert DerivePartition(HtcArray, StartedHpc, compress) == HtcPart;
    FetchTwo(hpc, HtcArray, StartedHpc, compress);
    assert Names([expected, HtcPart]) == ["hpc", "htc"];
  }

  /** With `autoscale` false, or missing, nothing is fetched. */
  lemma FetchAutoscaleOff(compress: seq<string> -> string, autoscale: Option<bool>)
    requires autoscale != Some(true)
    ensures FetchPartitions([HpcArray.(slurm := HpcArray.slurm.(autoscale := autoscale)),
                             HtcArray.(slurm := HtcArray.slurm.(autoscale := autoscale))],
                            StartedHpc, compress) == []
  {
    var status := [HpcArray.(slurm := HpcArray.slurm.(autoscale := autoscale)),
                   HtcArray.(slurm := HtcArray.slurm.(autoscale := autoscale))];
    NothingIncludedNoPartitions(status, StartedHpc, compress);
  }
}
