/** `test_fetch_partitions` replayed against the mocks: the nodearrays come
    from the cluster mock's `get_cluster_status` and the nodes from its
    `get_nodes`. Only a nodearray that is a partition and has nodes asks the
    hostlist service for its node list, so the two queued `show hostlist`
    calls are the two made, and the block exits with nothing left over. */
module FetchSession {
  import opened Wrappers
  import opened Cluster
  import opened Partitions
  import opened Fetch
  import opened FetchScenarios
  import opened Mocks
  import opened Hostlist

  const HpcNames: seq<string> := ["hpc-100", "hpc-101", "hpc-102"]

  /** The node list of one nodearray as fetching obtains it: nothing is
      asked when the nodearray has no nodes; otherwise its node names are
      compressed through the subprocess module. */
  method NodeListOf(sub: MockSubprocess, nodes: seq<Node>, nodearray: string)
    returns (r: Result<Option<string>, MockFailure>)
    modifies sub
    ensures NodeNamesOf(nodes, nodearray) == [] ==> r == Success(None) && sub.expectations == old(sub.expectations)
    ensures NodeNamesOf(nodes, nodearray) != [] ==>
      var (reply, left) := Serve(old(sub.expectations), HostlistArgs(NodeNamesOf(nodes, nodearray)));
      sub.expectations == left
      && (reply.Success? && reply.value.Some? ==> r == Success(reply.value))
      && (reply.Failure? || reply.value.None? ==> r.Failure?)
  {
    var names := NodeNamesOf(nodes, nodearray);
    if names == [] {
      return Success(None);
    }
    var c := Compress(sub, names);
    if c.Failure? {
      return Failure(c.error);
    }
    r := Success(Some(c.value));
  }

  /** The status and nodes the cluster mock reports. */
  method Observe(cluster: MockCluster) returns (status: seq<NodearrayStatus>, nodes: seq<Node>)
    requires cluster.clusterStatusResponse.Some?
    ensures status == cluster.clusterStatusResponse.value && nodes == cluster.startedNodes
  {
    var st := cluster.GetClusterStatus(cluster.name);
    status := st.value.value;
    nodes := cluster.GetNodes();
  }

  /** A fetch before any node is started asks for no node list. */
  method FetchBeforeNodes(cluster: MockCluster, sub: MockSubprocess) returns (r: PartitionMap)
    requires cluster.clusterStatusResponse == Some([HpcArray, HtcArray]) && cluster.startedNodes == []
    modifies sub
    ensures r == [HpcPart, HtcPart]
    ensures sub.expectations == old(sub.expectations)
  {
    var status, nodes := Observe(cluster);
    var hpcList := NodeListOf(sub, nodes, "hpc");
    var htcList := NodeListOf(sub, nodes, "htc");
    assert hpcList == Success(None) && htcList == Success(None);
    var none := (ns: seq<string>) => "";
    FetchWithoutNodes(none);
    r := FetchPartitions(status, nodes, none);
  }

  /** A fetch with the three `hpc` nodes started compresses their names once,
      for `hpc`, taking the one queued reply. */
  method FetchWithNodes(cluster: MockCluster, sub: MockSubprocess, hpc: NodearrayStatus) returns (r: PartitionMap)
    requires hpc == HpcArray || hpc == SmallerHpc
    requires cluster.clusterStatusResponse == Some([hpc, HtcArray]) && cluster.startedNodes == StartedHpc
    requires sub.expectations == [Expectation(HostlistArgs(HpcNames), Some("hpc-10[0-2]"))]
    modifies sub
    ensures hpc == HpcArray ==> r == [HpcPart.(nodeList := Some("hpc-10[0-2]")), HtcPart]
    ensures UniqueNames(r)
    ensures hpc != HpcArray ==> Lookup(r, "hpc") == Some(HpcPart.(nodeList := Some("hpc-10[0-2]"), maxScalesetSize := 2))
    ensures sub.expectations == []
  {
    StartedOnHpc();
    var status, nodes := Observe(cluster);
    var hpcList := NodeListOf(sub, nodes, "hpc");
    var htcList := NodeListOf(sub, nodes, "htc");
    var compress := (ns: seq<string>) => if ns == HpcNames then hpcList.value.value else "";
    if hpc == HpcArray {
      FetchWithStartedNodes(compress);
    } else {
      FetchSmallerScaleset(compress);
    }
    r := FetchPartitions(status, nodes, compress);
  }

  /** With autoscale on no nodearray, nothing is fetched and no node list is
      asked for. */
  method FetchNothing(cluster: MockCluster) returns (r: PartitionMap)
    requires cluster.clusterStatusResponse.Some?
    requires forall i :: 0 <= i < |cluster.clusterStatusResponse.value| ==> !Included(cluster.clusterStatusResponse.value[i])
    ensures r == []
  {
    var status, nodes := Observe(cluster);
    var none := (ns: seq<string>) => "";
    NothingIncludedNoPartitions(status, nodes, none);
    r := FetchPartitions(status, nodes, none);
  }

  /** The `hpc` nodearray once its Azure scaleset limit is lowered to 2. */
  const SmallerHpc: NodearrayStatus := HpcArray.(maxScalesetSize := Some(2))

  /** The second and third fetches: three `hpc` nodes are started, and then
      the scaleset limit is lowered; each fetch takes its own queued reply. */
  method StartedFetches(cluster: MockCluster, sub: MockSubprocess) returns (second: PartitionMap, third: PartitionMap)
    requires cluster.clusterStatusResponse == Some([HpcArray, HtcArray]) && sub.expectations == []
    modifies cluster, sub
    ensures second == [HpcPart.(nodeList := Some("hpc-10[0-2]")), HtcPart]
    ensures UniqueNames(third)
    ensures Lookup(third, "hpc") == Some(HpcPart.(nodeList := Some("hpc-10[0-2]"), maxScalesetSize := 2))
    ensures cluster.clusterStatusResponse == Some([SmallerHpc, HtcArray]) && sub.expectations == []
  {
    cluster.startedNodes := StartedHpc;
    sub.Expect(HostlistArgs(HpcNames), Some("hpc-10[0-2]"));
    second := FetchWithNodes(cluster, sub, HpcArray);

    sub.Expect(HostlistArgs(HpcNames), Some("hpc-10[0-2]"));
    cluster.clusterStatusResponse := Some([SmallerHpc, HtcArray]);
    third := FetchWithNodes(cluster, sub, SmallerHpc);
  }

  /** The last two fetches: `autoscale` switched off, then its key removed,
      on both nodearrays. */
  method DisabledFetches(cluster: MockCluster) returns (off: PartitionMap, missing: PartitionMap)
    modifies cluster
    ensures off == [] && missing == []
  {
    var offHpc := SmallerHpc.(slurm := SmallerHpc.slurm.(autoscale := Some(false)));
    var offHtc := HtcArray.(slurm := HtcArray.slurm.(autoscale := Some(false)));
    cluster.clusterStatusResponse := Some([offHpc, offHtc]);
    off := FetchNothing(cluster);

    var noHpc := SmallerHpc.(slurm := SmallerHpc.slurm.(autoscale := None));
    var noHtc := HtcArray.(slurm := HtcArray.slurm.(autoscale := None));
    cluster.clusterStatusResponse := Some([noHpc, noHtc]);
    missing := FetchNothing(cluster);
  }

  /** The whole of `test_fetch_partitions`: the five fetches give what the
      test asserts, making exactly the queued hostlist calls, and the block
      exits cleanly. */
  method FetchSessionRun()
    returns (first: PartitionMap, second: PartitionMap, third: PartitionMap,
             off: PartitionMap, missing: PartitionMap, exit: Outcome<MockFailure>)
    ensures first == [HpcPart, HtcPart]
    ensures second == [HpcPart.(nodeList := Some("hpc-10[0-2]")), HtcPart]
    ensures UniqueNames(third)
    ensures Lookup(third, "hpc") == Some(HpcPart.(nodeList := Some("hpc-10[0-2]"), maxScalesetSize := 2))
    ensures off == [] && missing == []
    ensures exit == Pass
  {
    var cluster := new MockCluster();
    var sub := new MockSubprocess();
    cluster.clusterStatusResponse := Some([HpcArray, HtcArray]);
    first := FetchBeforeNodes(cluster, sub);
    second, third := StartedFetches(cluster, sub);
    off, missing := DisabledFetches(cluster);
    exit := sub.Exit(false);
  }
}
