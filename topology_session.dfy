/** `test_generate_topology` replayed against the mocks: the nodes come from
    the cluster mock's `get_nodes`, and the four `show hostlist` calls queued
    on the subprocess mock are exactly the ones the grouping makes, in switch
    order, so the block exits with nothing left over. */
module TopologySession {
  import opened Wrappers
  import opened Text
  import opened Errors
  import opened Mocks
  import opened Hostlist
  import opened Topology
  import opened TopologyScenarios

  const Pg0Names: seq<string> := ["hpc-pg0-1", "hpc-pg0-2", "hpc-pg0-3"]
  const Pg1Names: seq<string> := ["hpc-pg1-1", "hpc-pg1-2", "hpc-pg1-3"]
  const Pg2Names: seq<string> := ["hpc-pg2-1", "hpc-pg2-2"]
  const HtcNames: seq<string> := ["htc-1", "htc-2", "htc-3", "htc-4", "htc-5", "htc-6", "htc-7", "htc-8"]

  /** The four member lists differ. */
  lemma NamesDiffer()
    ensures Pg0Names != Pg1Names && Pg0Names != Pg2Names && Pg1Names != Pg2Names
    ensures HtcNames != Pg0Names && HtcNames != Pg1Names && HtcNames != Pg2Names
  {
    assert Pg0Names[0][6] != Pg1Names[0][6];
    assert |Pg2Names| != |Pg0Names| && |Pg2Names| != |Pg1Names|;
    assert |HtcNames| != |Pg0Names| && |HtcNames| != |Pg1Names| && |HtcNames| != |Pg2Names|;
  }

  /** The member lists of the started nodes' switches, in switch order. */
  lemma GroupedNames()
    ensures |SwitchOrder(StartedNodes)| == 4
    ensures Members(StartedNodes, SwitchOrder(StartedNodes)[0]) == Pg0Names
    ensures Members(StartedNodes, SwitchOrder(StartedNodes)[1]) == Pg1Names
    ensures Members(StartedNodes, SwitchOrder(StartedNodes)[2]) == Pg2Names
    ensures Members(StartedNodes, SwitchOrder(StartedNodes)[3]) == HtcNames
  {
    After3();
    Pg0Members();
    Pg1Members();
    Pg2Members();
    HtcMembers();
  }

  /** The `show hostlist` replies, one per switch, as the service gives them. */
  method CompressSwitches(sub: MockSubprocess) returns (c0: string, c1: string, c2: string, c3: string)
    requires sub.expectations == [
      Expectation(HostlistArgs(Pg0Names), Some("hpc-pg0-[1-3]")),
      Expectation(HostlistArgs(Pg1Names), Some("hpc-pg1-[1-3]")),
      Expectation(HostlistArgs(Pg2Names), Some("hpc-pg2-[1-2]")),
      Expectation(HostlistArgs(HtcNames), Some("htc-[1-8]")) ]
    modifies sub
    ensures c0 == "hpc-pg0-[1-3]" && c1 == "hpc-pg1-[1-3]" && c2 == "hpc-pg2-[1-2]" && c3 == "htc-[1-8]"
    ensures sub.expectations == []
  {
    GroupedNames();
    var order := SwitchOrder(StartedNodes);
    var r := Compress(sub, Members(StartedNodes, order[0]));
    c0 := r.value;
    r := Compress(sub, Members(StartedNodes, order[1]));
    c1 := r.value;
    r := Compress(sub, Members(StartedNodes, order[2]));
    c2 := r.value;
    r := Compress(sub, Members(StartedNodes, order[3]));
    c3 := r.value;
  }

  /** The whole of `test_generate_topology`: with no started nodes the
      generation fails; once `_started_nodes` holds the sixteen records (with
      `Configuration.slurm.autoscale` already merged in), the four switch
      lines come out, every queued call is made, in order, and the block
      exits cleanly. */
  method TopologySessionRun()
    returns (empty: Result<seq<string>, SlurmError>, lines: Result<seq<string>, SlurmError>, exit: Outcome<MockFailure>)
    ensures empty == Failure(EmptyTopology)
    ensures lines == Success(
      [ SwitchLine(Pg0, "hpc-pg0-[1-3]"),
        SwitchLine(Pg1, "hpc-pg1-[1-3]"),
        SwitchLine(Pg2, "hpc-pg2-[1-2]"),
        SwitchLine("htc", "htc-[1-8]") ])
    ensures exit == Pass
  {
    var cluster := new MockCluster();
    var nodes := cluster.GetNodes();
    var none := (ns: seq<string>) => "";
    empty := GenerateTopology(nodes, none);
    NoNodesNoTopology(none);
    var sub := Queued([
      Expectation(HostlistArgs(Pg0Names), Some("hpc-pg0-[1-3]")),
      Expectation(HostlistArgs(Pg1Names), Some("hpc-pg1-[1-3]")),
      Expectation(HostlistArgs(Pg2Names), Some("hpc-pg2-[1-2]")),
      Expectation(HostlistArgs(HtcNames), Some("htc-[1-8]")) ]);
    cluster.startedNodes := StartedNodes;
    nodes := cluster.GetNodes();
    var c0, c1, c2, c3 := CompressSwitches(sub);
    var compress := (ns: seq<string>) =>
      if ns == Pg0Names then c0 else if ns == Pg1Names then c1 else if ns == Pg2Names then c2 else c3;
    NamesDiffer();
    StartedNodesTopology(compress);
    lines := GenerateTopology(nodes, compress);
    exit := sub.Exit(false);
  }
}
