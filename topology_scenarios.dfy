/** The topology `test_generate_topology` expects, derived from the model:
    three placement groups of the `hpc` nodearray and eight nodes without a
    placement group, all with autoscale on. */
module TopologyScenarios {
  import opened Wrappers
  import opened Cluster
  import opened Errors
  import opened Topology

  const Pg0: string := "hpc-Standard_D2_v2-pg0"
  const Pg1: string := "hpc-Standard_D2_v2-pg1"
  const Pg2: string := "hpc-Standard_D2_v2-pg2"

  const Pg0Run: seq<Node> :=
    [ Node("hpc-pg0-1", None, Some(Pg0), None, true, None, None, None),
      Node("hpc-pg0-2", None, Some(Pg0), None, true, None, None, None),
      Node("hpc-pg0-3", None, Some(Pg0), None, true, None, None, None) ]
  const Pg1Run: seq<Node> :=
    [ Node("hpc-pg1-1", None, Some(Pg1), None, true, None, None, None),
      Node("hpc-pg1-2", None, Some(Pg1), None, true, None, None, None),
      Node("hpc-pg1-3", None, Some(Pg1), None, true, None, None, None) ]
  const Pg2Run: seq<Node> :=
    [ Node("hpc-pg2-1", None, Some(Pg2), None, true, None, None, None),
      Node("hpc-pg2-2", None, Some(Pg2), None, true, None, None, None) ]
  /** Nodes without a placement group. */
  const HtcRun: seq<Node> :=
    [ Node("htc-1", None, None, None, true, None, None, None),
      Node("htc-2", None, None, None, true, None, None, None),
      Node("htc-3", None, None, None, true, None, None, None),
      Node("htc-4", None, None, None, true, None, None, None),
      Node("htc-5", None, None, None, true, None, None, None),
      Node("htc-6", None, None, None, true, None, None, None),
      Node("htc-7", None, None, None, true, None, None, None),
      Node("htc-8", None, None, None, true, None, None, None) ]

  const StartedNodes: seq<Node> := Pg0Run + Pg1Run + Pg2Run + HtcRun

  /** With no nodes there is no topology. */
  lemma NoNodesNoTopology(compress: seq<string> -> string)
    ensures TopologyLines([], compress) == Failure(EmptyTopology)
  {
  }

  lemma Pg0Names()
    ensures forall i :: 0 <= i < |Pg0Run| ==> Pg0Run[i].autoscale && SwitchOf(Pg0Run[i]) == Pg0
    ensures NodeNames(Pg0Run) == ["hpc-pg0-1", "hpc-pg0-2", "hpc-pg0-3"]
  {
  }

  lemma Pg1Names()
    ensures forall i :: 0 <= i < |Pg1Run| ==> Pg1Run[i].autoscale && SwitchOf(Pg1Run[i]) == Pg1
    ensures NodeNames(Pg1Run) == ["hpc-pg1-1", "hpc-pg1-2", "hpc-pg1-3"]
  {
  }

  lemma Pg2Names()
    ensures forall i :: 0 <= i < |Pg2Run| ==> Pg2Run[i].autoscale && SwitchOf(Pg2Run[i]) == Pg2
    ensures NodeNames(Pg2Run) == ["hpc-pg2-1", "hpc-pg2-2"]
  {
  }

  lemma HtcNames()
    ensures forall i :: 0 <= i < |HtcRun| ==> HtcRun[i].autoscale && SwitchOf(HtcRun[i]) == ImplicitSwitch
    ensures NodeNames(HtcRun) == ["htc-1", "htc-2", "htc-3", "htc-4", "htc-5", "htc-6", "htc-7", "htc-8"]
  {
  }

  /** The switches are four different names. */
  lemma SwitchesDiffer()
    ensures Pg0 != Pg1 && Pg0 != Pg2 && Pg1 != Pg2
    ensures ImplicitSwitch != Pg0 && ImplicitSwitch != Pg1 && ImplicitSwitch != Pg2
  {
    assert Pg0[21] != Pg1[21] && Pg0[21] != Pg2[21] && Pg1[21] != Pg2[21];
    assert ImplicitSwitch[1] != Pg0[1] && ImplicitSwitch[1] != Pg1[1] && ImplicitSwitch[1] != Pg2[1];
  }

  const Upto1: seq<Node> := Pg0Run + Pg1Run
  const Upto2: seq<Node> := Upto1 + Pg2Run

  lemma After0()
    ensures SwitchOrder(Pg0Run) == [Pg0]
    ensures forall k :: Members(Pg0Run, k) == if k == Pg0 then NodeNames(Pg0Run) else []
  {
    Pg0Names();
    assert [] + Pg0Run == Pg0Run;
    RunOnOneSwitch([], Pg0Run, Pg0);
  }

  lemma After1()
    ensures SwitchOrder(Upto1) == [Pg0, Pg1]
    ensures forall k :: (Members(Upto1, k)
      == if k == Pg0 then NodeNames(Pg0Run) else if k == Pg1 then NodeNames(Pg1Run) else [])
  {
    After0();
    Pg1Names();
    SwitchesDiffer();
    assert Pg1 !in SwitchOrder(Pg0Run);
    RunOnOneSwitch(Pg0Run, Pg1Run, Pg1);
    assert SwitchOrder(Upto1) == [Pg0] + [Pg1];
  }

  lemma After2()
    ensures SwitchOrder(Upto2) == [Pg0, Pg1, Pg2]
    ensures forall k :: (Members(Upto2, k)
      == if k == Pg0 then NodeNames(Pg0Run) else if k == Pg1 then NodeNames(Pg1Run)
         else if k == Pg2 then NodeNames(Pg2Run) else [])
  {
    After1();
    Pg2Names();
    SwitchesDiffer();
    RunOnOneSwitch(Upto1, Pg2Run, Pg2);
  }

  lemma After3()
    ensures SwitchOrder(StartedNodes) == [Pg0, Pg1, Pg2, ImplicitSwitch]
    ensures forall k :: (Members(StartedNodes, k)
      == if k == Pg0 then NodeNames(Pg0Run) else if k == Pg1 then NodeNames(Pg1Run)
         else if k == Pg2 then NodeNames(Pg2Run) else if k == ImplicitSwitch then NodeNames(HtcRun) else [])
  {
    After2();
    HtcNames();
    SwitchesDiffer();
    assert StartedNodes == Upto2 + HtcRun;
    RunOnOneSwitch(Upto2, HtcRun, ImplicitSwitch);
  }

  lemma Pg0Members()
    ensures Members(StartedNodes, Pg0) == ["hpc-pg0-1", "hpc-pg0-2", "hpc-pg0-3"]
  {
    After3();
    Pg0Names();
  }

  lemma Pg1Members()
    ensures Members(StartedNodes, Pg1) == ["hpc-pg1-1", "hpc-pg1-2", "hpc-pg1-3"]
  {
    After3();
    Pg1Names();
    SwitchesDiffer();
  }

  lemma Pg2Members()
    ensures Members(StartedNodes, Pg2) == ["hpc-pg2-1", "hpc-pg2-2"]
  {
    After3();
    Pg2Names();
    SwitchesDiffer();
  }

  lemma HtcMembers()
    ensures Members(StartedNodes, ImplicitSwitch)
         == ["htc-1", "htc-2", "htc-3", "htc-4", "htc-5", "htc-6", "htc-7", "htc-8"]
  {
    After3();
    HtcNames();
    SwitchesDiffer();
  }

  /** Four switches with known members give four lines, in switch order. */
  lemma FourLines(nodes: seq<Node>, compress: seq<string> -> string, k: seq<string>, m: seq<seq<string>>)
    requires |k| == 4 && |m| == 4 && SwitchOrder(nodes) == k
    requires forall i :: 0 <= i < 4 ==> Members(nodes, k[i]) == m[i]
    ensures TopologyLines(nodes, compress) == Success(
      [ SwitchLine(k[0], compress(m[0])), SwitchLine(k[1], compress(m[1])),
        SwitchLine(k[2], compress(m[2])), SwitchLine(k[3], compress(m[3])) ])
  {
    var r := TopologyLines(nodes, compress);
    var expected := [ SwitchLine(k[0], compress(m[0])), SwitchLine(k[1], compress(m[1])),
                      SwitchLine(k[2], compress(m[2])), SwitchLine(k[3], compress(m[3])) ];
    assert r.Success? && |r.value| == 4;
    assert forall i :: 0 <= i < 4 ==> r.value[i] == expected[i];
    assert r.value == expected;
  }

  /** The four `SwitchName` lines, given the hostlist service's answers. */
  lemma StartedNodesTopology(compress: seq<string> -> string)
    requires compress(["hpc-pg0-1", "hpc-pg0-2", "hpc-pg0-3"]) == "hpc-pg0-[1-3]"
    requires compress(["hpc-pg1-1", "hpc-pg1-2", "hpc-pg1-3"]) == "hpc-pg1-[1-3]"
    requires compress(["hpc-pg2-1", "hpc-pg2-2"]) == "hpc-pg2-[1-2]"
    requires compress(["htc-1", "htc-2", "htc-3", "htc-4", "htc-5", "htc-6", "htc-7", "htc-8"]) == "htc-[1-8]"
    ensures TopologyLines(StartedNodes, compress) == Success(
      [ SwitchLine(Pg0, "hpc-pg0-[1-3]"),
        SwitchLine(Pg1, "hpc-pg1-[1-3]"),
        SwitchLine(Pg2, "hpc-pg2-[1-2]"),
        SwitchLine("htc", "htc-[1-8]") ])
  {
    After3();
    Pg0Members();
    Pg1Members();
    Pg2Members();
    HtcMembers();
    var m := [ ["hpc-pg0-1", "hpc-pg0-2", "hpc-pg0-3"], ["hpc-pg1-1", "hpc-pg1-2", "hpc-pg1-3"],
               ["hpc-pg2-1", "hpc-pg2-2"], ["htc-1", "htc-2", "htc-3", "htc-4", "htc-5", "htc-6", "htc-7", "htc-8"] ];
    FourLines(StartedNodes, compress, [Pg0, Pg1, Pg2, ImplicitSwitch], m);
  }
}
