/** The configuration `test_generate_slurm_conf` expects, derived from the
    model: an HPC partition of 128 GiB machines dampened by 2% whose 8 hosts
    go out in runs of 3, and a non-HPC partition of 3.5 GiB machines with
    the default 5% whose 8 hosts fit one run. */
module SlurmConfScenarios {
  import opened Wrappers
  import opened Text
  import opened Cluster
  import opened Partitions
  import opened SlurmConf

  const Hpc: Partition :=
    Partition("custom_partition_name", "hpc", "", "Standard_D2_v2", true, true, 3,
              VirtualMachine(4, 2, 0, 128.0), 8, 0.02, true, Some("hpc-10[1-8]"))
  const Htc: Partition :=
    Partition("htc", "htc", "Standard_D2_v3", "pre-", false, false, 100,
              VirtualMachine(2, 1, 0, 3.5), 8, DefaultDampenMemory, false, Some("pre-htc-[1-8]"))

  const HpcHosts: seq<string> :=
    ["hpc-101", "hpc-102", "hpc-103", "hpc-104", "hpc-105", "hpc-106", "hpc-107", "hpc-108"]
  const HtcHosts: seq<string> :=
    ["pre-htc-1", "pre-htc-2", "pre-htc-3", "pre-htc-4", "pre-htc-5", "pre-htc-6", "pre-htc-7", "pre-htc-8"]

  /** What the hostlist service answers in the test. */
  predicate HostlistAnswers(expand: string -> seq<string>, compress: seq<string> -> string)
  {
    && expand("hpc-10[1-8]") == HpcHosts
    && expand("pre-htc-[1-8]") == HtcHosts
    && compress(HpcHosts[..3]) == "hpc-10[1-3]"
    && compress(HpcHosts[3..6]) == "hpc-10[4-6]"
    && compress(HpcHosts[6..]) == "hpc-10[7-8]"
    && compress(HtcHosts) == "pre-htc-[1-8]"
  }

  lemma HpcMemory()
    ensures MemoryMiB(Hpc) == 131072 && MemoryReduction(Hpc) == 2621
    ensures RealMemory(Hpc) == 128450 && CpuCount(Hpc) == 2 && ThreadsPerCore(Hpc) == 2
    ensures DefMemPerCpu(Hpc) == 64225 && DampenPercent(Hpc) == 2
  {
    assert (128.0 * 1024.0 * 0.02).Floor == 2621;
  }

  lemma HtcMemory()
    ensures MemoryMiB(Htc) == 3584 && MemoryReduction(Htc) == 1024
    ensures RealMemory(Htc) == 2560 && CpuCount(Htc) == 2 && ThreadsPerCore(Htc) == 1
    ensures DefMemPerCpu(Htc) == 1280 && DampenPercent(Htc) == 5
  {
    assert (3.5 * 1024.0 * 0.05).Floor == 179;
  }

  lemma HpcRuns()
    ensures Chunks(HpcHosts, 3) == [HpcHosts[..3], HpcHosts[3..6], HpcHosts[6..]]
  {
    var tail := HpcHosts[3..];
    assert tail[3..] == HpcHosts[6..] && tail[..3] == HpcHosts[3..6];
    assert Chunks(HpcHosts[6..], 3) == [HpcHosts[6..]];
  }

  lemma HtcRuns()
    ensures Chunks(HtcHosts, 100) == [HtcHosts]
  {
  }

  lemma HpcStanza(expand: string -> seq<string>, compress: seq<string> -> string)
    requires HostlistAnswers(expand, compress)
    ensures Renderable(Hpc)
    ensures PartitionStanza(Hpc, expand, compress) ==
      [ OverheadNote(131072, 2621, 2), RejectionNote, DampenNote,
        PartitionName("custom_partition_name", "hpc-10[1-8]", true, 64225),
        Nodename("hpc-10[1-3]", 2, 2, 128450),
        Nodename("hpc-10[4-6]", 2, 2, 128450),
        Nodename("hpc-10[7-8]", 2, 2, 128450) ]
  {
    HpcMemory();
    HpcRuns();
    assert Hosts(Hpc, expand) == HpcHosts;
    assert Header(Hpc) ==
      [ OverheadNote(131072, 2621, 2), RejectionNote, DampenNote,
        PartitionName("custom_partition_name", "hpc-10[1-8]", true, 64225) ];
    assert NodenameLines(Hpc, Chunks(HpcHosts, 3), compress) ==
      [ Nodename("hpc-10[1-3]", 2, 2, 128450), Nodename("hpc-10[4-6]", 2, 2, 128450),
        Nodename("hpc-10[7-8]", 2, 2, 128450) ];
  }

  lemma HtcStanza(expand: string -> seq<string>, compress: seq<string> -> string)
    requires HostlistAnswers(expand, compress)
    ensures Renderable(Htc)
    ensures PartitionStanza(Htc, expand, compress) ==
      [ OverheadNote(3584, 1024, 5), RejectionNote, DampenNote,
        PartitionName("htc", "pre-htc-[1-8]", false, 1280),
        Nodename("pre-htc-[1-8]", 2, 1, 2560) ]
  {
    HtcMemory();
    HtcRuns();
    assert Hosts(Htc, expand) == HtcHosts;
    assert Header(Htc) ==
      [ OverheadNote(3584, 1024, 5), RejectionNote, DampenNote,
        PartitionName("htc", "pre-htc-[1-8]", false, 1280) ];
    assert NodenameLines(Htc, Chunks(HtcHosts, 100), compress) == [Nodename("pre-htc-[1-8]", 2, 1, 2560)];
  }

  /** The lines, before rendering: each partition's stanza, in mapping order. */
  lemma ConfLines(expand: string -> seq<string>, compress: seq<string> -> string)
    requires HostlistAnswers(expand, compress)
    ensures Renderable(Hpc) && Renderable(Htc)
    ensures SlurmConfLines([Hpc, Htc], expand, compress) ==
      [ OverheadNote(131072, 2621, 2), RejectionNote, DampenNote,
        PartitionName("custom_partition_name", "hpc-10[1-8]", true, 64225),
        Nodename("hpc-10[1-3]", 2, 2, 128450),
        Nodename("hpc-10[4-6]", 2, 2, 128450),
        Nodename("hpc-10[7-8]", 2, 2, 128450),
        OverheadNote(3584, 1024, 5), RejectionNote, DampenNote,
        PartitionName("htc", "pre-htc-[1-8]", false, 1280),
        Nodename("pre-htc-[1-8]", 2, 1, 2560) ]
  {
    HpcStanza(expand, compress);
    HtcStanza(expand, compress);
    var f := StanzaOf(expand, compress);
    StanzaOfRenderable(Hpc, expand, compress);
    StanzaOfRenderable(Htc, expand, compress);
    var ps := [Hpc, Htc];
    assert ps[..1] == [Hpc] && [Hpc][..0] == [];
    assert ConcatMap([Hpc], f) == f(Hpc);
    assert ConcatMap(ps, f) == f(Hpc) + f(Htc);
  }

  lemma Digits131072() ensures IntToString(131072) == "131072" { }
  lemma Digits2621() ensures IntToString(2621) == "2621" { }
  lemma Digits64225() ensures IntToString(64225) == "64225" { }
  lemma Digits128450() ensures IntToString(128450) == "128450" { }
  lemma Digits3584() ensures IntToString(3584) == "3584" { }
  lemma Digits1024() ensures IntToString(1024) == "1024" { }
  lemma Digits1280() ensures IntToString(1280) == "1280" { }
  lemma Digits2560() ensures IntToString(2560) == "2560" { }
  lemma SmallDigits()
    ensures IntToString(2) == "2" && IntToString(5) == "5"
    ensures NatToString(2) == "2" && NatToString(1) == "1"
  { }

  lemma HpcNotePieces()
    ensures Render(OverheadNote(131072, 2621, 2)) ==
      "# Note: CycleCloud reported a RealMemory of " + "131072" + " but we reduced it by " + "2621" + " (i.e. max(1gb, " + "2" + "%)) to account for OS/VM overhead which"
  {
    Digits131072();
    Digits2621();
    SmallDigits();
  }

  lemma HtcNotePieces()
    ensures Render(OverheadNote(3584, 1024, 5)) ==
      "# Note: CycleCloud reported a RealMemory of " + "3584" + " but we reduced it by " + "1024" + " (i.e. max(1gb, " + "5" + "%)) to account for OS/VM overhead which"
  {
    Digits3584();
    Digits1024();
    SmallDigits();
  }

  lemma HpcPartitionPieces()
    ensures Render(PartitionName("custom_partition_name", "hpc-10[1-8]", true, 64225)) ==
      "PartitionName=" + "custom_partition_name" + " Nodes=" + "hpc-10[1-8]" + " Default=" + "YES" + " DefMemPerCPU=" + "64225" + " MaxTime=INFINITE State=UP"
  {
    Digits64225();
  }

  lemma HtcPartitionPieces()
    ensures Render(PartitionName("htc", "pre-htc-[1-8]", false, 1280)) ==
      "PartitionName=" + "htc" + " Nodes=" + "pre-htc-[1-8]" + " Default=" + "NO" + " DefMemPerCPU=" + "1280" + " MaxTime=INFINITE State=UP"
  {
    Digits1280();
  }

  lemma HpcNodename13Pieces()
    ensures Render(Nodename("hpc-10[1-3]", 2, 2, 128450)) ==
      "Nodename=" + "hpc-10[1-3]" + " Feature=cloud state=CLOUD CPUs=" + "2" + " ThreadsPerCore=" + "2" + " RealMemory=" + "128450"
  {
    Digits128450();
    SmallDigits();
  }

  lemma HpcNodename46Pieces()
    ensures Render(Nodename("hpc-10[4-6]", 2, 2, 128450)) ==
      "Nodename=" + "hpc-10[4-6]" + " Feature=cloud state=CLOUD CPUs=" + "2" + " ThreadsPerCore=" + "2" + " RealMemory=" + "128450"
  {
    Digits128450();
    SmallDigits();
  }

  lemma HpcNodename78Pieces()
    ensures Render(Nodename("hpc-10[7-8]", 2, 2, 128450)) ==
      "Nodename=" + "hpc-10[7-8]" + " Feature=cloud state=CLOUD CPUs=" + "2" + " ThreadsPerCore=" + "2" + " RealMemory=" + "128450"
  {
    Digits128450();
    SmallDigits();
  }

  lemma HtcNodenamePieces()
    ensures Render(Nodename("pre-htc-[1-8]", 2, 1, 2560)) ==
      "Nodename=" + "pre-htc-[1-8]" + " Feature=cloud state=CLOUD CPUs=" + "2" + " ThreadsPerCore=" + "1" + " RealMemory=" + "2560"
  {
    Digits2560();
    SmallDigits();
  }

  /** The text the test expects for the HPC partition, split into the
      note with the partition line and the node lines. */
  const HpcHeaderText: seq<string> :=
    [ "# Note: CycleCloud reported a RealMemory of " + "131072" + " but we reduced it by " + "2621" + " (i.e. max(1gb, " + "2" + "%)) to account for OS/VM overhead which",
      "# would result in the nodes being rejected by Slurm if they report a number less than defined here.",
      "# To pick a different percentage to dampen, set slurm.dampen_memory=X in the nodearray's Configuration where X is percentage (5 = 5%).",
      "PartitionName=" + "custom_partition_name" + " Nodes=" + "hpc-10[1-8]" + " Default=" + "YES" + " DefMemPerCPU=" + "64225" + " MaxTime=INFINITE State=UP" ]
  const HpcNodesText: seq<string> :=
    [ "Nodename=" + "hpc-10[1-3]" + " Feature=cloud state=CLOUD CPUs=" + "2" + " ThreadsPerCore=" + "2" + " RealMemory=" + "128450",
      "Nodename=" + "hpc-10[4-6]" + " Feature=cloud state=CLOUD CPUs=" + "2" + " ThreadsPerCore=" + "2" + " RealMemory=" + "128450",
      "Nodename=" + "hpc-10[7-8]" + " Feature=cloud state=CLOUD CPUs=" + "2" + " ThreadsPerCore=" + "2" + " RealMemory=" + "128450" ]
  /** The text the test expects for the non-HPC partition. */
  const HtcText: seq<string> :=
    [ "# Note: CycleCloud reported a RealMemory of " + "3584" + " but we reduced it by " + "1024" + " (i.e. max(1gb, " + "5" + "%)) to account for OS/VM overhead which",
      "# would result in the nodes being rejected by Slurm if they report a number less than defined here.",
      "# To pick a different percentage to dampen, set slurm.dampen_memory=X in the nodearray's Configuration where X is percentage (5 = 5%).",
      "PartitionName=" + "htc" + " Nodes=" + "pre-htc-[1-8]" + " Default=" + "NO" + " DefMemPerCPU=" + "1280" + " MaxTime=INFINITE State=UP",
      "Nodename=" + "pre-htc-[1-8]" + " Feature=cloud state=CLOUD CPUs=" + "2" + " ThreadsPerCore=" + "1" + " RealMemory=" + "2560" ]

  lemma HpcHeaderRendered()
    ensures RenderAll(
      [ OverheadNote(131072, 2621, 2), RejectionNote, DampenNote,
        PartitionName("custom_partition_name", "hpc-10[1-8]", true, 64225) ]) == HpcHeaderText
  {
    HpcNotePieces();
    HpcPartitionPieces();
  }

  lemma HpcNodesRendered()
    ensures RenderAll(
      [ Nodename("hpc-10[1-3]", 2, 2, 128450),
        Nodename("hpc-10[4-6]", 2, 2, 128450),
        Nodename("hpc-10[7-8]", 2, 2, 128450) ]) == HpcNodesText
  {
    HpcNodename13Pieces();
    HpcNodename46Pieces();
    HpcNodename78Pieces();
  }

  lemma HtcRendered()
    ensures RenderAll(
      [ OverheadNote(3584, 1024, 5), RejectionNote, DampenNote,
        PartitionName("htc", "pre-htc-[1-8]", false, 1280),
        Nodename("pre-htc-[1-8]", 2, 1, 2560) ]) == HtcText
  {
    HtcNotePieces();
    HtcPartitionPieces();
    HtcNodenamePieces();
  }

  /** The text of the configuration, line by line as the test expects it;
      each line is written as its fixed text and the values spliced in. */
  lemma ConfText(expand: string -> seq<string>, compress: seq<string> -> string)
    requires HostlistAnswers(expand, compress)
    ensures Renderable(Hpc) && Renderable(Htc)
    ensures RenderAll(SlurmConfLines([Hpc, Htc], expand, compress)) == HpcHeaderText + HpcNodesText + HtcText
  {
    ConfLines(expand, compress);
    var header := [ OverheadNote(131072, 2621, 2), RejectionNote, DampenNote,
                    PartitionName("custom_partition_name", "hpc-10[1-8]", true, 64225) ];
    var nodes := [ Nodename("hpc-10[1-3]", 2, 2, 128450),
                   Nodename("hpc-10[4-6]", 2, 2, 128450),
                   Nodename("hpc-10[7-8]", 2, 2, 128450) ];
    var htc := [ OverheadNote(3584, 1024, 5), RejectionNote, DampenNote,
                 PartitionName("htc", "pre-htc-[1-8]", false, 1280),
                 Nodename("pre-htc-[1-8]", 2, 1, 2560) ];
    assert SlurmConfLines([Hpc, Htc], expand, compress) == header + nodes + htc;
    RenderAllAppend(header + nodes, htc);
    RenderAllAppend(header, nodes);
    HpcHeaderRendered();
    HpcNodesRendered();
    HtcRendered();
  }
}
