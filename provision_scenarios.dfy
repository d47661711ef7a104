/** The requests `test_create_nodes` expects, derived from the model: an HPC
    partition of 8 nodes in scalesets of 3 and a non-HPC partition of 8,
    first with no nodes, then with 8 existing HPC nodes and capacity 9. */
module ProvisionScenarios {
  import opened Wrappers
  import opened Text
  import opened Cluster
  import opened Partitions
  import opened Errors
  import opened Provision

  const Shape: VirtualMachine := VirtualMachine(2, 2, 0, 4.0)

  const Hpc: Partition :=
    Partition("hpc", "hpc", "", "Standard_D2_v2", true, true, 3, Shape, 8, DefaultDampenMemory, true, None)
  const Htc: Partition :=
    Partition("htc", "htc", "pre-", "Standard_D2_v2", false, false, 100, Shape, 8, DefaultDampenMemory, true, None)

  const Pg0: RequestSet :=
    RequestSet(3, "hpc-pg0-%d", 1, "Standard_D2_v2", false, true, "hpc", Some("hpc-Standard_D2_v2-pg0"))
  const Pg1: RequestSet :=
    RequestSet(3, "hpc-pg1-%d", 1, "Standard_D2_v2", false, true, "hpc", Some("hpc-Standard_D2_v2-pg1"))
  const Pg2: RequestSet :=
    RequestSet(2, "hpc-pg2-%d", 1, "Standard_D2_v2", false, true, "hpc", Some("hpc-Standard_D2_v2-pg2"))
  const HtcAll: RequestSet :=
    RequestSet(8, "pre-htc-%d", 1, "Standard_D2_v2", false, true, "htc", None)

  lemma HpcPlan()
    ensures Plan(Hpc) == [3, 3, 2]
  {
    assert BatchSizes(2, 3) == [2];
    assert BatchSizes(5, 3) == [3, 2];
  }

  /** Batch `i` of an unprefixed HPC `hpc` nodearray of `Standard_D2_v2`
      machines, spelled out with the batch number's digits. */
  lemma HpcSet(p: Partition, i: nat, count: nat, offset: nat, digits: string)
    requires p.nodearray == "hpc" && p.nodeNamePrefix == "" && p.machineType == "Standard_D2_v2" && p.isHpc
    requires NatToString(i) == digits
    ensures MakeSet(p, i, count, offset)
      == RequestSet(count, "hpc-pg" + digits + "-%d", offset, "Standard_D2_v2", false, true, "hpc",
                    Some("hpc-Standard_D2_v2-pg" + digits))
  {
    assert NameStem(p, i) == "hpc" + "-pg" + digits + "-";
    assert NameFormat(p, i) == "hpc-pg" + digits + "-%d";
    assert PlacementGroupId(p, i) == "hpc" + "-" + "Standard_D2_v2" + "-pg" + digits;
    assert PlacementGroupId(p, i) == "hpc-Standard_D2_v2-pg" + digits;
  }

  lemma Pg0Set() ensures MakeSet(Hpc, 0, 3, 1) == Pg0
  {
    assert NatToString(0) == "0";
    HpcSet(Hpc, 0, 3, 1, "0");
    assert "hpc-pg" + "0" + "-%d" == "hpc-pg0-%d";
    assert "hpc-Standard_D2_v2-pg" + "0" == "hpc-Standard_D2_v2-pg0";
  }

  lemma Pg1Set() ensures MakeSet(Hpc, 1, 3, 1) == Pg1
  {
    assert NatToString(1) == "1";
    HpcSet(Hpc, 1, 3, 1, "1");
    assert "hpc-pg" + "1" + "-%d" == "hpc-pg1-%d";
    assert "hpc-Standard_D2_v2-pg" + "1" == "hpc-Standard_D2_v2-pg1";
  }

  lemma Pg2Set() ensures MakeSet(Hpc, 2, 2, 1) == Pg2
  {
    assert NatToString(2) == "2";
    HpcSet(Hpc, 2, 2, 1, "2");
    assert "hpc-pg" + "2" + "-%d" == "hpc-pg2-%d";
    assert "hpc-Standard_D2_v2-pg" + "2" == "hpc-Standard_D2_v2-pg2";
  }

  lemma HpcFreshSets()
    ensures FreshSets(Hpc, [3, 3, 2], 3) == [Pg0, Pg1, Pg2]
  {
    HpcPlan();
    Pg0Set();
    Pg1Set();
    Pg2Set();
    var f := FreshSets(Hpc, [3, 3, 2], 3);
    assert f[0] == Pg0 && f[1] == Pg1 && f[2] == Pg2;
  }

  lemma HpcFirstRequest(policy: ExistingNodePolicy)
    ensures PartitionRequest(Hpc, [], policy) == Success([Pg0, Pg1, Pg2])
  {
    HpcPlan();
    HpcFreshSets();
    assert NonEmptyBatches([3, 3, 2]);
    NoExistingRequestsEveryBatch(Hpc, [3, 3, 2], [], policy, 3);
  }

  lemma HtcFirstRequest(policy: ExistingNodePolicy)
    ensures PartitionRequest(Htc, [], policy) == Success([HtcAll])
  {
    assert Plan(Htc) == [8] && NonEmptyBatches([8]);
    NoExistingRequestsEveryBatch(Htc, [8], [], policy, 1);
    assert NameStem(Htc, 0) == "pre-htc-";
    assert NameFormat(Htc, 0) == "pre-htc-%d";
    assert FreshSets(Htc, [8], 1)[0] == MakeSet(Htc, 0, 8, 1) == HtcAll;
    assert FreshSets(Htc, [8], 1) == [HtcAll];
  }

  /** No node exists: three placement groups of 3, 3 and 2 named
      `hpc-pg<i>-%d`, then one unplaced set of 8 named `pre-htc-%d`. */
  lemma FirstCallRequestsAllBatches(expand: string -> seq<string>, policy: ExistingNodePolicy)
    ensures CreationRequest([Hpc] + [Htc], expand, policy) == Success([Pg0, Pg1, Pg2] + [HtcAll])
  {
    FirstCallHpc(expand, policy);
    HtcFirstRequest(policy);
    CreationAppend([Hpc], Htc, expand, policy, [Pg0, Pg1, Pg2], [HtcAll]);
  }

  lemma FirstCallHpc(expand: string -> seq<string>, policy: ExistingNodePolicy)
    ensures CreationRequest([Hpc], expand, policy) == Success([Pg0, Pg1, Pg2])
  {
    HpcFirstRequest(policy);
    assert ExistingNames(Hpc, expand) == [];
    assert CreationRequest([], expand, policy) == Success([]);
    CreationAppend([], Hpc, expand, policy, [], [Pg0, Pg1, Pg2]);
    assert [] + [Hpc] == [Hpc] && [] + [Pg0, Pg1, Pg2] == [Pg0, Pg1, Pg2];
  }

  /** The HPC partition once its capacity is raised to 9 and its 8 nodes
      exist. */
  const Hpc9: Partition := Hpc.(maxVmCount := 9, nodeList := Some("hpc-pg0-[1-3],hpc-pg1-[1-3],hpc-pg2-[1-2]"))

  const Existing: seq<string> :=
    ["hpc-pg0-1", "hpc-pg0-2", "hpc-pg0-3", "hpc-pg1-1", "hpc-pg1-2", "hpc-pg1-3", "hpc-pg2-1", "hpc-pg2-2"]

  const Pg2Rest: RequestSet :=
    RequestSet(1, "hpc-pg2-%d", 3, "Standard_D2_v2", false, true, "hpc", Some("hpc-Standard_D2_v2-pg2"))

  lemma OneDigit(d: nat)
    requires d < 10
    ensures NatToString(d) == [DigitChar(d)]
  {
  }

  lemma Hpc9NodeName(i: nat, k: nat)
    requires i < 10 && k < 10
    ensures NodeName(Hpc9, i, k) == "hpc-pg" + [DigitChar(i)] + "-" + [DigitChar(k)]
  {
    OneDigit(i);
    OneDigit(k);
  }

  lemma Hpc9Plan()
    ensures Plan(Hpc9) == [3, 3, 3]
  {
    assert BatchSizes(3, 3) == [3];
    assert BatchSizes(6, 3) == [3, 3];
  }

  lemma Hpc9Member(i: nat, k: nat)
    requires i <= 2 && 1 <= k <= 3
    ensures NodeName(Hpc9, i, k) in Existing <==> i < 2 || k <= 2
  {
    Hpc9NodeName(i, k);
    var name := NodeName(Hpc9, i, k);
    if i < 2 || k <= 2 {
      assert name == Existing[3 * i + k - 1];
    } else {
      assert name == "hpc-pg2-3";
      assert forall j :: 0 <= j < |Existing| ==> Existing[j][8] != '3' || Existing[j][6] != '2';
    }
  }

  lemma Hpc9Counts()
    ensures CountExisting(Hpc9, 0, 3, Existing) == 3
    ensures CountExisting(Hpc9, 1, 3, Existing) == 3
    ensures CountExisting(Hpc9, 2, 3, Existing) == 2
  {
    forall i, k | 0 <= i <= 2 && 1 <= k <= 3
      ensures NodeName(Hpc9, i, k) in Existing <==> i < 2 || k <= 2
    {
      Hpc9Member(i, k);
    }
    CountPrefix(Hpc9, 0, 3, Existing, 3);
    CountPrefix(Hpc9, 1, 3, Existing, 3);
    CountPrefix(Hpc9, 2, 3, Existing, 2);
  }

  /** The default policy `Error` refuses: the HPC batches already have nodes. */
  lemma ErrorPolicyRefusesExisting(expand: string -> seq<string>)
    requires expand(Hpc9.nodeList.value) == Existing
    ensures CreationRequest([Hpc9, Htc], expand, Error) == Failure(ExistingNodeConflict("hpc"))
  {
    Hpc9Plan();
    Hpc9Counts();
    assert PartitionSets(Hpc9, [3, 3, 3], Existing, Error, 1) == Failure(ExistingNodeConflict("hpc"));
    BatchFailurePersists(Hpc9, [3, 3, 3], Existing, Error, 1, 3);
    assert [Hpc9, Htc][..1] == [Hpc9];
    assert [Hpc9][..0] == [];
    assert CreationRequest([], expand, Error) == Success([]);
    assert CreationRequest([Hpc9], expand, Error) == Failure(ExistingNodeConflict("hpc"));
    PartitionFailurePersists([Hpc9, Htc], expand, Error, 1);
  }

  lemma Pg2RestSet()
    ensures MakeSet(Hpc9, 2, 1, 3) == Pg2Rest
  {
    assert NatToString(2) == "2";
    HpcSet(Hpc9, 2, 1, 3, "2");
    assert "hpc-pg" + "2" + "-%d" == "hpc-pg2-%d";
    assert "hpc-Standard_D2_v2-pg" + "2" == "hpc-Standard_D2_v2-pg2";
  }

  lemma Hpc9Shortfall()
    ensures PartitionRequest(Hpc9, Existing, AllowExisting) == Success([Pg2Rest])
  {
    Hpc9Plan();
    Hpc9Counts();
    Pg2RestSet();
    assert PartitionSets(Hpc9, [3, 3, 3], Existing, AllowExisting, 1) == Success([]);
    assert PartitionSets(Hpc9, [3, 3, 3], Existing, AllowExisting, 2) == Success([]);
    assert PartitionSets(Hpc9, [3, 3, 3], Existing, AllowExisting, 3) == Success([] + [Pg2Rest]);
    assert [] + [Pg2Rest] == [Pg2Rest];
  }

  /** `AllowExisting` asks only for the missing ninth node, `hpc-pg2-3`
      (count 1, numbered from 3), and for all 8 nodes of the partition
      whose `node_list` is unset. */
  lemma AllowExistingRequestsShortfall(expand: string -> seq<string>)
    requires expand(Hpc9.nodeList.value) == Existing
    ensures CreationRequest([Hpc9] + [Htc], expand, AllowExisting) == Success([Pg2Rest] + [HtcAll])
  {
    ShortfallHpc(expand);
    HtcFirstRequest(AllowExisting);
    CreationAppend([Hpc9], Htc, expand, AllowExisting, [Pg2Rest], [HtcAll]);
  }

  lemma ShortfallHpc(expand: string -> seq<string>)
    requires expand(Hpc9.nodeList.value) == Existing
    ensures CreationRequest([Hpc9], expand, AllowExisting) == Success([Pg2Rest])
  {
    Hpc9Shortfall();
    assert ExistingNames(Hpc9, expand) == Existing;
    assert CreationRequest([], expand, AllowExisting) == Success([]);
    CreationAppend([], Hpc9, expand, AllowExisting, [], [Pg2Rest]);
    assert [] + [Hpc9] == [Hpc9] && [] + [Pg2Rest] == [Pg2Rest];
  }
}
