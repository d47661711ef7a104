/** The cases of `test_filter_by_nodearrays`. Each node list is followed by
    the scheduler's node, whose template `scheduler-ha` is no partition's. */
module NodearrayFilterScenarios {
  import opened Wrappers
  import opened Cluster
  import opened Partitions
  import opened NodearrayFilter

  function N(name: string, nodearray: string): Node
  {
    Node(name, Some(nodearray), None, None, true, None, None, None)
  }

  const Scheduler: Node := Node("scheduler", Some("scheduler-ha"), None, None, false, None, None, None)

  /** A partition whose name and nodearray are both `name`; the rest of its
      fields play no part in the filter. */
  function P(name: string): Partition
  {
    Partition(name, name, "", "", false, false, 0, VirtualMachine(0, 0, 0, 0.0), 0, DefaultDampenMemory, false, None)
  }

  const N1: Node := N("n1", "n")
  const Other1: Node := N("other1", "other")

  lemma NamesDiffer()
    ensures "n" != "other" && "n" != "scheduler-ha" && "other" != "scheduler-ha"
  {
    assert "n"[0] != "other"[0] && "n"[0] != "scheduler-ha"[0] && "other"[0] != "scheduler-ha"[0];
  }

  /** Requested and fetched: everything but the scheduler is kept. */
  lemma RequestedAndFetched()
    ensures FilterByNodearrays([N1, Scheduler], [P("n")], ["n"]) == ([N1], [P("n")])
  {
    NamesDiffer();
    PartitionLists(["n"]);
    NodeLists(["n"]);
    assert "n" in ["n"] && "scheduler-ha" !in ["n"];
    assert [P("n")] + [] == [P("n")] && [N1] + [] == [N1];
  }

  /** The node lists of the test, unfolded one node at a time. */
  lemma NodeLists(arrays: seq<string>)
    ensures KeptNodes([Scheduler], arrays) == (if "scheduler-ha" in arrays then [Scheduler] else [])
    ensures KeptNodes([N1, Scheduler], arrays)
         == (if "n" in arrays then [N1] else []) + KeptNodes([Scheduler], arrays)
    ensures KeptNodes([N1, Other1, Scheduler], arrays)
         == (if "n" in arrays then [N1] else []) + (if "other" in arrays then [Other1] else [])
            + KeptNodes([Scheduler], arrays)
  {
    assert [Scheduler][1..] == [];
    assert [N1, Scheduler][1..] == [Scheduler];
    assert [N1, Other1, Scheduler][1..] == [Other1, Scheduler];
    assert [Other1, Scheduler][1..] == [Scheduler];
  }

  /** The partition mappings of the test, unfolded one partition at a time. */
  lemma PartitionLists(requested: seq<string>)
    ensures KeptPartitions([P("n")], requested) == (if "n" in requested then [P("n")] else [])
    ensures KeptPartitions([P("n"), P("other")], requested)
         == (if "n" in requested then [P("n")] else []) + (if "other" in requested then [P("other")] else [])
    ensures Nodearrays([P("n")]) == ["n"]
    ensures Nodearrays([P("other")]) == ["other"]
    ensures Nodearrays([]) == []
  {
    assert [P("n")][1..] == [];
    assert [P("other")][1..] == [];
    assert [P("n"), P("other")][1..] == [P("other")];
  }

  /** "other" was requested but never fetched: ignored. */
  lemma UnknownRequested()
    ensures FilterByNodearrays([N1, Scheduler], [P("n")], ["n", "other"]) == ([N1], [P("n")])
  {
    NamesDiffer();
    PartitionLists(["n", "other"]);
    NodeLists(["n"]);
    assert "n" in ["n", "other"] && "other" !in ["n"] && "scheduler-ha" !in ["n"];
    assert [N1] + [] == [N1];
  }

  lemma NothingRequestedFetched()
    ensures FilterByNodearrays([N1, Scheduler], [P("n")], ["other"]) == ([], [])
  {
    NamesDiffer();
    PartitionLists(["other"]);
    NodeLists([]);
    assert "n" !in ["other"];
  }

  /** The partition "other" is kept even though it has no nodes. */
  lemma EmptyPartitionKept()
    ensures FilterByNodearrays([N1, Scheduler], [P("n"), P("other")], ["other"]) == ([], [P("other")])
  {
    NamesDiffer();
    PartitionLists(["other"]);
    NodeLists(["other"]);
    assert "n" !in ["other"] && "other" in ["other"] && "scheduler-ha" !in ["other"];
    assert [] + [P("other")] == [P("other")];
  }

  lemma OnlyOtherKept()
    ensures FilterByNodearrays([N1, Other1, Scheduler], [P("n"), P("other")], ["other"]) == ([Other1], [P("other")])
  {
    NamesDiffer();
    PartitionLists(["other"]);
    NodeLists(["other"]);
    assert "n" !in ["other"] && "other" in ["other"] && "scheduler-ha" !in ["other"];
    assert [] + [P("other")] == [P("other")] && [] + [Other1] + [] == [Other1];
  }

  lemma OnlyNKept()
    ensures FilterByNodearrays([N1, Other1, Scheduler], [P("n"), P("other")], ["n"]) == ([N1], [P("n")])
  {
    NamesDiffer();
    PartitionLists(["n"]);
    NodeLists(["n"]);
    assert "n" in ["n"] && "other" !in ["n"] && "scheduler-ha" !in ["n"];
    assert [P("n")] + [] == [P("n")] && [N1] + [] + [] == [N1];
  }
}
