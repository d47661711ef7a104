/** The apply-changes guard (`_check_apply_changes`): configuration changes
    are refused while an autoscale node is in the middle of its lifecycle. */
module ApplyChanges {
  import opened Wrappers
  import opened Cluster
  import opened Errors
  import opened Text

  /** The statuses of a node that is starting, deallocated or going away. */
  predicate Transitional(status: string)
  {
    status == "Started" || status == "Deallocated" || status == "Terminating"
  }

  /** A node that forbids applying changes: autoscale on and a transitional
      status. Nodes without autoscale (the scheduler) never block. */
  predicate Blocks(n: Node)
  {
    n.autoscale && n.status.Some? && Transitional(n.status.value)
  }

  /** `_check_apply_changes`: the first blocking node, in list order, is
      reported; with none the check passes. */
  function CheckApplyChanges(nodes: seq<Node>): (r: Outcome<SlurmError>)
    ensures r.Pass? <==> forall i :: 0 <= i < |nodes| ==> !Blocks(nodes[i])
    ensures r.Fail? ==> r.error.NodeMidLifecycle?
  {
    if nodes == [] then Pass
    else if Blocks(nodes[0]) then Fail(NodeMidLifecycle(nodes[0].name, nodes[0].status.value))
    else
      var rest := CheckApplyChanges(nodes[1..]);
      assert forall i :: 1 <= i < |nodes| ==> nodes[i] == nodes[1..][i - 1];
      rest
  }

  /** The error names the first blocking node and its status. */
  lemma {:induction false} NamesFirstBlocker(nodes: seq<Node>, i: nat)
    requires i < |nodes| && Blocks(nodes[i])
    requires forall j :: 0 <= j < i ==> !Blocks(nodes[j])
    ensures CheckApplyChanges(nodes) == Fail(NodeMidLifecycle(nodes[i].name, nodes[i].status.value))
  {
    if i > 0 {
      assert nodes[1..][i - 1] == nodes[i];
      NamesFirstBlocker(nodes[1..], i - 1);
    }
  }

  /** Appending nodes without autoscale, such as the scheduler's own node,
      never changes the outcome. */
  lemma {:induction false} IgnoresNonAutoscale(nodes: seq<Node>, extra: seq<Node>)
    requires forall k :: 0 <= k < |extra| ==> !extra[k].autoscale
    ensures CheckApplyChanges(nodes + extra) == CheckApplyChanges(nodes)
  {
    if nodes == [] {
      assert [] + extra == extra;
    } else {
      assert (nodes + extra)[1..] == nodes[1..] + extra;
      IgnoresNonAutoscale(nodes[1..], extra);
    }
  }

  /** The text of a failed check ends with " - " and the blocking node's
      name, which is what operators and callers split on. */
  lemma MessageEndsWithNode(nodes: seq<Node>, i: nat)
    requires i < |nodes| && Blocks(nodes[i])
    requires forall j :: 0 <= j < i ==> !Blocks(nodes[j])
    ensures var m := Message(CheckApplyChanges(nodes).error);
      |m| >= |nodes[i].name| + 3 && m[|m| - |nodes[i].name| - 3..] == " - " + nodes[i].name
  {
    NamesFirstBlocker(nodes, i);
  }

  /** What the test reads back, `str(e).split(" - ")[-1]`, is the blocking
      node's name whenever that name does not itself contain " - ". */
  lemma SplitGivesBlocker(nodes: seq<Node>, i: nat)
    requires i < |nodes| && Blocks(nodes[i])
    requires forall j :: 0 <= j < i ==> !Blocks(nodes[j])
    requires forall q :: !SepAt(nodes[i].name, " - ", q)
    ensures LastPiece(Message(CheckApplyChanges(nodes).error), " - ", "") == nodes[i].name
  {
    NamesFirstBlocker(nodes, i);
    var status := nodes[i].status.value;
    var before := "Cannot apply changes while a node is " + status;
    assert Message(CheckApplyChanges(nodes).error) == before + " - " + nodes[i].name;
    TransitionalEnding(status);
    assert before[|before| - 1] == status[|status| - 1];
    LastPieceAfter(before, nodes[i].name);
  }

  lemma TransitionalEnding(status: string)
    requires Transitional(status)
    ensures |status| > 0 && status[|status| - 1] != '-'
  {
  }

  /** Text that does not end in '-', then " - " and a name free of " - ",
      splits on " - " with that name last. */
  lemma LastPieceAfter(before: string, name: string)
    requires |before| > 0 && before[|before| - 1] != '-'
    requires forall q :: !SepAt(name, " - ", q)
    ensures LastPiece(before + " - " + name, " - ", "") == name
  {
    var m := before + " - " + name;
    var p := |before|;
    assert m[p..p + 3] == " - ";
    assert SepAt(m, " - ", p);
    assert m[p] == ' ' && m[p - 1] == before[p - 1];
    forall q | p - 3 < q < p
      ensures !SepAt(m, " - ", q)
    {
    }
    ScanReaches(m, " - ", "", p);
    assert m[p + 3..] == name;
    NoSeparatorWhole(name, " - ", "");
  }
}
