/** `topology.conf` generation (`_generate_topology`): the autoscale nodes
    grouped into switches by placement group, in first-seen order, one
    `SwitchName` line per switch. */
module Topology {
  import opened Wrappers
  import opened Cluster
  import opened Errors

  /** The switch of the autoscale nodes that have no placement group. */
  const ImplicitSwitch: string := "htc"

  /** The switch a node belongs to. */
  function SwitchOf(n: Node): string
  {
    if n.placementGroupId.Some? then n.placementGroupId.value else ImplicitSwitch
  }

  /** The switches of the autoscale nodes, each once, in the order their
      first node is listed; nodes without autoscale are skipped. */
  function SwitchOrder(nodes: seq<Node>): seq<string>
  {
    if nodes == [] then []
    else
      var prev := SwitchOrder(nodes[..|nodes| - 1]);
      var last := nodes[|nodes| - 1];
      if !last.autoscale || SwitchOf(last) in prev then prev else prev + [SwitchOf(last)]
  }

  /** Node `p` is an autoscale node on switch `k`. */
  predicate OnSwitch(nodes: seq<Node>, p: int, k: string)
  {
    0 <= p < |nodes| && nodes[p].autoscale && SwitchOf(nodes[p]) == k
  }

  /** No element is listed twice. */
  predicate Distinct(s: seq<string>)
  {
    forall i, j :: 0 <= i < j < |s| ==> s[i] != s[j]
  }

  /** No switch is listed twice. */
  lemma {:induction false} SwitchOrderDistinct(nodes: seq<Node>)
    ensures Distinct(SwitchOrder(nodes))
  {
    if nodes != [] {
      var prev := SwitchOrder(nodes[..|nodes| - 1]);
      SwitchOrderDistinct(nodes[..|nodes| - 1]);
      var last := nodes[|nodes| - 1];
      if last.autoscale && SwitchOf(last) !in prev {
        var r := prev + [SwitchOf(last)];
        forall i, j | 0 <= i < j < |r| ensures r[i] != r[j] {
          assert r[i] == prev[i];
          if j < |prev| {
            assert r[j] == prev[j];
          }
        }
      }
    }
  }

  /** A switch is listed exactly when some autoscale node is on it. */
  lemma {:induction false} SwitchOrderComplete(nodes: seq<Node>, k: string)
    ensures k in SwitchOrder(nodes) <==> exists p :: OnSwitch(nodes, p, k)
  {
    if nodes != [] {
      var init := nodes[..|nodes| - 1];
      SwitchOrderComplete(init, k);
      if exists p :: OnSwitch(init, p, k) {
        var p :| OnSwitch(init, p, k);
        assert OnSwitch(nodes, p, k);
      }
      if exists p :: OnSwitch(nodes, p, k) {
        var p :| OnSwitch(nodes, p, k);
        if p < |init| {
          assert OnSwitch(init, p, k);
        }
      }
      assert OnSwitch(nodes, |nodes| - 1, k) <==> nodes[|nodes| - 1].autoscale && SwitchOf(nodes[|nodes| - 1]) == k;
    }
  }

  /** The names of the autoscale nodes on switch `k`, in listed order. */
  function Members(nodes: seq<Node>, k: string): (r: seq<string>)
    ensures |r| <= |nodes|
  {
    if nodes == [] then []
    else
      var last := nodes[|nodes| - 1];
      Members(nodes[..|nodes| - 1], k) + (if last.autoscale && SwitchOf(last) == k then [last.name] else [])
  }

  /** The names of the nodes, in order. */
  function NodeNames(nodes: seq<Node>): (r: seq<string>)
    ensures |r| == |nodes|
    ensures forall i :: 0 <= i < |r| ==> r[i] == nodes[i].name
  {
    if nodes == [] then [] else NodeNames(nodes[..|nodes| - 1]) + [nodes[|nodes| - 1].name]
  }

  /** A run of autoscale nodes all on switch `k` lists `k` if it is new and
      adds all of its names to `k`'s members, and to no other switch's. */
  lemma RunOnOneSwitch(a: seq<Node>, run: seq<Node>, k: string)
    requires run != []
    requires forall i :: 0 <= i < |run| ==> run[i].autoscale && SwitchOf(run[i]) == k
    ensures SwitchOrder(a + run) == if k in SwitchOrder(a) then SwitchOrder(a) else SwitchOrder(a) + [k]
    ensures forall k' :: Members(a + run, k') == Members(a, k') + (if k' == k then NodeNames(run) else [])
  {
    RunSwitchOrder(a, run, k);
    forall k' ensures Members(a + run, k') == Members(a, k') + (if k' == k then NodeNames(run) else []) {
      RunMembers(a, run, k, k');
    }
  }

  lemma {:induction false} RunSwitchOrder(a: seq<Node>, run: seq<Node>, k: string)
    requires run != []
    requires forall i :: 0 <= i < |run| ==> run[i].autoscale && SwitchOf(run[i]) == k
    ensures SwitchOrder(a + run) == if k in SwitchOrder(a) then SwitchOrder(a) else SwitchOrder(a) + [k]
  {
    var init := run[..|run| - 1];
    var all := a + run;
    assert all[..|all| - 1] == a + init && all[|all| - 1] == run[|run| - 1];
    if init == [] {
      assert a + init == a;
    } else {
      assert forall i :: 0 <= i < |init| ==> init[i] == run[i];
      RunSwitchOrder(a, init, k);
      assert k in SwitchOrder(a + init);
    }
  }

  lemma {:induction false} RunMembers(a: seq<Node>, run: seq<Node>, k: string, k': string)
    requires run != []
    requires forall i :: 0 <= i < |run| ==> run[i].autoscale && SwitchOf(run[i]) == k
    ensures Members(a + run, k') == Members(a, k') + (if k' == k then NodeNames(run) else [])
  {
    var init := run[..|run| - 1];
    var last := run[|run| - 1];
    var all := a + run;
    assert all[..|all| - 1] == a + init && all[|all| - 1] == last;
    var added := if k' == k then [last.name] else [];
    assert Members(all, k') == Members(a + init, k') + added;
    var before := if k' == k then NodeNames(init) else [];
    if init == [] {
      assert a + init == a;
      assert Members(a + init, k') == Members(a, k') + before;
    } else {
      assert forall i :: 0 <= i < |init| ==> init[i] == run[i];
      RunMembers(a, init, k, k');
    }
    assert NodeNames(run) == NodeNames(init) + [last.name];
    assert Members(a, k') + before + added == Members(a, k') + (before + added);
  }

  /** A switch is listed exactly when it has members: every autoscale node
      lands on one listed switch and no listed switch is empty. */
  lemma {:induction false} ListedIffMembers(nodes: seq<Node>, k: string)
    ensures k in SwitchOrder(nodes) <==> Members(nodes, k) != []
  {
    if nodes != [] {
      var init := nodes[..|nodes| - 1];
      ListedIffMembers(init, k);
    }
  }

  /** Each autoscale node is a member of its own switch, and only of it. */
  lemma {:induction false} MemberOfOwnSwitch(nodes: seq<Node>, i: nat, k: string)
    requires i < |nodes| && nodes[i].autoscale
    ensures nodes[i].name in Members(nodes, SwitchOf(nodes[i]))
  {
    var init := nodes[..|nodes| - 1];
    if i < |nodes| - 1 {
      assert init[i] == nodes[i];
      MemberOfOwnSwitch(init, i, k);
    }
  }

  /** Every member of switch `k` is the name of an autoscale node on `k`. */
  lemma {:induction false} MembersAreOnSwitch(nodes: seq<Node>, k: string, x: string)
    requires x in Members(nodes, k)
    ensures exists p :: OnSwitch(nodes, p, k) && nodes[p].name == x
  {
    var init := nodes[..|nodes| - 1];
    if x in Members(init, k) {
      MembersAreOnSwitch(init, k, x);
      var p :| OnSwitch(init, p, k) && init[p].name == x;
      assert OnSwitch(nodes, p, k);
    } else {
      assert OnSwitch(nodes, |nodes| - 1, k);
    }
  }

  /** First-seen order: a switch listed before another has a node listed
      before any node of the other. */
  lemma {:induction false} FirstSeenOrder(nodes: seq<Node>, i: nat, j: nat, p: int)
    requires i < j < |SwitchOrder(nodes)|
    requires OnSwitch(nodes, p, SwitchOrder(nodes)[j])
    ensures exists q :: q < p && OnSwitch(nodes, q, SwitchOrder(nodes)[i])
  {
    var init := nodes[..|nodes| - 1];
    var last := nodes[|nodes| - 1];
    var prev := SwitchOrder(init);
    var order := SwitchOrder(nodes);
    var a, b := order[i], order[j];
    if p < |nodes| - 1 && j < |prev| {
      assert prev[i] == a && prev[j] == b;
      assert init[p] == nodes[p];
      FirstSeenOrder(init, i, j, p);
      var q :| q < p && OnSwitch(init, q, a);
      assert OnSwitch(nodes, q, a);
    } else if j < |prev| {
      // p is the last node, on a switch listed before it: an earlier node is on it too
      assert prev[i] == a && prev[j] == b && b in prev;
      SwitchOrderComplete(init, b);
      var p' :| OnSwitch(init, p', b);
      FirstSeenOrder(init, i, j, p');
      var q :| q < p' && OnSwitch(init, q, a);
      assert OnSwitch(nodes, q, a);
    } else {
      // b is the switch of the last node, seen for the first time
      assert order == prev + [b] && prev[i] == a && a in prev;
      SwitchOrderComplete(init, a);
      SwitchOrderComplete(init, b);
      if p < |nodes| - 1 {
        assert OnSwitch(init, p, b);
      }
      var q :| OnSwitch(init, q, a);
      assert OnSwitch(nodes, q, a);
    }
  }

  function SwitchLine(k: string, range: string): string
  {
    "SwitchName=" + k + " Nodes=" + range
  }

  /** `_generate_topology`: an error when there is no autoscale node, else
      one line per switch in first-seen order naming its compressed members. */
  function TopologyLines(nodes: seq<Node>, compress: seq<string> -> string): Result<seq<string>, SlurmError>
  {
    var order := SwitchOrder(nodes);
    if order == [] then Failure(EmptyTopology)
    else Success(seq(|order|, i requires 0 <= i < |order| => SwitchLine(order[i], compress(Members(nodes, order[i])))))
  }

  /** One more node: the switch order and the members as they follow from
      the nodes before it. */
  lemma Step(nodes: seq<Node>, i: nat)
    requires i < |nodes|
    ensures var n := nodes[i];
      SwitchOrder(nodes[..i + 1])
        == if !n.autoscale || SwitchOf(n) in SwitchOrder(nodes[..i]) then SwitchOrder(nodes[..i])
           else SwitchOrder(nodes[..i]) + [SwitchOf(n)]
    ensures var n := nodes[i];
      forall k :: Members(nodes[..i + 1], k)
        == Members(nodes[..i], k) + (if n.autoscale && SwitchOf(n) == k then [n.name] else [])
  {
    var upTo := nodes[..i + 1];
    assert upTo[..|upTo| - 1] == nodes[..i] && upTo[|upTo| - 1] == nodes[i];
  }

  /** The topology fails, with `EmptyTopology`, exactly when no node has
      autoscale on; otherwise it has one line per listed switch, and line
      `i` names switch `i` with the compressed names of its members. */
  lemma TopologyOutcome(nodes: seq<Node>, compress: seq<string> -> string)
    ensures var r := TopologyLines(nodes, compress);
      && (r.Failure? <==> forall p :: 0 <= p < |nodes| ==> !nodes[p].autoscale)
      && (r.Failure? ==> r.error == EmptyTopology)
      && (r.Success? ==>
            && |r.value| == |SwitchOrder(nodes)|
            && forall i :: 0 <= i < |r.value| ==>
                 r.value[i] == SwitchLine(SwitchOrder(nodes)[i], compress(Members(nodes, SwitchOrder(nodes)[i]))))
  {
    var order := SwitchOrder(nodes);
    if order == [] {
      forall p | 0 <= p < |nodes| ensures !nodes[p].autoscale {
        SwitchOrderComplete(nodes, SwitchOf(nodes[p]));
        if nodes[p].autoscale {
          assert OnSwitch(nodes, p, SwitchOf(nodes[p]));
        }
      }
    } else {
      SwitchOrderComplete(nodes, order[0]);
    }
  }

  /** `order` and `groups` are the switch order and the member lists of
      `prefix`, and a switch not yet seen has no members. */
  ghost predicate Grouped(prefix: seq<Node>, order: seq<string>, groups: map<string, seq<string>>)
  {
    && order == SwitchOrder(prefix)
    && (forall k :: k in groups <==> k in order)
    && (forall k :: k in groups ==> groups[k] == Members(prefix, k))
    && (forall k :: k !in groups ==> Members(prefix, k) == [])
  }

  /** One step of the grouping loop keeps `Grouped`. */
  lemma GroupStep(nodes: seq<Node>, i: nat, order: seq<string>, groups: map<string, seq<string>>)
    requires i < |nodes| && Grouped(nodes[..i], order, groups)
    ensures var n := nodes[i];
      var k := SwitchOf(n);
      Grouped(nodes[..i + 1],
              if n.autoscale && k !in groups then order + [k] else order,
              if !n.autoscale then groups
              else if k in groups then groups[k := groups[k] + [n.name]]
              else groups[k := [n.name]])
  {
    Step(nodes, i);
  }

  /** The grouping loop: walks the nodes once, appending each autoscale
      node's name to its switch's list and recording new switches in the
      order they appear. */
  method GroupBySwitch(nodes: seq<Node>) returns (order: seq<string>, groups: map<string, seq<string>>)
    ensures order == SwitchOrder(nodes)
    ensures forall k :: k in groups <==> k in order
    ensures forall k :: k in groups ==> groups[k] == Members(nodes, k)
  {
    order := [];
    groups := map[];
    var i := 0;
    while i < |nodes|
      invariant 0 <= i <= |nodes|
      invariant Grouped(nodes[..i], order, groups)
    {
      var n := nodes[i];
      GroupStep(nodes, i, order, groups);
      if n.autoscale {
        var k := SwitchOf(n);
        if k in groups {
          groups := groups[k := groups[k] + [n.name]];
        } else {
          order := order + [k];
          groups := groups[k := [n.name]];
        }
      }
      i := i + 1;
    }
    assert nodes[..i] == nodes;
  }

  /** The rendering loop over the grouped switches; it agrees with
      `TopologyLines`. */
  method GenerateTopology(nodes: seq<Node>, compress: seq<string> -> string) returns (r: Result<seq<string>, SlurmError>)
    ensures r == TopologyLines(nodes, compress)
  {
    var order, groups := GroupBySwitch(nodes);
    if order == [] {
      return Failure(EmptyTopology);
    }
    var lines := [];
    var i := 0;
    while i < |order|
      invariant 0 <= i <= |order|
      invariant |lines| == i
      invariant forall j :: 0 <= j < i ==> lines[j] == SwitchLine(order[j], compress(Members(nodes, order[j])))
    {
      lines := lines + [SwitchLine(order[i], compress(groups[order[i]]))];
      i := i + 1;
    }
    assert lines == seq(|order|, j requires 0 <= j < |order| => SwitchLine(order[j], compress(Members(nodes, order[j]))));
    return Success(lines);
  }
}
