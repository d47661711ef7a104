/** `_filter_by_nodearrays`: narrowing the nodes and the partitions to the
    nodearrays an operator asked for. Partitions and nodes come back
    together, so no kept node belongs to a dropped partition. */
module NodearrayFilter {
  import opened Wrappers
  import opened Cluster
  import opened Partitions

  /** The fetched partitions whose name was requested, in fetched order;
      requested names that were not fetched are ignored. */
  function KeptPartitions(ps: PartitionMap, requested: seq<string>): (r: PartitionMap)
    ensures |r| <= |ps|
    ensures forall q :: q in r <==> q in ps && q.name in requested
  {
    if ps == [] then []
    else
      var rest := KeptPartitions(ps[1..], requested);
      assert forall q :: q in ps <==> q == ps[0] || q in ps[1..];
      if ps[0].name in requested then [ps[0]] + rest else rest
  }

  /** The nodearrays of some partitions. */
  function Nodearrays(ps: PartitionMap): (r: seq<string>)
    ensures |r| == |ps| && forall i :: 0 <= i < |ps| ==> r[i] == ps[i].nodearray
  {
    if ps == [] then [] else [ps[0].nodearray] + Nodearrays(ps[1..])
  }

  /** A node whose `Template` is one of `arrays`. */
  predicate OnNodearray(n: Node, arrays: seq<string>)
  {
    n.template.Some? && n.template.value in arrays
  }

  /** The nodes on one of `arrays`, in their original order. */
  function KeptNodes(nodes: seq<Node>, arrays: seq<string>): (r: seq<Node>)
    ensures |r| <= |nodes|
    ensures forall n :: n in r <==> n in nodes && OnNodearray(n, arrays)
  {
    if nodes == [] then []
    else
      var rest := KeptNodes(nodes[1..], arrays);
      assert forall n :: n in nodes <==> n == nodes[0] || n in nodes[1..];
      if OnNodearray(nodes[0], arrays) then [nodes[0]] + rest else rest
  }

  /** `_filter_by_nodearrays(nodes, partitions, nodearrays)`: the kept nodes
      and the kept partitions. */
  function FilterByNodearrays(nodes: seq<Node>, ps: PartitionMap, requested: seq<string>): (seq<Node>, PartitionMap)
  {
    var kept := KeptPartitions(ps, requested);
    (KeptNodes(nodes, Nodearrays(kept)), kept)
  }

  /** Both directions: a partition is kept exactly when it was fetched and
      requested, a node exactly when its nodearray is a kept partition's. */
  lemma FilterKeepsExactly(nodes: seq<Node>, ps: PartitionMap, requested: seq<string>)
    ensures var (ns, kept) := FilterByNodearrays(nodes, ps, requested);
      && (forall q :: q in kept <==> q in ps && q.name in requested)
      && (forall n :: n in ns <==>
            n in nodes && n.template.Some?
            && exists q :: q in ps && q.name in requested && q.nodearray == n.template.value)
  {
    var kept := KeptPartitions(ps, requested);
    var arrays := Nodearrays(kept);
    forall n ensures OnNodearray(n, arrays) <==>
      n.template.Some? && exists q :: q in ps && q.name in requested && q.nodearray == n.template.value
    {
      if OnNodearray(n, arrays) {
        var i :| 0 <= i < |arrays| && arrays[i] == n.template.value;
        assert kept[i] in kept;
      }
      if n.template.Some? && exists q :: q in ps && q.name in requested && q.nodearray == n.template.value {
        var q :| q in ps && q.name in requested && q.nodearray == n.template.value;
        var i :| 0 <= i < |kept| && kept[i] == q;
        assert arrays[i] == q.nodearray;
      }
    }
  }

  /** Filtering preserves order: it distributes over concatenation. */
  lemma {:induction false} KeptNodesOrder(a: seq<Node>, b: seq<Node>, arrays: seq<string>)
    ensures KeptNodes(a + b, arrays) == KeptNodes(a, arrays) + KeptNodes(b, arrays)
  {
    if a == [] {
      assert [] + b == b;
    } else {
      assert (a + b)[0] == a[0] && (a + b)[1..] == a[1..] + b;
      KeptNodesOrder(a[1..], b, arrays);
    }
  }

  /** A node on no fetched partition's nodearray, such as the scheduler, is
      always dropped. */
  lemma SchedulerDropped(nodes: seq<Node>, ps: PartitionMap, requested: seq<string>, n: Node)
    requires n.template.None? || n.template.value !in Nodearrays(ps)
    ensures n !in FilterByNodearrays(nodes, ps, requested).0
  {
    FilterKeepsExactly(nodes, ps, requested);
  }

  /** A requested name that no fetched partition has changes nothing. */
  lemma {:induction false} UnknownRequestIgnored(ps: PartitionMap, requested: seq<string>, x: string)
    requires x !in Names(ps)
    ensures KeptPartitions(ps, requested + [x]) == KeptPartitions(ps, requested)
  {
    if ps != [] {
      assert ps[0].name == Names(ps)[0];
      assert Names(ps[1..]) == Names(ps)[1..];
      UnknownRequestIgnored(ps[1..], requested, x);
    }
  }

  /** Kept partitions keep the distinct names of a partition mapping. */
  lemma {:induction false} KeptUnique(ps: PartitionMap, requested: seq<string>)
    requires UniqueNames(ps)
    ensures UniqueNames(KeptPartitions(ps, requested))
  {
    if ps != [] {
      KeptUnique(ps[1..], requested);
      var rest := KeptPartitions(ps[1..], requested);
      if ps[0].name in requested {
        var r := [ps[0]] + rest;
        forall i, j | 0 <= i < j < |r| ensures r[i].name != r[j].name {
          if i == 0 {
            assert r[j] in rest;
            var k :| 0 <= k < |ps[1..]| && ps[1..][k] == r[j];
            assert ps[k + 1] == r[j];
          } else {
            assert r[i] == rest[i - 1] && r[j] == rest[j - 1];
          }
        }
      }
    }
  }
}
