/** The `Partition` entity and the insertion-ordered mapping from partition
    name to partition that the fetcher builds and the renderers walk. */
module Partitions {
  import opened Wrappers
  import opened Cluster

  /** 2^31: the scaleset size of a partition without placement groups. */
  const UnboundedScalesetSize: nat := 0x8000_0000

  /** `dampen_memory` when the nodearray does not configure it (5%). */
  const DefaultDampenMemory: real := 0.05

  datatype Partition = Partition(
    name: string,
    nodearray: string,
    nodeNamePrefix: string,
    machineType: string,
    isDefault: bool,
    isHpc: bool,
    maxScalesetSize: nat,
    vm: VirtualMachine,
    maxVmCount: nat,
    dampenMemory: real,
    usePcpu: bool,
    nodeList: Option<string>)

  /** An ordered dict of partitions, keyed by `name`, in insertion order. */
  type PartitionMap = seq<Partition>

  function Names(ps: PartitionMap): (r: seq<string>)
    ensures |r| == |ps| && forall i :: 0 <= i < |ps| ==> r[i] == ps[i].name
  {
    if ps == [] then [] else [ps[0].name] + Names(ps[1..])
  }

  predicate UniqueNames(ps: PartitionMap)
  {
    forall i, j :: 0 <= i < j < |ps| ==> ps[i].name != ps[j].name
  }

  /** The position of `name` among the keys. */
  function IndexOf(ps: PartitionMap, name: string): (i: nat)
    requires name in Names(ps)
    ensures i < |ps| && ps[i].name == name
    ensures forall j :: 0 <= j < i ==> ps[j].name != name
  {
    if ps[0].name == name then 0 else 1 + IndexOf(ps[1..], name)
  }

  /** `partitions[p.name] = p`: a key already present keeps its position and
      takes the new value; a new key goes last. */
  function Put(ps: PartitionMap, p: Partition): (r: PartitionMap)
    requires UniqueNames(ps)
    ensures UniqueNames(r)
    ensures Names(r) == if p.name in Names(ps) then Names(ps) else Names(ps) + [p.name]
    ensures p in r
    ensures forall q :: q in r <==> q == p || (q in ps && q.name != p.name)
  {
    if p.name in Names(ps) then
      var i := IndexOf(ps, p.name);
      ReplaceEntry(ps, i, p);
      ps[i := p]
    else
      AppendEntry(ps, p);
      ps + [p]
  }

  /** Replacing the entry that has `p`'s name. */
  lemma ReplaceEntry(ps: PartitionMap, i: nat, p: Partition)
    requires UniqueNames(ps) && i < |ps| && ps[i].name == p.name
    ensures UniqueNames(ps[i := p]) && Names(ps[i := p]) == Names(ps) && p in ps[i := p]
    ensures forall q :: q in ps[i := p] <==> q == p || (q in ps && q.name != p.name)
  {
    var r := ps[i := p];
    assert Names(r) == Names(ps);
    forall q | q in r ensures q == p || (q in ps && q.name != p.name) {
      var k :| 0 <= k < |r| && r[k] == q;
    }
    forall q | q in ps && q.name != p.name ensures q in r {
      var k :| 0 <= k < |ps| && ps[k] == q;
      assert r[k] == q;
    }
  }

  /** Appending an entry under a new name. */
  lemma AppendEntry(ps: PartitionMap, p: Partition)
    requires UniqueNames(ps) && p.name !in Names(ps)
    ensures UniqueNames(ps + [p]) && Names(ps + [p]) == Names(ps) + [p.name] && p in ps + [p]
    ensures forall q :: q in ps + [p] <==> q == p || (q in ps && q.name != p.name)
  {
    assert forall k :: 0 <= k < |ps| ==> ps[k].name == Names(ps)[k];
  }

  /** `partitions.get(name)` */
  function Lookup(ps: PartitionMap, name: string): (r: Option<Partition>)
    requires UniqueNames(ps)
    ensures r.Some? <==> name in Names(ps)
    ensures r.Some? ==> r.value in ps && r.value.name == name
  {
    if ps == [] then None
    else if ps[0].name == name then Some(ps[0])
    else Lookup(ps[1..], name)
  }
}
