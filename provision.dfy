/** Capacity-bounded node provisioning (`_create_nodes`): each partition's
    `max_vm_count` is bin-packed into placement-group batches of at most
    `max_scaleset_size` nodes, reconciled against the nodes that already
    exist, and turned into the sets of a node-creation request. */
module Provision {
  import opened Wrappers
  import opened Text
  import opened Cluster
  import opened Partitions
  import opened Errors

  /** What to do when some of the nodes to create already exist. */
  datatype ExistingNodePolicy = Error | AllowExisting

  function Sum(s: seq<nat>): nat
  {
    if s == [] then 0 else s[0] + Sum(s[1..])
  }

  /** Consecutive batches of `cap` nodes, the last one taking the remainder;
      no batch is empty. */
  function BatchSizes(total: nat, cap: nat): (r: seq<nat>)
    requires cap > 0
    ensures Sum(r) == total
    ensures forall i :: 0 <= i < |r| ==> 0 < r[i] <= cap
    ensures forall i :: 0 <= i < |r| - 1 ==> r[i] == cap
    ensures total == 0 <==> r == []
    decreases total
  {
    if total == 0 then []
    else if total <= cap then [total]
    else [cap] + BatchSizes(total - cap, cap)
  }

  /** There are as few batches as the cap allows: ceil(total / cap). */
  lemma {:induction false} BatchCount(total: nat, cap: nat)
    requires cap > 0 && total > 0
    ensures (|BatchSizes(total, cap)| - 1) * cap < total <= |BatchSizes(total, cap)| * cap
    decreases total
  {
    if total > cap {
      BatchCount(total - cap, cap);
      var n := |BatchSizes(total - cap, cap)|;
      assert |BatchSizes(total, cap)| == n + 1;
      assert (n - 1) * cap < total - cap <= n * cap;
      assert n * cap == (n - 1) * cap + cap && (n + 1) * cap == n * cap + cap;
    }
  }

  /** A partition the provisioner can work with: placement groups need a
      positive scaleset size. */
  predicate Provisionable(p: Partition)
  {
    p.isHpc ==> p.maxScalesetSize > 0
  }

  /** The batch sizes of a partition: placement-group batches for an HPC
      partition, one unplaced batch of the whole count otherwise. */
  function Plan(p: Partition): (r: seq<nat>)
    requires Provisionable(p)
    ensures Sum(r) == p.maxVmCount
    ensures forall i :: 0 <= i < |r| ==> 0 < r[i]
  {
    if p.isHpc then BatchSizes(p.maxVmCount, p.maxScalesetSize)
    else if p.maxVmCount == 0 then []
    else [p.maxVmCount]
  }

  /** An HPC partition's batches respect the scaleset size and are as few
      as that allows; any other partition is a single batch. */
  lemma PlanBatches(p: Partition)
    requires Provisionable(p)
    ensures p.isHpc ==> forall i :: 0 <= i < |Plan(p)| ==> Plan(p)[i] <= p.maxScalesetSize
    ensures p.isHpc && p.maxVmCount > 0 ==>
      (|Plan(p)| - 1) * p.maxScalesetSize < p.maxVmCount <= |Plan(p)| * p.maxScalesetSize
    ensures !p.isHpc ==> |Plan(p)| == if p.maxVmCount == 0 then 0 else 1
  {
    if p.isHpc && p.maxVmCount > 0 {
      BatchCount(p.maxVmCount, p.maxScalesetSize);
    }
  }

  /** `<nodearray>-<machine_type>-pg<i>` */
  function PlacementGroupId(p: Partition, i: nat): string
  {
    p.nodearray + "-" + p.machineType + "-pg" + NatToString(i)
  }

  /** Everything of a generated node name before its number:
      `<prefix><nodearray>-pg<i>-` for HPC, `<prefix><nodearray>-` otherwise. */
  function NameStem(p: Partition, i: nat): string
  {
    p.nodeNamePrefix + p.nodearray + (if p.isHpc then "-pg" + NatToString(i) else "") + "-"
  }

  /** The `nameFormat` of batch `i`. */
  function NameFormat(p: Partition, i: nat): string
  {
    NameStem(p, i) + "%d"
  }

  /** The name the cluster gives to node number `k` of batch `i`. */
  function NodeName(p: Partition, i: nat, k: nat): string
  {
    NameStem(p, i) + NatToString(k)
  }

  /** A `nameFormat`: text ending in the `%d` placeholder. */
  predicate IsNameFormat(format: string)
  {
    |format| >= 2 && format[|format| - 2] == '%' && format[|format| - 1] == 'd'
  }

  /** `nameFormat % k` */
  function FormatName(format: string, k: nat): (name: string)
    requires IsNameFormat(format)
    ensures |name| > |format| - 2 && name[..|format| - 2] == format[..|format| - 2]
    ensures AllDigits(name[|format| - 2..]) && ParseNat(name[|format| - 2..]) == k
  {
    var name := format[..|format| - 2] + NatToString(k);
    assert name[|format| - 2..] == NatToString(k);
    ParseNatToString(k);
    name
  }

  /** The request's `nameFormat` yields exactly the names the provisioner
      checks for existing nodes, and distinct numbers give distinct names. */
  lemma NameFormatYieldsNodeNames(p: Partition, i: nat, k: nat, k': nat)
    ensures FormatName(NameFormat(p, i), k) == NodeName(p, i, k)
    ensures NodeName(p, i, k) == NodeName(p, i, k') ==> k == k'
  {
    var f := NameFormat(p, i);
    assert f[..|f| - 2] == NameStem(p, i);
    if NodeName(p, i, k) == NodeName(p, i, k') {
      var stem := NameStem(p, i);
      assert NatToString(k) == NodeName(p, i, k)[|stem|..];
      assert NatToString(k') == NodeName(p, i, k')[|stem|..];
      NatToStringInjective(k, k');
    }
  }

  /** How many of nodes 1..n of batch `i` already exist. */
  function CountExisting(p: Partition, i: nat, n: nat, existing: seq<string>): (c: nat)
    ensures c <= n
  {
    if n == 0 then 0
    else CountExisting(p, i, n - 1, existing) + (if NodeName(p, i, n) in existing then 1 else 0)
  }

  /** The set requesting `count` nodes of batch `i`, numbered from `offset`. */
  function MakeSet(p: Partition, i: nat, count: nat, offset: nat): (s: RequestSet)
    ensures s.count == count && s.nameOffset == offset && s.nodearray == p.nodearray
    ensures s.definitionMachineType == p.machineType
    ensures !s.startAutomatically && s.fixed
    ensures s.placementGroupId.Some? <==> p.isHpc
    ensures IsNameFormat(s.nameFormat)
  {
    RequestSet(count, NameFormat(p, i), offset, p.machineType, false, true, p.nodearray,
               if p.isHpc then Some(PlacementGroupId(p, i)) else None)
  }

  /** The sets for the first `j` batches of `plan`, given the names that
      already exist. Under `Error` any existing node of a batch fails the
      whole call; under `AllowExisting` only the shortfall of each batch is
      requested, numbered after the existing ones, and a full batch is
      skipped. */
  function PartitionSets(p: Partition, plan: seq<nat>, existing: seq<string>, policy: ExistingNodePolicy, j: nat)
    : (r: Result<seq<RequestSet>, SlurmError>)
    requires j <= |plan|
  {
    if j == 0 then Success([])
    else
      match PartitionSets(p, plan, existing, policy, j - 1)
      case Failure(e) => Failure(e)
      case Success(sets) =>
        var size := plan[j - 1];
        var e := CountExisting(p, j - 1, size, existing);
        if e > 0 && policy == Error then Failure(ExistingNodeConflict(p.name))
        else if e == size then Success(sets)
        else Success(sets + [MakeSet(p, j - 1, size - e, e + 1)])
  }

  /** All the sets of one partition, over its own batches. */
  function PartitionRequest(p: Partition, existing: seq<string>, policy: ExistingNodePolicy)
    : Result<seq<RequestSet>, SlurmError>
    requires Provisionable(p)
  {
    PartitionSets(p, Plan(p), existing, policy, |Plan(p)|)
  }

  /** The node names a partition already has: its `node_list` expanded by the
      hostlist service (`scontrol show hostnames`), none when it is unset. */
  function ExistingNames(p: Partition, expand: string -> seq<string>): seq<string>
  {
    if p.nodeList.Some? then expand(p.nodeList.value) else []
  }

  /** The sets of the whole request, partition by partition in mapping order.
      This model works out every partition's sets before sending any, so
      the first failing partition fails the call and nothing is created. */
  function CreationRequest(ps: PartitionMap, expand: string -> seq<string>, policy: ExistingNodePolicy)
    : (r: Result<seq<RequestSet>, SlurmError>)
    requires forall q :: q in ps ==> Provisionable(q)
  {
    if ps == [] then Success([])
    else
      var last := ps[|ps| - 1];
      match CreationRequest(ps[..|ps| - 1], expand, policy)
      case Failure(e) => Failure(e)
      case Success(sets) =>
        match PartitionRequest(last, ExistingNames(last, expand), policy)
        case Failure(e) => Failure(e)
        case Success(more) => Success(sets + more)
  }

  /** Adding a partition that succeeds appends its sets to the request. */
  lemma CreationAppend(ps: PartitionMap, q: Partition, expand: string -> seq<string>, policy: ExistingNodePolicy,
                       sets: seq<RequestSet>, more: seq<RequestSet>)
    requires (forall x :: x in ps ==> Provisionable(x)) && Provisionable(q)
    requires CreationRequest(ps, expand, policy) == Success(sets)
    requires PartitionRequest(q, ExistingNames(q, expand), policy) == Success(more)
    ensures CreationRequest(ps + [q], expand, policy) == Success(sets + more)
  {
    assert (ps + [q])[..|ps|] == ps;
  }

  /** The name of the `t`-th node a set asks for. */
  function SetName(s: RequestSet, t: nat): string
    requires IsNameFormat(s.nameFormat)
  {
    FormatName(s.nameFormat, s.nameOffset + t)
  }

  /** Total number of nodes requested by some sets. */
  function SumCounts(sets: seq<RequestSet>): nat
  {
    if sets == [] then 0 else SumCounts(sets[..|sets| - 1]) + sets[|sets| - 1].count
  }

  lemma {:induction false} SumSnoc(s: seq<nat>, x: nat)
    ensures Sum(s + [x]) == Sum(s) + x
  {
    if s != [] {
      assert (s + [x])[1..] == s[1..] + [x];
      SumSnoc(s[1..], x);
    }
  }

  /** Nodes already existing in the first `j` batches of `plan`. */
  function SumExisting(p: Partition, plan: seq<nat>, existing: seq<string>, j: nat): nat
    requires j <= |plan|
  {
    if j == 0 then 0
    else SumExisting(p, plan, existing, j - 1) + CountExisting(p, j - 1, plan[j - 1], existing)
  }

  /** The sets for the first `j` batches of `plan` when no node exists yet:
      every batch in full, numbered from 1. */
  function FreshSets(p: Partition, plan: seq<nat>, j: nat): (r: seq<RequestSet>)
    requires j <= |plan|
    ensures |r| == j
    ensures forall i :: 0 <= i < j ==> r[i] == MakeSet(p, i, plan[i], 1)
  {
    if j == 0 then [] else FreshSets(p, plan, j - 1) + [MakeSet(p, j - 1, plan[j - 1], 1)]
  }

  /** Sets whose counts are `sizes`, position by position, ask for
      `Sum(sizes)` nodes. */
  lemma {:induction false} CountsAreSizes(sets: seq<RequestSet>, sizes: seq<nat>)
    requires |sets| == |sizes| && forall i :: 0 <= i < |sets| ==> sets[i].count == sizes[i]
    ensures SumCounts(sets) == Sum(sizes)
  {
    if sets != [] {
      var n := |sets| - 1;
      CountsAreSizes(sets[..n], sizes[..n]);
      assert sizes == sizes[..n] + [sizes[n]];
      SumSnoc(sizes[..n], sizes[n]);
    }
  }

  /** The fresh sets of a partition ask for `max_vm_count` nodes. */
  lemma FreshSetsTotal(p: Partition)
    requires Provisionable(p)
    ensures SumCounts(FreshSets(p, Plan(p), |Plan(p)|)) == p.maxVmCount
  {
    CountsAreSizes(FreshSets(p, Plan(p), |Plan(p)|), Plan(p));
  }

  lemma {:induction false} NoneExistCountZero(p: Partition, i: nat, n: nat, existing: seq<string>)
    requires forall k :: 1 <= k <= n ==> NodeName(p, i, k) !in existing
    ensures CountExisting(p, i, n, existing) == 0
  {
    if n > 0 {
      NoneExistCountZero(p, i, n - 1, existing);
    }
  }

  lemma {:induction false} AllExistCountFull(p: Partition, i: nat, n: nat, existing: seq<string>)
    requires forall k :: 1 <= k <= n ==> NodeName(p, i, k) in existing
    ensures CountExisting(p, i, n, existing) == n
  {
    if n > 0 {
      AllExistCountFull(p, i, n - 1, existing);
    }
  }

  /** A plan without empty batches, as `Plan` makes. */
  predicate NonEmptyBatches(plan: seq<nat>)
  {
    forall i :: 0 <= i < |plan| ==> plan[i] > 0
  }

  /** With no existing node, the sets are the batches in full, one per
      placement group, whatever the policy. */
  lemma NoExistingRequestsEveryBatch(p: Partition, plan: seq<nat>, existing: seq<string>,
                                     policy: ExistingNodePolicy, j: nat)
    requires j <= |plan| && NonEmptyBatches(plan)
    requires forall i, k :: 0 <= i < j && 1 <= k <= plan[i] ==> NodeName(p, i, k) !in existing
    ensures PartitionSets(p, plan, existing, policy, j) == Success(FreshSets(p, plan, j))
  {
    forall i | 0 <= i < j ensures CountExisting(p, i, plan[i], existing) == 0 {
      NoneExistCountZero(p, i, plan[i], existing);
    }
    NoCountRequestsEveryBatch(p, plan, existing, policy, j);
  }

  lemma {:induction false} NoCountRequestsEveryBatch(p: Partition, plan: seq<nat>, existing: seq<string>,
                                                     policy: ExistingNodePolicy, j: nat)
    requires j <= |plan| && NonEmptyBatches(plan)
    requires forall i :: 0 <= i < j ==> CountExisting(p, i, plan[i], existing) == 0
    ensures PartitionSets(p, plan, existing, policy, j) == Success(FreshSets(p, plan, j))
  {
    if j > 0 {
      NoCountRequestsEveryBatch(p, plan, existing, policy, j - 1);
      assert CountExisting(p, j - 1, plan[j - 1], existing) == 0 < plan[j - 1];
    }
  }

  /** Under `Error`, the call fails exactly when some batch already has a
      node, and the error names the partition. */
  lemma {:induction false} ErrorPolicyFailsIffExisting(p: Partition, plan: seq<nat>, existing: seq<string>, j: nat)
    requires j <= |plan|
    ensures PartitionSets(p, plan, existing, Error, j).Failure? <==>
      exists i :: 0 <= i < j && CountExisting(p, i, plan[i], existing) > 0
    ensures PartitionSets(p, plan, existing, Error, j).Failure? ==>
      PartitionSets(p, plan, existing, Error, j).error == ExistingNodeConflict(p.name)
  {
    if j > 0 {
      ErrorPolicyFailsIffExisting(p, plan, existing, j - 1);
      var prev := PartitionSets(p, plan, existing, Error, j - 1);
      var e := CountExisting(p, j - 1, plan[j - 1], existing);
      if prev.Failure? {
        var i :| 0 <= i < j - 1 && CountExisting(p, i, plan[i], existing) > 0;
        assert 0 <= i < j && CountExisting(p, i, plan[i], existing) > 0;
      } else if e == 0 {
        assert PartitionSets(p, plan, existing, Error, j).Success?;
        forall i | 0 <= i < j ensures CountExisting(p, i, plan[i], existing) == 0 {
          if i < j - 1 {
            assert !(0 <= i < j - 1 && CountExisting(p, i, plan[i], existing) > 0);
          }
        }
      }
    }
  }

  /** Under `AllowExisting` the call never fails, every set asks for at
      least one node and is numbered after the batch's existing nodes, and
      requested plus existing nodes make up the batches' capacity. */
  lemma {:induction false} AllowExistingFillsShortfall(p: Partition, plan: seq<nat>, existing: seq<string>, j: nat)
    requires j <= |plan|
    ensures PartitionSets(p, plan, existing, AllowExisting, j).Success?
    ensures forall s :: s in PartitionSets(p, plan, existing, AllowExisting, j).value ==>
      s.count > 0 && s.nameOffset > 0
    ensures SumCounts(PartitionSets(p, plan, existing, AllowExisting, j).value)
      + SumExisting(p, plan, existing, j) == Sum(plan[..j])
  {
    AllowExistingSetsNonEmpty(p, plan, existing, j);
    AllowExistingCounts(p, plan, existing, j);
  }

  /** The success and non-emptiness half of `AllowExistingFillsShortfall`. */
  lemma {:induction false} AllowExistingSetsNonEmpty(p: Partition, plan: seq<nat>, existing: seq<string>, j: nat)
    requires j <= |plan|
    ensures PartitionSets(p, plan, existing, AllowExisting, j).Success?
    ensures forall s :: s in PartitionSets(p, plan, existing, AllowExisting, j).value ==>
      s.count > 0 && s.nameOffset > 0
  {
    if j > 0 {
      AllowExistingSetsNonEmpty(p, plan, existing, j - 1);
      var prev := PartitionSets(p, plan, existing, AllowExisting, j - 1).value;
      var size := plan[j - 1];
      var e := CountExisting(p, j - 1, size, existing);
      if e < size {
        var s := MakeSet(p, j - 1, size - e, e + 1);
        assert PartitionSets(p, plan, existing, AllowExisting, j) == Success(prev + [s]);
        AppendSet(prev, s);
      } else {
        assert PartitionSets(p, plan, existing, AllowExisting, j) == Success(prev);
      }
    }
  }

  /** The counting half of `AllowExistingFillsShortfall`. */
  lemma {:induction false} AllowExistingCounts(p: Partition, plan: seq<nat>, existing: seq<string>, j: nat)
    requires j <= |plan|
    ensures PartitionSets(p, plan, existing, AllowExisting, j).Success?
    ensures SumCounts(PartitionSets(p, plan, existing, AllowExisting, j).value)
      + SumExisting(p, plan, existing, j) == Sum(plan[..j])
  {
    if j > 0 {
      AllowExistingCounts(p, plan, existing, j - 1);
      var prev := PartitionSets(p, plan, existing, AllowExisting, j - 1).value;
      var size := plan[j - 1];
      var e := CountExisting(p, j - 1, size, existing);
      assert plan[..j] == plan[..j - 1] + [size];
      SumSnoc(plan[..j - 1], size);
      if e < size {
        var s := MakeSet(p, j - 1, size - e, e + 1);
        assert PartitionSets(p, plan, existing, AllowExisting, j) == Success(prev + [s]);
        AppendSet(prev, s);
      } else {
        assert PartitionSets(p, plan, existing, AllowExisting, j) == Success(prev);
      }
    } else {
      assert plan[..0] == [];
    }
  }

  lemma AppendSet(prev: seq<RequestSet>, s: RequestSet)
    ensures SumCounts(prev + [s]) == SumCounts(prev) + s.count
    ensures forall x :: x in prev + [s] ==> x in prev || x == s
  {
    var sets := prev + [s];
    assert sets[..|sets| - 1] == prev;
  }

  /** Requested and existing nodes of a partition add up to `max_vm_count`. */
  lemma AllowExistingReachesCapacity(p: Partition, existing: seq<string>)
    requires Provisionable(p)
    ensures PartitionRequest(p, existing, AllowExisting).Success?
    ensures SumCounts(PartitionRequest(p, existing, AllowExisting).value)
      + SumExisting(p, Plan(p), existing, |Plan(p)|) == p.maxVmCount
  {
    var plan := Plan(p);
    AllowExistingFillsShortfall(p, plan, existing, |plan|);
    assert plan[..|plan|] == plan;
  }

  /** The set requested for a batch whose existing nodes are its first `e`
      (the nodes created earlier) names exactly the batch's missing nodes:
      none of them exists, and together they complete the batch. */
  lemma ShortfallNamesAreMissing(p: Partition, i: nat, size: nat, existing: seq<string>, e: nat, s: RequestSet)
    requires e <= size && s == MakeSet(p, i, size - e, e + 1)
    requires forall k :: 1 <= k <= size ==> (NodeName(p, i, k) in existing <==> k <= e)
    ensures CountExisting(p, i, size, existing) == e
    ensures forall t :: 0 <= t < s.count ==> SetName(s, t) !in existing
    ensures forall k :: 1 <= k <= size && NodeName(p, i, k) !in existing ==> SetName(s, k - e - 1) == NodeName(p, i, k)
  {
    CountPrefix(p, i, size, existing, e);
    forall t | 0 <= t < s.count
      ensures SetName(s, t) == NodeName(p, i, e + 1 + t)
    {
      NameFormatYieldsNodeNames(p, i, e + 1 + t, e + 1 + t);
    }
  }

  lemma {:induction false} CountPrefix(p: Partition, i: nat, n: nat, existing: seq<string>, e: nat)
    requires forall k :: 1 <= k <= n ==> (NodeName(p, i, k) in existing <==> k <= e)
    ensures CountExisting(p, i, n, existing) == if n < e then n else e
  {
    if n > 0 {
      CountPrefix(p, i, n - 1, existing, e);
    }
  }

  /** The shortfall rule counts a batch's existing nodes but not which ones:
      when only the second node of a one-batch plan exists, the set asks for
      the rest numbered from 2, and its first name is that existing node. */
  lemma GapReusesExistingName(p: Partition, size: nat, existing: seq<string>)
    requires 2 <= size
    requires forall k :: 1 <= k <= size ==> (NodeName(p, 0, k) in existing <==> k == 2)
    ensures PartitionSets(p, [size], existing, AllowExisting, 1) == Success([MakeSet(p, 0, size - 1, 2)])
    ensures SetName(MakeSet(p, 0, size - 1, 2), 0) == NodeName(p, 0, 2)
    ensures SetName(MakeSet(p, 0, size - 1, 2), 0) in existing
  {
    GapCount(p, size, existing);
    assert [size][0] == size && CountExisting(p, 0, size, existing) == 1;
    assert PartitionSets(p, [size], existing, AllowExisting, 0) == Success([]);
    assert [] + [MakeSet(p, 0, size - 1, 2)] == [MakeSet(p, 0, size - 1, 2)];
    NameFormatYieldsNodeNames(p, 0, 2, 2);
  }

  lemma {:induction false} GapCount(p: Partition, n: nat, existing: seq<string>)
    requires forall k :: 1 <= k <= n ==> (NodeName(p, 0, k) in existing <==> k == 2)
    ensures CountExisting(p, 0, n, existing) == if n < 2 then 0 else 1
  {
    if n > 0 {
      GapCount(p, n - 1, existing);
    }
  }

  /** Idempotence under `AllowExisting`: once every node the first request
      asked for is in `node_list`, asking again creates nothing. */
  lemma SecondRequestCreatesNothing(p: Partition, plan: seq<nat>, existing: seq<string>, j: nat)
    requires j <= |plan|
    requires forall i, t :: 0 <= i < j && 0 <= t < FreshSets(p, plan, j)[i].count ==>
      SetName(FreshSets(p, plan, j)[i], t) in existing
    ensures PartitionSets(p, plan, existing, AllowExisting, j) == Success([])
  {
    var first := FreshSets(p, plan, j);
    forall i | 0 <= i < j ensures CountExisting(p, i, plan[i], existing) == plan[i] {
      BatchAlreadyCreated(p, i, plan[i], existing, first[i]);
    }
    FullBatchesSkipped(p, plan, existing, j);
  }

  lemma {:induction false} FullBatchesSkipped(p: Partition, plan: seq<nat>, existing: seq<string>, j: nat)
    requires j <= |plan|
    requires forall i :: 0 <= i < j ==> CountExisting(p, i, plan[i], existing) == plan[i]
    ensures PartitionSets(p, plan, existing, AllowExisting, j) == Success([])
  {
    if j > 0 {
      FullBatchesSkipped(p, plan, existing, j - 1);
    }
  }

  lemma BatchAlreadyCreated(p: Partition, b: nat, size: nat, existing: seq<string>, s: RequestSet)
    requires s == MakeSet(p, b, size, 1)
    requires forall t :: 0 <= t < size ==> SetName(s, t) in existing
    ensures CountExisting(p, b, size, existing) == size
  {
    forall k | 1 <= k <= size ensures NodeName(p, b, k) in existing {
      NameFormatYieldsNodeNames(p, b, k, k);
      assert SetName(s, k - 1) in existing;
    }
    AllExistCountFull(p, b, size, existing);
  }

  lemma {:induction false} BatchFailurePersists(p: Partition, plan: seq<nat>, existing: seq<string>,
                                                policy: ExistingNodePolicy, j: nat, k: nat)
    requires j <= k <= |plan|
    requires PartitionSets(p, plan, existing, policy, j).Failure?
    ensures PartitionSets(p, plan, existing, policy, k) == PartitionSets(p, plan, existing, policy, j)
    decreases k
  {
    if k > j {
      BatchFailurePersists(p, plan, existing, policy, j, k - 1);
    }
  }

  lemma {:induction false} PartitionFailurePersists(ps: PartitionMap, expand: string -> seq<string>,
                                                    policy: ExistingNodePolicy, n: nat)
    requires forall q :: q in ps ==> Provisionable(q)
    requires n <= |ps| && CreationRequest(ps[..n], expand, policy).Failure?
    ensures CreationRequest(ps, expand, policy) == CreationRequest(ps[..n], expand, policy)
  {
    if n < |ps| {
      var prefix := ps[..|ps| - 1];
      assert prefix[..n] == ps[..n];
      PartitionFailurePersists(prefix, expand, policy, n);
    } else {
      assert ps[..n] == ps;
    }
  }

  /** Under `AllowExisting` a creation request is always produced. */
  lemma {:induction false} AllowExistingNeverFails(ps: PartitionMap, expand: string -> seq<string>)
    requires forall q :: q in ps ==> Provisionable(q)
    ensures CreationRequest(ps, expand, AllowExisting).Success?
  {
    if ps != [] {
      var last := ps[|ps| - 1];
      AllowExistingNeverFails(ps[..|ps| - 1], expand);
      AllowExistingFillsShortfall(last, Plan(last), ExistingNames(last, expand), |Plan(last)|);
    }
  }

  /** Some batch of `q` already has a node of its own. */
  predicate HasConflict(q: Partition, expand: string -> seq<string>)
    requires Provisionable(q)
  {
    exists i :: 0 <= i < |Plan(q)| && CountExisting(q, i, Plan(q)[i], ExistingNames(q, expand)) > 0
  }

  /** Under `Error` the whole request fails exactly when some partition
      already has a node in one of its batches. */
  lemma {:induction false} ErrorPolicyFailsIffAnyConflict(ps: PartitionMap, expand: string -> seq<string>)
    requires forall q :: q in ps ==> Provisionable(q)
    ensures CreationRequest(ps, expand, Error).Failure? <==>
      exists n :: 0 <= n < |ps| && HasConflict(ps[n], expand)
  {
    if ps != [] {
      var prefix := ps[..|ps| - 1];
      var last := ps[|ps| - 1];
      assert forall q :: q in prefix ==> q in ps;
      ErrorPolicyFailsIffAnyConflict(prefix, expand);
      if CreationRequest(prefix, expand, Error).Failure? {
        var n :| 0 <= n < |prefix| && HasConflict(prefix[n], expand);
        assert prefix[n] == ps[n];
      } else {
        var pr := PartitionRequest(last, ExistingNames(last, expand), Error);
        assert CreationRequest(ps, expand, Error).Failure? <==> pr.Failure?;
        ErrorPolicyFailsIffExisting(last, Plan(last), ExistingNames(last, expand), |Plan(last)|);
        assert pr.Failure? <==> HasConflict(last, expand);
        forall m | 0 <= m < |prefix| ensures !HasConflict(ps[m], expand) {
          assert prefix[m] == ps[m];
        }
        if exists n :: 0 <= n < |ps| && HasConflict(ps[n], expand) {
          var n :| 0 <= n < |ps| && HasConflict(ps[n], expand);
          assert n == |ps| - 1;
        }
        if HasConflict(last, expand) {
          assert ps[|ps| - 1] == last;
        }
      }
    }
  }

  /** The batch loop of `_create_nodes` for one partition. */
  method BuildPartitionRequest(p: Partition, existing: seq<string>, policy: ExistingNodePolicy)
    returns (r: Result<seq<RequestSet>, SlurmError>)
    requires Provisionable(p)
    ensures r == PartitionRequest(p, existing, policy)
  {
    r := BuildBatches(p, Plan(p), existing, policy);
  }

  /** The loop over the batches of `plan`, stopping at the first conflict
      under `Error`. */
  method BuildBatches(p: Partition, plan: seq<nat>, existing: seq<string>, policy: ExistingNodePolicy)
    returns (r: Result<seq<RequestSet>, SlurmError>)
    ensures r == PartitionSets(p, plan, existing, policy, |plan|)
  {
    var sets: seq<RequestSet> := [];
    var j := 0;
    while j < |plan|
      invariant 0 <= j <= |plan|
      invariant PartitionSets(p, plan, existing, policy, j) == Success(sets)
    {
      var size := plan[j];
      var e := CountExisting(p, j, size, existing);
      if e > 0 && policy == Error {
        BatchFailurePersists(p, plan, existing, policy, j + 1, |plan|);
        return Failure(ExistingNodeConflict(p.name));
      }
      if e < size {
        sets := sets + [MakeSet(p, j, size - e, e + 1)];
      }
      j := j + 1;
    }
    r := Success(sets);
  }

  /** The collecting loop of `_create_nodes`, partition by partition; the
      first conflict under `Error` stops it before any request is sent. */
  method BuildCreationRequest(ps: PartitionMap, expand: string -> seq<string>, policy: ExistingNodePolicy)
    returns (r: Result<seq<RequestSet>, SlurmError>)
    requires forall q :: q in ps ==> Provisionable(q)
    ensures r == CreationRequest(ps, expand, policy)
  {
    var sets: seq<RequestSet> := [];
    var n := 0;
    while n < |ps|
      invariant 0 <= n <= |ps|
      invariant CreationRequest(ps[..n], expand, policy) == Success(sets)
    {
      var more := BuildPartitionRequest(ps[n], ExistingNames(ps[n], expand), policy);
      assert ps[..n + 1][..n] == ps[..n];
      if more.Failure? {
        PartitionFailurePersists(ps, expand, policy, n + 1);
        return more;
      }
      sets := sets + more.value;
      n := n + 1;
    }
    assert ps[..n] == ps;
    r := Success(sets);
  }
}
