/** Sending the sets of a creation request to the cluster, one request per
    set. In this model `_create_nodes` sends only once every partition's
    sets are worked out. */
module Submission {
  import opened Wrappers
  import opened Cluster
  import opened Mocks
  import opened Provision

  /** Each set in a request of its own. */
  function Singletons(sets: seq<RequestSet>): (r: seq<seq<RequestSet>>)
    ensures |r| == |sets| && forall i :: 0 <= i < |sets| ==> r[i] == [sets[i]]
  {
    if sets == [] then [] else Singletons(sets[..|sets| - 1]) + [[sets[|sets| - 1]]]
  }

  /** How many of `sets`, from the front, the queue `expected` accepts one
      at a time: each accepted set is the one-set request expected in its
      turn, and the next set, if any, either finds nothing expected or a
      different request. */
  function Accepted(expected: seq<seq<RequestSet>>, sets: seq<RequestSet>): (k: nat)
    ensures k <= |sets| && k <= |expected|
    ensures forall j :: 0 <= j < k ==> expected[j] == [sets[j]]
    ensures k < |sets| && k < |expected| ==> expected[k] != [sets[k]]
  {
    if sets == [] || expected == [] || expected[0] != [sets[0]] then 0
    else
      var k := 1 + Accepted(expected[1..], sets[1..]);
      assert forall j :: 1 <= j < k ==> expected[1..][j - 1] == expected[j] && sets[1..][j - 1] == sets[j];
      k
  }

  /** The sets `expected` accepts are exactly those of a prefix matching
      the queue: a match up to `i` that stops at `i` means `i` are accepted. */
  lemma AcceptedAt(expected: seq<seq<RequestSet>>, sets: seq<RequestSet>, i: nat)
    requires i <= |sets| && i <= |expected|
    requires expected[..i] == Singletons(sets[..i])
    requires i == |sets| || i == |expected| || expected[i] != [sets[i]]
    ensures Accepted(expected, sets) == i
  {
  }

  /** The submission loop: stops at the first refused request. It succeeds
      exactly when the cluster expected these one-set requests next, in this
      order; it then reports every requested node as added. Otherwise the
      requests up to and including the refused one are used up, and the
      error is the mismatch, or the empty queue. Nothing but the queue of
      expected requests changes. */
  method SubmitSets(cluster: MockCluster, sets: seq<RequestSet>) returns (r: Result<nat, MockFailure>)
    modifies cluster
    ensures r.Success? <==>
      |sets| <= |old(cluster.expectedCreateRequests)| && old(cluster.expectedCreateRequests)[..|sets|] == Singletons(sets)
    ensures r.Success? ==>
      r.value == SumCounts(sets) && cluster.expectedCreateRequests == old(cluster.expectedCreateRequests)[|sets|..]
    ensures var q := old(cluster.expectedCreateRequests); var k := Accepted(q, sets);
      k < |sets| ==>
        if k < |q| then r == Failure(RequestMismatch(q[k], [sets[k]])) && cluster.expectedCreateRequests == q[k + 1..]
        else r == Failure(NoExpectedRequest) && cluster.expectedCreateRequests == []
    ensures cluster.clusterStatusResponse == old(cluster.clusterStatusResponse)
    ensures cluster.expectedStartRequest == old(cluster.expectedStartRequest)
    ensures cluster.startedNodes == old(cluster.startedNodes)
  {
    ghost var queue := cluster.expectedCreateRequests;
    var total := 0;
    var i := 0;
    while i < |sets|
      invariant 0 <= i <= |sets| && i <= |queue|
      invariant queue[..i] == Singletons(sets[..i])
      invariant cluster.expectedCreateRequests == queue[i..]
      invariant total == SumCounts(sets[..i])
      invariant cluster.clusterStatusResponse == old(cluster.clusterStatusResponse)
      invariant cluster.expectedStartRequest == old(cluster.expectedStartRequest)
      invariant cluster.startedNodes == old(cluster.startedNodes)
    {
      var added := cluster.CreateNodes(cluster.name, [sets[i]]);
      if added.Failure? {
        AcceptedAt(queue, sets, i);
        if i < |queue| {
          assert queue[i..][1..] == queue[i + 1..];
        }
        return Failure(added.error);
      }
      assert added.value == [sets[i].count];
      assert sets[..i + 1][..i] == sets[..i];
      assert queue[..i + 1] == queue[..i] + [queue[i]];
      total := total + added.value[0];
      i := i + 1;
    }
    assert sets[..i] == sets;
    AcceptedAt(queue, sets, i);
    r := Success(total);
  }
}
