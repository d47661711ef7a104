/** The calls `test_create_nodes` makes, replayed against the mocks: the
    cluster expects each set of the first request on its own, the default
    `Error` policy then refuses to create over the 8 existing nodes, and
    `AllowExisting` sends only the shortfall. The existing names come from
    the subprocess mock's `show hostnames` reply. */
module ProvisionSession {
  import opened Wrappers
  import opened Text
  import opened Cluster
  import opened Errors
  import opened Provision
  import opened Mocks
  import opened Hostlist
  import opened Submission
  import opened ProvisionScenarios

  /** The names of the existing HPC nodes contain no whitespace. */
  lemma ExistingAreWords()
    ensures forall k :: 0 <= k < |Existing| ==> IsWord(Existing[k])
  {
  }

  lemma FirstSubmission()
    ensures Singletons([Pg0, Pg1, Pg2] + [HtcAll]) == [[Pg0], [Pg1], [Pg2], [HtcAll]]
    ensures SumCounts([Pg0, Pg1, Pg2] + [HtcAll]) == 16
  {
    var sets := [Pg0, Pg1, Pg2] + [HtcAll];
    assert sets == [Pg0, Pg1, Pg2, HtcAll];
    assert sets[..3] == [Pg0, Pg1, Pg2] && sets[..3][..2] == [Pg0, Pg1] && sets[..3][..2][..1] == [Pg0];
    assert [Pg0][..0] == [];
    assert SumCounts([Pg0]) == 3;
    assert SumCounts([Pg0, Pg1]) == 6;
    assert SumCounts([Pg0, Pg1, Pg2]) == 8;
    var r := Singletons(sets);
    assert r[0] == [Pg0] && r[1] == [Pg1] && r[2] == [Pg2] && r[3] == [HtcAll];
  }

  lemma SecondSubmission()
    ensures Singletons([Pg2Rest] + [HtcAll]) == [[Pg2Rest], [HtcAll]]
    ensures SumCounts([Pg2Rest] + [HtcAll]) == 9
  {
    var sets := [Pg2Rest] + [HtcAll];
    assert sets == [Pg2Rest, HtcAll];
    assert sets[..1] == [Pg2Rest] && [Pg2Rest][..0] == [];
    assert SumCounts([Pg2Rest]) == 1;
    var r := Singletons(sets);
    assert r[0] == [Pg2Rest] && r[1] == [HtcAll];
  }

  /** A cluster mock expecting each set of the first request on its own. */
  method ExpectFirstRequests() returns (cluster: MockCluster)
    ensures fresh(cluster)
    ensures cluster.expectedCreateRequests == [[Pg0], [Pg1], [Pg2], [HtcAll]]
  {
    cluster := new MockCluster();
    cluster.ExpectCreate([Pg0]);
    cluster.ExpectCreate([Pg1]);
    cluster.ExpectCreate([Pg2]);
    cluster.ExpectCreate([HtcAll]);
  }

  /** The first `_create_nodes`: no node exists, every batch is sent, one
      request per set, and the cluster expected exactly these. */
  method FirstCreate() returns (cluster: MockCluster, first: Result<nat, MockFailure>)
    ensures fresh(cluster)
    ensures first == Success(16) && cluster.expectedCreateRequests == []
  {
    cluster := ExpectFirstRequests();
    var unset := (s: string) => [];
    var request := BuildCreationRequest([Hpc] + [Htc], unset, Error);
    FirstCallRequestsAllBatches(unset, Error);
    var sets := request.value;
    FirstSubmission();
    assert cluster.expectedCreateRequests[..|sets|] == Singletons(sets);
    first := SubmitSets(cluster, sets);
    assert cluster.expectedCreateRequests == [[Pg0], [Pg1], [Pg2], [HtcAll]][4..];
  }

  /** The existing HPC names, as the subprocess mock's next `show hostnames`
      reply gives them. */
  method ExpandExisting(sub: MockSubprocess) returns (existing: Result<seq<string>, MockFailure>)
    requires sub.expectations != []
    requires sub.expectations[0] == Expectation(HostnamesArgs(Hpc9.nodeList.value), Some(Join(Existing, " ")))
    modifies sub
    ensures existing == Success(Existing) && sub.expectations == old(sub.expectations)[1..]
  {
    ExistingAreWords();
    ExpandAnswered(sub.expectations, Hpc9.nodeList.value, Existing);
    existing := Expand(sub, Hpc9.nodeList.value);
  }

  /** The second `_create_nodes`, under the default `Error` policy: the
      HPC batches already have nodes, so nothing is sent. */
  method RefuseExisting(sub: MockSubprocess) returns (refused: Result<seq<RequestSet>, SlurmError>)
    requires sub.expectations != []
    requires sub.expectations[0] == Expectation(HostnamesArgs(Hpc9.nodeList.value), Some(Join(Existing, " ")))
    modifies sub
    ensures refused == Failure(ExistingNodeConflict("hpc"))
    ensures sub.expectations == old(sub.expectations)[1..]
  {
    var names := ExpandExisting(sub);
    var existing := names.value;
    var expand := (s: string) => if s == Hpc9.nodeList.value then existing else [];
    refused := BuildCreationRequest([Hpc9, Htc], expand, Error);
    ErrorPolicyRefusesExisting(expand);
  }

  /** The third `_create_nodes`, under `AllowExisting`: only the missing
      ninth HPC node and the whole non-HPC partition are requested. */
  method ShortfallRequest(sub: MockSubprocess) returns (request: Result<seq<RequestSet>, SlurmError>)
    requires sub.expectations != []
    requires sub.expectations[0] == Expectation(HostnamesArgs(Hpc9.nodeList.value), Some(Join(Existing, " ")))
    modifies sub
    ensures request == Success([Pg2Rest] + [HtcAll])
    ensures sub.expectations == old(sub.expectations)[1..]
  {
    var names := ExpandExisting(sub);
    var existing := names.value;
    var expand := (s: string) => if s == Hpc9.nodeList.value then existing else [];
    request := BuildCreationRequest([Hpc9] + [Htc], expand, AllowExisting);
    AllowExistingRequestsShortfall(expand);
  }

  /** The shortfall sent to a cluster that expects exactly it. */
  method SendShortfall(cluster: MockCluster, sets: seq<RequestSet>) returns (second: Result<nat, MockFailure>)
    requires cluster.expectedCreateRequests == []
    requires sets == [Pg2Rest] + [HtcAll]
    modifies cluster
    ensures second == Success(9) && cluster.expectedCreateRequests == []
  {
    cluster.ExpectCreate([Pg2Rest]);
    cluster.ExpectCreate([HtcAll]);
    assert cluster.expectedCreateRequests == [[Pg2Rest], [HtcAll]];
    SecondSubmission();
    assert cluster.expectedCreateRequests[..|sets|] == Singletons(sets);
    second := SubmitSets(cluster, sets);
    assert cluster.expectedCreateRequests == [[Pg2Rest], [HtcAll]][2..];
  }

  /** The whole of `test_create_nodes`: every request the cluster expected
      is sent, in order, and the refused call sends none. */
  method CreateNodesSession()
    returns (first: Result<nat, MockFailure>, refused: Result<seq<RequestSet>, SlurmError>,
             second: Result<nat, MockFailure>, pending: nat)
    ensures first == Success(16)
    ensures refused == Failure(ExistingNodeConflict("hpc"))
    ensures second == Success(9)
    ensures pending == 0
  {
    var cluster;
    cluster, first := FirstCreate();
    var hostnames := Expectation(HostnamesArgs(Hpc9.nodeList.value), Some(Join(Existing, " ")));
    var sub := Queued([hostnames, hostnames, hostnames]);
    refused := RefuseExisting(sub);
    var request := ShortfallRequest(sub);
    second := SendShortfall(cluster, request.value);
    pending := |cluster.expectedCreateRequests|;
  }
}
