/** The test doubles the core is driven through: `MockSubprocessModule`, a
    first-in first-out queue of expected command lines with canned replies,
    and `MockClusterModule`, which checks each node-creation request against
    a queue of expected ones and records the nodes it starts. A failed
    `assert` of the doubles is a `MockFailure`. */
module Mocks {
  import opened Wrappers
  import opened Text
  import opened Cluster

  /** An expected command line and the reply to give for it. */
  datatype Expectation = Expectation(args: seq<string>, response: Option<string>)

  datatype MockFailure =
    | UnexpectedCall(args: seq<string>)                          // `check_output` with nothing queued
    | EmptyQueue                                                 // `check_call` with nothing queued
    | ArgsMismatch(expected: seq<string>, actual: seq<string>)
    | Unconsumed(pending: nat)                                   // expectations left on a clean exit
    | WrongCluster(clusterName: string)
    | NoExpectedRequest                                          // `create_nodes` with nothing queued
    | RequestMismatch(expectedSets: seq<RequestSet>, actualSets: seq<RequestSet>)
    | StartMismatch(expectedNames: Option<seq<string>>, actualNames: seq<string>)
    | NoReply(command: seq<string>)                              // a command that printed nothing

  /** One `check_output(args)`: the front expectation is removed; its reply
      is given when its command line is `args`. */
  function Serve(queue: seq<Expectation>, args: seq<string>): (Result<Option<string>, MockFailure>, seq<Expectation>)
  {
    if queue == [] then (Failure(UnexpectedCall(args)), queue)
    else if queue[0].args == args then (Success(queue[0].response), queue[1..])
    else (Failure(ArgsMismatch(queue[0].args, args)), queue[1..])
  }

  /** A run of `check_output` calls, stopping at the first failure: the
      replies and the queue left behind. */
  function ServeAll(queue: seq<Expectation>, calls: seq<seq<string>>): (Result<seq<Option<string>>, MockFailure>, seq<Expectation>)
  {
    if calls == [] then (Success([]), queue)
    else
      var (first, rest) := Serve(queue, calls[0]);
      if first.Failure? then (Failure(first.error), rest)
      else
        var (more, left) := ServeAll(rest, calls[1..]);
        if more.Failure? then (more, left) else (Success([first.value] + more.value), left)
  }

  function ArgsOf(queue: seq<Expectation>): (r: seq<seq<string>>)
    ensures |r| == |queue| && forall i :: 0 <= i < |queue| ==> r[i] == queue[i].args
  {
    if queue == [] then [] else [queue[0].args] + ArgsOf(queue[1..])
  }

  function ResponsesOf(queue: seq<Expectation>): (r: seq<Option<string>>)
    ensures |r| == |queue| && forall i :: 0 <= i < |queue| ==> r[i] == queue[i].response
  {
    if queue == [] then [] else [queue[0].response] + ResponsesOf(queue[1..])
  }

  /** Both directions: a run of calls succeeds exactly when the calls are
      the queued command lines, in queued order. */
  lemma {:induction false} ServeAllSucceedsIff(queue: seq<Expectation>, calls: seq<seq<string>>)
    ensures ServeAll(queue, calls).0.Success? <==> |calls| <= |queue| && calls == ArgsOf(queue[..|calls|])
  {
    if calls != [] && queue != [] {
      ServeAllSucceedsIff(queue[1..], calls[1..]);
      if |calls| <= |queue| {
        assert queue[..|calls|][1..] == queue[1..][..|calls| - 1];
        assert calls == [calls[0]] + calls[1..];
        assert ArgsOf(queue[..|calls|]) == [queue[0].args] + ArgsOf(queue[1..][..|calls| - 1]);
      }
    } else if calls != [] {
      assert |calls| > |queue|;
    }
  }

  /** A successful run answers with the queued replies, in order, and
      leaves the expectations it did not reach. */
  lemma {:induction false} ServeAllReplies(queue: seq<Expectation>, calls: seq<seq<string>>)
    requires ServeAll(queue, calls).0.Success?
    ensures |calls| <= |queue|
    ensures ServeAll(queue, calls).0.value == ResponsesOf(queue[..|calls|])
    ensures ServeAll(queue, calls).1 == queue[|calls|..]
  {
    if calls != [] {
      ServeAllReplies(queue[1..], calls[1..]);
      assert queue[..|calls|][1..] == queue[1..][..|calls| - 1];
      assert queue[1..][|calls| - 1..] == queue[|calls|..];
    }
  }

  /** Leaving a `with` block: an exception passes through; a clean exit
      requires every expectation to have been used. */
  function ExitOutcome(queue: seq<Expectation>, raised: bool): (r: Outcome<MockFailure>)
    ensures r.Pass? <==> raised || queue == []
  {
    if !raised && queue != [] then Fail(Unconsumed(|queue|)) else Pass
  }

  /** Replaying exactly the queued command lines gets exactly the queued
      replies and lets the block exit cleanly. */
  lemma ReplayDrains(queue: seq<Expectation>)
    ensures ServeAll(queue, ArgsOf(queue)) == (Success(ResponsesOf(queue)), [])
    ensures ExitOutcome(ServeAll(queue, ArgsOf(queue)).1, false) == Pass
  {
    ServeAllSucceedsIff(queue, ArgsOf(queue));
    assert queue[..|queue|] == queue;
    ServeAllReplies(queue, ArgsOf(queue));
  }

  /** `MockSubprocessModule` */
  class MockSubprocess {
    var expectations: seq<Expectation>

    constructor()
      ensures expectations == []
    {
      expectations := [];
    }

    /** `expect(args, response)` with the command line as a list. */
    method Expect(args: seq<string>, response: Option<string>)
      modifies this
      ensures expectations == old(expectations) + [Expectation(args, response)]
    {
      expectations := expectations + [Expectation(args, response)];
    }

    /** `expect(args, response)` with the command line as one string, split
      on whitespace. */
    method ExpectLine(line: string, response: Option<string>)
      modifies this
      ensures expectations == old(expectations) + [Expectation(SplitWords(line), response)]
    {
      Expect(SplitWords(line), response);
    }

    method CheckOutput(args: seq<string>) returns (r: Result<Option<string>, MockFailure>)
      modifies this
      ensures (r, expectations) == Serve(old(expectations), args)
    {
      if expectations == [] {
        return Failure(UnexpectedCall(args));
      }
      var expected := expectations[0];
      expectations := expectations[1..];
      if expected.args != args {
        return Failure(ArgsMismatch(expected.args, args));
      }
      r := Success(expected.response);
    }

    /** `check_call(args)`: like `check_output` without a reply; with nothing
      queued the pop itself fails. */
    method CheckCall(args: seq<string>) returns (r: Outcome<MockFailure>)
      modifies this
      ensures old(expectations) == [] ==> r == Fail(EmptyQueue) && expectations == old(expectations)
      ensures old(expectations) != [] ==> expectations == old(expectations)[1..]
      ensures old(expectations) != [] ==>
        r == if old(expectations)[0].args == args then Pass else Fail(ArgsMismatch(old(expectations)[0].args, args))
    {
      if expectations == [] {
        return Fail(EmptyQueue);
      }
      var expected := expectations[0];
      expectations := expectations[1..];
      r := if expected.args == args then Pass else Fail(ArgsMismatch(expected.args, args));
    }

    /** `__exit__` */
    method Exit(raised: bool) returns (r: Outcome<MockFailure>)
      ensures r == ExitOutcome(expectations, raised)
    {
      if !raised && |expectations| != 0 {
        return Fail(Unconsumed(|expectations|));
      }
      r := Pass;
    }
  }

  /** A fresh subprocess mock on which `expect` was called for each entry of
      `queue`, in order. */
  method Queued(queue: seq<Expectation>) returns (sub: MockSubprocess)
    ensures fresh(sub) && sub.expectations == queue
  {
    sub := new MockSubprocess();
    var i := 0;
    while i < |queue|
      invariant 0 <= i <= |queue|
      invariant sub.expectations == queue[..i]
    {
      sub.Expect(queue[i].args, queue[i].response);
      assert queue[..i + 1] == queue[..i] + [queue[i]];
      i := i + 1;
    }
    assert queue[..|queue|] == queue;
  }

  const StartOperationId: string := "start_nodes-operation-id"

  /** The private address the mock gives the `i`-th started node. */
  function PrivateIp(i: nat): string
  {
    "10.1.0." + NatToString(i)
  }

  /** What `create_nodes` answers: every set's whole count was added. */
  function Added(sets: seq<RequestSet>): (r: seq<nat>)
    ensures |r| == |sets| && forall i :: 0 <= i < |sets| ==> r[i] == sets[i].count
  {
    if sets == [] then [] else Added(sets[..|sets| - 1]) + [sets[|sets| - 1].count]
  }

  /** The record `start_nodes` keeps for the `i`-th named node: only its
      name, target state, state and address are set. */
  function StartedRecord(name: string, i: nat): Node
  {
    Node(name, None, None, None, false, Some("Started"), Some("Started"), Some(PrivateIp(i)))
  }

  /** The records `start_nodes` keeps for the named nodes, in order. */
  function StartedRecords(names: seq<string>): (r: seq<Node>)
    ensures |r| == |names|
    ensures forall i :: 0 <= i < |names| ==>
      r[i] == Node(names[i], None, None, None, false, Some("Started"), Some("Started"), Some(PrivateIp(i)))
  {
    if names == [] then []
    else StartedRecords(names[..|names| - 1]) + [StartedRecord(names[|names| - 1], |names| - 1)]
  }

  /** Distinct started nodes get distinct addresses. */
  lemma StartedAddressesDistinct(names: seq<string>, i: nat, j: nat)
    requires i < j < |names|
    ensures StartedRecords(names)[i].privateIp != StartedRecords(names)[j].privateIp
  {
    var a, b := NatToString(i), NatToString(j);
    if PrivateIp(i) == PrivateIp(j) {
      assert a == PrivateIp(i)[7..] && b == PrivateIp(j)[7..];
      NatToStringInjective(i, j);
    }
  }

  /** `MockClusterModule` */
  class MockCluster {
    const name: string
    var clusterStatusResponse: Option<seq<NodearrayStatus>>
    var expectedCreateRequests: seq<seq<RequestSet>>
    var expectedStartRequest: Option<seq<string>>
    var startedNodes: seq<Node>   // `_started_nodes`, which tests also set directly

    constructor()
      ensures name == "mock-cluster"
      ensures clusterStatusResponse == None && expectedCreateRequests == []
      ensures expectedStartRequest == None && startedNodes == []
    {
      name := "mock-cluster";
      clusterStatusResponse := None;
      expectedCreateRequests := [];
      expectedStartRequest := None;
      startedNodes := [];
    }

    /** `expected_create_nodes_requests.append({"sets": sets})` */
    method ExpectCreate(sets: seq<RequestSet>)
      modifies this
      ensures expectedCreateRequests == old(expectedCreateRequests) + [sets]
      ensures clusterStatusResponse == old(clusterStatusResponse)
      ensures expectedStartRequest == old(expectedStartRequest) && startedNodes == old(startedNodes)
    {
      expectedCreateRequests := expectedCreateRequests + [sets];
    }

    method GetClusterStatus(clusterName: string) returns (r: Result<Option<seq<NodearrayStatus>>, MockFailure>)
      ensures r == if clusterName == name then Success(clusterStatusResponse) else Failure(WrongCluster(clusterName))
    {
      if clusterName != name {
        return Failure(WrongCluster(clusterName));
      }
      r := Success(clusterStatusResponse);
    }

    /** `create_nodes`: the front expected request is removed and compared
      with `sets`; a matching request is answered as fully added. */
    method CreateNodes(clusterName: string, sets: seq<RequestSet>) returns (r: Result<seq<nat>, MockFailure>)
      modifies this
      ensures clusterStatusResponse == old(clusterStatusResponse)
      ensures expectedStartRequest == old(expectedStartRequest) && startedNodes == old(startedNodes)
      ensures clusterName != name ==>
        r == Failure(WrongCluster(clusterName)) && expectedCreateRequests == old(expectedCreateRequests)
      ensures clusterName == name && old(expectedCreateRequests) == [] ==>
        r == Failure(NoExpectedRequest) && expectedCreateRequests == old(expectedCreateRequests)
      ensures clusterName == name && old(expectedCreateRequests) != [] ==>
        && expectedCreateRequests == old(expectedCreateRequests)[1..]
        && r == if old(expectedCreateRequests)[0] == sets then Success(Added(sets))
                else Failure(RequestMismatch(old(expectedCreateRequests)[0], sets))
    {
      if clusterName != name {
        return Failure(WrongCluster(clusterName));
      }
      if expectedCreateRequests == [] {
        return Failure(NoExpectedRequest);
      }
      var expected := expectedCreateRequests[0];
      expectedCreateRequests := expectedCreateRequests[1..];
      if expected != sets {
        return Failure(RequestMismatch(expected, sets));
      }
      var added: seq<nat> := [];
      var i := 0;
      while i < |sets|
        invariant 0 <= i <= |sets|
        invariant added == Added(sets[..i])
      {
        assert sets[..i + 1][..i] == sets[..i];
        added := added + [sets[i].count];
        i := i + 1;
      }
      assert sets[..i] == sets;
      r := Success(added);
    }

    /** `start_nodes`: the request must be the expected one; the named nodes
      replace the started ones, each `Started` with its own address. */
    method StartNodes(clusterName: string, names: seq<string>) returns (r: Result<string, MockFailure>)
      modifies this
      ensures clusterStatusResponse == old(clusterStatusResponse)
      ensures expectedCreateRequests == old(expectedCreateRequests) && expectedStartRequest == old(expectedStartRequest)
      ensures clusterName != name ==> r == Failure(WrongCluster(clusterName)) && startedNodes == old(startedNodes)
      ensures clusterName == name && expectedStartRequest != Some(names) ==>
        r == Failure(StartMismatch(expectedStartRequest, names)) && startedNodes == old(startedNodes)
      ensures clusterName == name && expectedStartRequest == Some(names) ==>
        r == Success(StartOperationId) && startedNodes == StartedRecords(names)
    {
      if clusterName != name {
        return Failure(WrongCluster(clusterName));
      }
      if expectedStartRequest != Some(names) {
        return Failure(StartMismatch(expectedStartRequest, names));
      }
      var started: seq<Node> := [];
      var n := 0;
      while n < |names|
        invariant 0 <= n <= |names|
        invariant started == StartedRecords(names[..n])
      {
        assert names[..n + 1][..n] == names[..n];
        started := started + [StartedRecord(names[n], n)];
        n := n + 1;
      }
      assert names[..n] == names;
      startedNodes := started;
      r := Success(StartOperationId);
    }

    /** `get_nodes`: whatever `_started_nodes` holds. */
    method GetNodes() returns (nodes: seq<Node>)
      ensures nodes == startedNodes
    {
      nodes := startedNodes;
    }
  }
}
