/** `test_generate_slurm_conf` replayed against the subprocess mock: the
    six queued hostlist calls are the ones rendering makes, partition by
    partition (expand its `node_list`, then compress each run of hosts), so
    the block exits with nothing left over. */
module SlurmConfSession {
  import opened Wrappers
  import opened Text
  import opened Partitions
  import opened Mocks
  import opened Hostlist
  import opened SlurmConf
  import opened SlurmConfScenarios

  lemma HostsAreWords()
    ensures forall k :: 0 <= k < |HpcHosts| ==> IsWord(HpcHosts[k])
    ensures forall k :: 0 <= k < |HtcHosts| ==> IsWord(HtcHosts[k])
  {
  }

  /** The queue the test sets up, in its order. */
  function TestQueue(): seq<Expectation>
  {
    [ Expectation(HostnamesArgs("hpc-10[1-8]"), Some(Join(HpcHosts, " "))),
      Expectation(HostlistArgs(HpcHosts[..3]), Some("hpc-10[1-3]")),
      Expectation(HostlistArgs(HpcHosts[3..6]), Some("hpc-10[4-6]")),
      Expectation(HostlistArgs(HpcHosts[6..]), Some("hpc-10[7-8]")),
      Expectation(HostnamesArgs("pre-htc-[1-8]"), Some(Join(HtcHosts, " "))),
      Expectation(HostlistArgs(HtcHosts), Some("pre-htc-[1-8]")) ]
  }

  /** The HPC partition's calls: its hosts, then one compression per run
      of 3. */
  method HpcCalls(sub: MockSubprocess) returns (hosts: seq<string>, c0: string, c1: string, c2: string)
    requires sub.expectations == TestQueue()
    modifies sub
    ensures hosts == HpcHosts
    ensures c0 == "hpc-10[1-3]" && c1 == "hpc-10[4-6]" && c2 == "hpc-10[7-8]"
    ensures sub.expectations == TestQueue()[4..]
  {
    HostsAreWords();
    ExpandAnswered(sub.expectations, Hpc.nodeList.value, HpcHosts);
    var e := Expand(sub, Hpc.nodeList.value);
    hosts := e.value;
    HpcRuns();
    var runs := Chunks(hosts, Hpc.maxScalesetSize);
    assert runs == [HpcHosts[..3], HpcHosts[3..6], HpcHosts[6..]];
    c0 := CompressNext(sub, runs[0], "hpc-10[1-3]");
    c1 := CompressNext(sub, runs[1], "hpc-10[4-6]");
    c2 := CompressNext(sub, runs[2], "hpc-10[7-8]");
  }

  /** The non-HPC partition's calls: its hosts, then a single run. */
  method HtcCalls(sub: MockSubprocess) returns (hosts: seq<string>, c: string)
    requires sub.expectations == TestQueue()[4..]
    modifies sub
    ensures hosts == HtcHosts && c == "pre-htc-[1-8]"
    ensures sub.expectations == []
  {
    HostsAreWords();
    ExpandAnswered(sub.expectations, Htc.nodeList.value, HtcHosts);
    var e := Expand(sub, Htc.nodeList.value);
    hosts := e.value;
    HtcRuns();
    var runs := Chunks(hosts, Htc.maxScalesetSize);
    var r := Compress(sub, runs[0]);
    c := r.value;
  }

  /** The hostlist service as the replies describe it. */
  function ExpandFrom(hpcHosts: seq<string>, htcHosts: seq<string>): string -> seq<string>
  {
    range => if range == "hpc-10[1-8]" then hpcHosts else if range == "pre-htc-[1-8]" then htcHosts else []
  }

  function CompressFrom(c0: string, c1: string, c2: string, c3: string): seq<string> -> string
  {
    names =>
      if names == HpcHosts[..3] then c0 else if names == HpcHosts[3..6] then c1
      else if names == HpcHosts[6..] then c2 else c3
  }

  lemma RepliesAnswer()
    ensures HostlistAnswers(ExpandFrom(HpcHosts, HtcHosts),
                            CompressFrom("hpc-10[1-3]", "hpc-10[4-6]", "hpc-10[7-8]", "pre-htc-[1-8]"))
  {
    assert HpcHosts[..3][0] != HpcHosts[3..6][0] && HpcHosts[..3][0] != HpcHosts[6..][0] && HpcHosts[3..6][0] != HpcHosts[6..][0];
    assert HtcHosts[0] != HpcHosts[..3][0] && HtcHosts[0] != HpcHosts[3..6][0] && HtcHosts[0] != HpcHosts[6..][0];
  }

  /** The configuration rendered from the replies the calls received. */
  lemma RepliedText(hpcHosts: seq<string>, htcHosts: seq<string>, c0: string, c1: string, c2: string, c3: string)
    requires hpcHosts == HpcHosts && htcHosts == HtcHosts
    requires c0 == "hpc-10[1-3]" && c1 == "hpc-10[4-6]" && c2 == "hpc-10[7-8]" && c3 == "pre-htc-[1-8]"
    ensures forall q :: q in [Hpc, Htc] ==> Renderable(q)
    ensures RenderAll(SlurmConfLines([Hpc, Htc], ExpandFrom(hpcHosts, htcHosts), CompressFrom(c0, c1, c2, c3)))
         == HpcHeaderText + HpcNodesText + HtcText
  {
    RepliesAnswer();
    ConfText(ExpandFrom(hpcHosts, htcHosts), CompressFrom(c0, c1, c2, c3));
  }

  /** The whole test: the lines are the expected configuration and the block
      exits cleanly. */
  method SlurmConfSessionRun() returns (text: seq<string>, exit: Outcome<MockFailure>)
    ensures text == HpcHeaderText + HpcNodesText + HtcText
    ensures exit == Pass
  {
    var sub := Queued(TestQueue());
    var hpcHosts, c0, c1, c2 := HpcCalls(sub);
    var htcHosts, c3 := HtcCalls(sub);
    RepliedText(hpcHosts, htcHosts, c0, c1, c2, c3);
    text := RenderAll(SlurmConfLines([Hpc, Htc], ExpandFrom(hpcHosts, htcHosts), CompressFrom(c0, c1, c2, c3)));
    exit := sub.Exit(false);
  }
}
