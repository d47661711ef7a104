/** The hostlist service: Slurm's `scontrol show hostlist` compresses node
    names into a range expression and `scontrol show hostnames` expands one.
    The core reaches it through the subprocess module; here that is the
    mock, whose queued replies stand for the service's answers. */
module Hostlist {
  import opened Wrappers
  import opened Text
  import opened Mocks

  function HostlistArgs(names: seq<string>): seq<string>
  {
    ["scontrol", "show", "hostlist", Join(names, ",")]
  }

  function HostnamesArgs(range: string): seq<string>
  {
    ["scontrol", "show", "hostnames", range]
  }

  /** The range expression in a `show hostlist` reply. */
  function CompressReply(args: seq<string>, reply: Result<Option<string>, MockFailure>): (r: Result<string, MockFailure>)
    ensures r.Success? <==> reply.Success? && reply.value.Some?
    ensures r.Success? ==> r.value == reply.value.value
  {
    match reply
    case Failure(e) => Failure(e)
    case Success(None) => Failure(NoReply(args))
    case Success(Some(s)) => Success(s)
  }

  /** The node names in a `show hostnames` reply: its whitespace-separated
      words. */
  function ExpandReply(args: seq<string>, reply: Result<Option<string>, MockFailure>): (r: Result<seq<string>, MockFailure>)
    ensures r.Success? <==> reply.Success? && reply.value.Some?
    ensures r.Success? ==> forall k :: 0 <= k < |r.value| ==> IsWord(r.value[k])
  {
    match reply
    case Failure(e) => Failure(e)
    case Success(None) => Failure(NoReply(args))
    case Success(Some(s)) => Success(SplitWords(s))
  }

  /** Compressing `names` through the subprocess module. */
  method Compress(sub: MockSubprocess, names: seq<string>) returns (r: Result<string, MockFailure>)
    modifies sub
    ensures var (reply, left) := Serve(old(sub.expectations), HostlistArgs(names));
      r == CompressReply(HostlistArgs(names), reply) && sub.expectations == left
  {
    var args := HostlistArgs(names);
    var reply := sub.CheckOutput(args);
    r := CompressReply(args, reply);
  }

  /** Expanding `range` through the subprocess module. */
  method Expand(sub: MockSubprocess, range: string) returns (r: Result<seq<string>, MockFailure>)
    modifies sub
    ensures var (reply, left) := Serve(old(sub.expectations), HostnamesArgs(range));
      r == ExpandReply(HostnamesArgs(range), reply) && sub.expectations == left
  {
    var args := HostnamesArgs(range);
    var reply := sub.CheckOutput(args);
    r := ExpandReply(args, reply);
  }

  /** When the next expectation is this `show hostnames` call answered with
      some names joined by spaces, expanding gives exactly those names and
      uses up that expectation. */
  lemma ExpandAnswered(queue: seq<Expectation>, range: string, names: seq<string>)
    requires queue != [] && queue[0] == Expectation(HostnamesArgs(range), Some(Join(names, " ")))
    requires forall k :: 0 <= k < |names| ==> IsWord(names[k])
    ensures ExpandReply(HostnamesArgs(range), Serve(queue, HostnamesArgs(range)).0) == Success(names)
    ensures Serve(queue, HostnamesArgs(range)).1 == queue[1..]
  {
    SplitJoinRoundTrip(names);
  }

  /** When the next expectation is this `show hostlist` call answered with a
      range, compressing gives that range and uses up that expectation. */
  lemma CompressAnswered(queue: seq<Expectation>, names: seq<string>, range: string)
    requires queue != [] && queue[0] == Expectation(HostlistArgs(names), Some(range))
    ensures CompressReply(HostlistArgs(names), Serve(queue, HostlistArgs(names)).0) == Success(range)
    ensures Serve(queue, HostlistArgs(names)).1 == queue[1..]
  {
  }

  /** Compressing `names` when that call is the next one expected. */
  method CompressNext(sub: MockSubprocess, names: seq<string>, range: string) returns (r: string)
    requires sub.expectations != [] && sub.expectations[0] == Expectation(HostlistArgs(names), Some(range))
    modifies sub
    ensures r == range && sub.expectations == old(sub.expectations)[1..]
  {
    CompressAnswered(sub.expectations, names, range);
    var c := Compress(sub, names);
    r := c.value;
  }

  /** Any other next expectation fails the expansion. */
  lemma ExpandOutOfOrder(queue: seq<Expectation>, range: string)
    requires queue == [] || queue[0].args != HostnamesArgs(range)
    ensures ExpandReply(HostnamesArgs(range), Serve(queue, HostnamesArgs(range)).0).Failure?
  {
  }
}
