/** The `slurm.conf` partition stanzas (`_generate_slurm_conf`): a note on
    the memory safety margin, one `PartitionName` line, and `Nodename` lines
    for the partition's hosts in runs of at most `max_scaleset_size`. */
module SlurmConf {
  import opened Wrappers
  import opened Text
  import opened Cluster
  import opened Partitions

  /** The memory the cluster reports, in MiB, as a fraction. */
  function ReportedMiB(p: Partition): real
  {
    p.vm.memory * 1024.0
  }

  /** The reported memory rounded down, as the note quotes it. */
  function MemoryMiB(p: Partition): int
  {
    ReportedMiB(p).Floor
  }

  /** The margin kept back, unrounded: the greater of 1 GiB and the
      `dampen_memory` fraction of the reported memory. */
  function Margin(p: Partition): real
  {
    var fraction := ReportedMiB(p) * p.dampenMemory;
    if fraction > 1024.0 then fraction else 1024.0
  }

  /** The margin rounded down, as the note quotes it. */
  function MemoryReduction(p: Partition): int
  {
    Margin(p).Floor
  }

  /** `RealMemory`: the reported memory less the margin, rounded down once
      at the end. */
  function RealMemory(p: Partition): int
  {
    (ReportedMiB(p) - Margin(p)).Floor
  }

  /** Slurm is never promised more than the reported memory less 1 GiB, nor
      more than the reported memory less its dampened fraction; it is
      promised all of what is left after the larger of the two, less under
      1 MiB of rounding. */
  lemma MemoryMargin(p: Partition)
    ensures RealMemory(p) as real <= ReportedMiB(p) - 1024.0
    ensures RealMemory(p) as real <= ReportedMiB(p) - ReportedMiB(p) * p.dampenMemory
    ensures ReportedMiB(p) - Margin(p) < RealMemory(p) as real + 1.0
    ensures Margin(p) == 1024.0 || Margin(p) == ReportedMiB(p) * p.dampenMemory
  {
  }

  /** Rounding once at the end keeps either what subtracting the rounded
      margin from the rounded memory keeps, or 1 MiB less. */
  lemma RoundingOnce(p: Partition)
    ensures RealMemory(p) == MemoryMiB(p) - MemoryReduction(p)
         || RealMemory(p) == MemoryMiB(p) - MemoryReduction(p) - 1
  {
  }

  /** `CPUs`: physical cores when `use_pcpu`, virtual ones otherwise. */
  function CpuCount(p: Partition): nat
  {
    if p.usePcpu then p.vm.pcpuCount else p.vm.vcpuCount
  }

  function ThreadsPerCore(p: Partition): nat
  {
    if p.usePcpu then 2 else 1
  }

  /** A partition the renderer can handle: it has CPUs to divide memory by
      and a positive run length for its `Nodename` lines. */
  predicate Renderable(p: Partition)
  {
    CpuCount(p) > 0 && p.maxScalesetSize > 0
  }

  /** `DefMemPerCPU`: `RealMemory` divided by the CPU count, rounded down. */
  function DefMemPerCpu(p: Partition): (m: int)
    requires CpuCount(p) > 0
    ensures m * CpuCount(p) <= RealMemory(p) < (m + 1) * CpuCount(p)
  {
    RealMemory(p) / CpuCount(p)
  }

  /** `int(dampen_memory * 100)`, the percentage quoted in the note. */
  function DampenPercent(p: Partition): int
  {
    (p.dampenMemory * 100.0).Floor
  }

  /** One line of the generated configuration, before rendering. */
  datatype ConfLine =
    | OverheadNote(memoryMiB: int, reduction: int, percent: int)
    | RejectionNote
    | DampenNote
    | PartitionName(name: string, nodes: string, isDefault: bool, defMemPerCpu: int)
    | Nodename(range: string, cpus: nat, threadsPerCore: nat, realMemory: int)

  /** The text of a line. */
  function Render(line: ConfLine): string
  {
    match line
    case OverheadNote(memoryMiB, reduction, percent) =>
      "# Note: CycleCloud reported a RealMemory of " + IntToString(memoryMiB)
        + " but we reduced it by " + IntToString(reduction)
        + " (i.e. max(1gb, " + IntToString(percent)
        + "%)) to account for OS/VM overhead which"
    case RejectionNote =>
      "# would result in the nodes being rejected by Slurm if they report a number less than defined here."
    case DampenNote =>
      "# To pick a different percentage to dampen, set slurm.dampen_memory=X in the nodearray's Configuration where X is percentage (5 = 5%)."
    case PartitionName(name, nodes, isDefault, defMemPerCpu) =>
      "PartitionName=" + name + " Nodes=" + nodes
        + " Default=" + (if isDefault then "YES" else "NO")
        + " DefMemPerCPU=" + IntToString(defMemPerCpu)
        + " MaxTime=INFINITE State=UP"
    case Nodename(range, cpus, threadsPerCore, realMemory) =>
      "Nodename=" + range + " Feature=cloud state=CLOUD CPUs=" + NatToString(cpus)
        + " ThreadsPerCore=" + NatToString(threadsPerCore)
        + " RealMemory=" + IntToString(realMemory)
  }

  /** The comment placed above each `PartitionName` line. */
  function NoteLines(p: Partition): seq<ConfLine>
  {
    [OverheadNote(MemoryMiB(p), MemoryReduction(p), DampenPercent(p)), RejectionNote, DampenNote]
  }

  /** The `PartitionName` line; `Nodes=` is empty when the partition has no nodes. */
  function PartitionLine(p: Partition): ConfLine
    requires CpuCount(p) > 0
  {
    PartitionName(p.name, if p.nodeList.Some? then p.nodeList.value else "", p.isDefault, DefMemPerCpu(p))
  }

  function NodenameLine(p: Partition, range: string): ConfLine
  {
    Nodename(range, CpuCount(p), ThreadsPerCore(p), RealMemory(p))
  }

  function Flatten<T>(chunks: seq<seq<T>>): seq<T>
  {
    if chunks == [] then [] else chunks[0] + Flatten(chunks[1..])
  }

  /** Consecutive runs of `n` elements, the last possibly shorter: nothing
      is lost, reordered or repeated, and no run is empty or too long. */
  function Chunks<T>(s: seq<T>, n: nat): (r: seq<seq<T>>)
    requires n > 0
    ensures Flatten(r) == s
    ensures forall c :: 0 <= c < |r| ==> 0 < |r[c]| <= n
    ensures forall c :: 0 <= c < |r| - 1 ==> |r[c]| == n
    ensures s == [] ==> r == []
    ensures s != [] ==> (|r| - 1) * n < |s| <= |r| * n
    decreases |s|
  {
    if s == [] then []
    else if |s| <= n then [s]
    else
      var rest := Chunks(s[n..], n);
      var r := [s[..n]] + rest;
      assert r[1..] == rest;
      assert s == s[..n] + s[n..];
      r
  }

  /** The host names of a partition: its `node_list` expanded by the
      hostlist service, none when it is unset. */
  function Hosts(p: Partition, expand: string -> seq<string>): seq<string>
  {
    if p.nodeList.Some? then expand(p.nodeList.value) else []
  }

  function NodenameLines(p: Partition, runs: seq<seq<string>>, compress: seq<string> -> string): (r: seq<ConfLine>)
    ensures |r| == |runs|
    ensures forall c :: 0 <= c < |runs| ==> r[c] == NodenameLine(p, compress(runs[c]))
  {
    if runs == [] then []
    else [NodenameLine(p, compress(runs[0]))] + NodenameLines(p, runs[1..], compress)
  }

  /** The note followed by the `PartitionName` line. */
  function Header(p: Partition): seq<ConfLine>
    requires CpuCount(p) > 0
  {
    NoteLines(p) + [PartitionLine(p)]
  }

  /** The stanza of one partition. */
  function PartitionStanza(p: Partition, expand: string -> seq<string>, compress: seq<string> -> string): seq<ConfLine>
    requires Renderable(p)
  {
    Header(p) + NodenameLines(p, Chunks(Hosts(p, expand), p.maxScalesetSize), compress)
  }

  /** The stanza is the 3-line note, the `PartitionName` line, then one
      `Nodename` line per run of hosts; a partition without nodes gets no
      `Nodename` line. */
  lemma StanzaShape(p: Partition, expand: string -> seq<string>, compress: seq<string> -> string)
    requires Renderable(p)
    ensures var runs := Chunks(Hosts(p, expand), p.maxScalesetSize);
      var s := PartitionStanza(p, expand, compress);
      && |s| == 4 + |runs|
      && s[3] == PartitionLine(p)
      && (forall c :: 0 <= c < |runs| ==> s[4 + c] == NodenameLine(p, compress(runs[c])))
      && (p.nodeList.None? ==> |s| == 4)
  {
    var runs := Chunks(Hosts(p, expand), p.maxScalesetSize);
    var header := Header(p);
    var lines := NodenameLines(p, runs, compress);
    assert PartitionStanza(p, expand, compress) == header + lines;
    forall c | 0 <= c < |runs|
      ensures (header + lines)[4 + c] == NodenameLine(p, compress(runs[c]))
    {
      assert (header + lines)[4 + c] == lines[c];
    }
  }

  /** The blocks of `f` for each element, one after another. */
  function ConcatMap<T, U>(xs: seq<T>, f: T -> seq<U>): seq<U>
  {
    if xs == [] then [] else ConcatMap(xs[..|xs| - 1], f) + f(xs[|xs| - 1])
  }

  /** The blocks of the first `j` elements begin the blocks of all of them. */
  lemma {:induction false} ConcatMapPrefix<T, U>(xs: seq<T>, f: T -> seq<U>, j: nat)
    requires j <= |xs|
    ensures var head := ConcatMap(xs[..j], f);
      |head| <= |ConcatMap(xs, f)| && ConcatMap(xs, f)[..|head|] == head
  {
    if j < |xs| {
      var prefix := xs[..|xs| - 1];
      ConcatMapPrefix(prefix, f, j);
      assert prefix[..j] == xs[..j];
    } else {
      assert xs[..j] == xs;
    }
  }

  /** The stanza renderer as a function value; partitions it cannot render
      never reach it. */
  function StanzaOf(expand: string -> seq<string>, compress: seq<string> -> string): Partition -> seq<ConfLine>
  {
    p => if Renderable(p) then PartitionStanza(p, expand, compress) else []
  }

  lemma StanzaOfRenderable(p: Partition, expand: string -> seq<string>, compress: seq<string> -> string)
    requires Renderable(p)
    ensures StanzaOf(expand, compress)(p) == PartitionStanza(p, expand, compress)
  {
  }

  /** `_generate_slurm_conf`: the stanzas of all partitions, in mapping order,
      as lines; `RenderAll` gives their text. A partition without CPUs or
      with a zero run length is outside this model, so none is accepted. */
  function SlurmConfLines(ps: PartitionMap, expand: string -> seq<string>, compress: seq<string> -> string): seq<ConfLine>
    requires forall q :: q in ps ==> Renderable(q)
  {
    ConcatMap(ps, StanzaOf(expand, compress))
  }

  function RenderAll(lines: seq<ConfLine>): (r: seq<string>)
    ensures |r| == |lines|
    ensures forall k :: 0 <= k < |lines| ==> r[k] == Render(lines[k])
  {
    if lines == [] then [] else [Render(lines[0])] + RenderAll(lines[1..])
  }

  /** Rendering works line by line, so it distributes over concatenation. */
  lemma RenderAllAppend(a: seq<ConfLine>, b: seq<ConfLine>)
    ensures RenderAll(a + b) == RenderAll(a) + RenderAll(b)
  {
    var r := RenderAll(a + b);
    assert forall k :: 0 <= k < |a| ==> r[k] == Render(a[k]);
    assert forall k :: |a| <= k < |a| + |b| ==> r[k] == Render(b[k - |a|]);
  }

  /** The lines of the first `i + 1` partitions are those of the first `i`
      followed by the whole stanza of partition `i`. */
  lemma ConfStep(ps: PartitionMap, expand: string -> seq<string>,
                 compress: seq<string> -> string, i: nat)
    requires forall q :: q in ps ==> Renderable(q)
    requires i < |ps|
    ensures SlurmConfLines(ps[..i + 1], expand, compress)
         == SlurmConfLines(ps[..i], expand, compress) + PartitionStanza(ps[i], expand, compress)
  {
    var upTo := ps[..i + 1];
    assert upTo[..|upTo| - 1] == ps[..i] && upTo[|upTo| - 1] == ps[i];
    assert ps[i] in ps;
    StanzaOfRenderable(ps[i], expand, compress);
  }

  /** The lines of the first `j` partitions begin the whole configuration:
      with `ConfStep`, each stanza appears whole, in mapping order. */
  lemma ConfPrefix(ps: PartitionMap, expand: string -> seq<string>,
                   compress: seq<string> -> string, j: nat)
    requires forall q :: q in ps ==> Renderable(q)
    requires j <= |ps|
    ensures var head := SlurmConfLines(ps[..j], expand, compress);
      var all := SlurmConfLines(ps, expand, compress);
      |head| <= |all| && all[..|head|] == head
  {
    ConcatMapPrefix(ps, StanzaOf(expand, compress), j);
  }
}
