# Slurm autoscaling integration for CycleCloud: a verified model

This project models the part of the CycleCloud Slurm integration that its unit
tests pin down: how a cluster's nodearrays become Slurm partitions, how the
nodes of those partitions are requested from CycleCloud (bin-packed into
placement groups and guarded by an existing-node policy), how the partition
stanzas of `slurm.conf` and the switches of `topology.conf` are generated, the
guard that refuses configuration changes while autoscale nodes are in
transition, and the filter that narrows nodes and partitions to requested
nodearrays. The test doubles that stand in for the CycleCloud cluster API and
for `scontrol` (`MockClusterModule`, `MockSubprocessModule`) are modelled as
classes with the state they mutate, and each test scenario is replayed against
the model.

Layout:

- `wrappers.dfy`, `text.dfy`: `Option`/`Result`/`Outcome`; decimal rendering,
  `sep.join` and `str.split()` with their round trips.
- `cluster.dfy`, `errors.dfy`, `partitions.dfy`: the cluster's records, the
  `CyclecloudSlurmError` cases and the insertion-ordered partition mapping.
- `fetch.dfy`: `fetch_partitions`.
- `provision.dfy`: `_create_nodes` (batch plan, placement groups, node names,
  existing-node policies), with loops proved against the request functions.
- `slurmconf.dfy`: `_generate_slurm_conf` (memory dampening, CPU counts,
  stanza layout and rendering).
- `topology.dfy`: `_generate_topology` (switch grouping in first-seen order).
- `applychanges.dfy`: `_check_apply_changes`.
- `nodearray_filter.dfy`: `_filter_by_nodearrays`.
- `mocks.dfy`: `MockSubprocessModule` and `MockClusterModule`.
- `hostlist.dfy`: `scontrol show hostlist|hostnames` through the subprocess mock.
- `submission.dfy`: one create call per request set against the cluster mock.
- `*_scenarios.dfy`, `*_session.dfy`: the test cases, as lemmas over the
  functions and as methods driving the mocks.

The hostlist service (`scontrol show hostlist` / `hostnames`) appears in the
pure functions as two function parameters, `compress` and `expand`; the
session methods obtain those answers from the subprocess mock's queue.

The test pins three details that the model follows:

- `RealMemory` is the reported memory less the margin, rounded down once
  (128450 for 128 GiB at 2%), not the rounded memory less the rounded margin
  (128451); `SlurmConf.RoundingOnce` proves the two differ by at most one.
- `Nodename` lines group hosts in runs of `max_scaleset_size` (3 for the
  HPC partition of the test, 100 for the other), not in fixed runs of 3.
- Nodes without a placement group share the switch `htc`, whatever their
  nodearray is.

Where the test pins nothing, the model takes a side:

- Two nodearrays with the same name: the later one that enables autoscale
  replaces the earlier one's partition, keeping its position, as a plain
  dict assignment would (`Fetch.LastNodearrayWins`).
- `_create_nodes` works out every partition's sets before sending any, so
  a conflict in a later partition also stops the earlier ones
  (`Provision.CreationRequest`, `Submission.SubmitSets`). The test cannot
  tell this from sending partition by partition: its conflicting partition
  comes first and conflicts at its first batch.

## Model

| member | source | states |
|---|---|---|
| Partitions.Put | specs/default/chef/site-cookbooks/slurm/files/default/cyclecloud_slurm_test.py:238-240 | `partitions[name] = p` keeps keys unique, keeps an existing key's position or appends a new one, and replaces exactly the entry of that name |
| Partitions.ReplaceEntry | specs/default/chef/site-cookbooks/slurm/files/default/cyclecloud_slurm_test.py:238-240 | replacing the entry of an existing name keeps the names, and the entries are the new one and the others of other names |
| Partitions.AppendEntry | specs/default/chef/site-cookbooks/slurm/files/default/cyclecloud_slurm_test.py:238-240 | appending a new name keeps names unique, adds the name at the end, and keeps every other entry |
| Partitions.Lookup | specs/default/chef/site-cookbooks/slurm/files/default/cyclecloud_slurm_test.py:182-190 | `partitions[name]` is found iff the name is a key, and then it is the entry with that name |
| Partitions.IndexOf | specs/default/chef/site-cookbooks/slurm/files/default/cyclecloud_slurm_test.py:182-190 | the position of a key is the first entry with that name |
| Fetch.NodeNamesOf | specs/default/chef/site-cookbooks/slurm/files/default/cyclecloud_slurm_test.py:209-216 | a name is listed iff some node with that name has the nodearray as its `Template` |
| Fetch.NodeList | specs/default/chef/site-cookbooks/slurm/files/default/cyclecloud_slurm_test.py:182-216 | `node_list` is unset iff no node has the nodearray as its `Template`, and otherwise the compressed names of those nodes |
| Fetch.DerivePartition | specs/default/chef/site-cookbooks/slurm/files/default/cyclecloud_slurm_test.py:147-207 | name and nodearray come from the nodearray; `hpc` defaults to true and `default_partition` to false; machine type, VM and `max_vm_count` come from the bucket; only HPC partitions take `Azure.MaxScalesetSize`, the others get 2^31; `node_list` is None iff the nodearray has no node, else the compressed names of its nodes |
| Fetch.FetchPartitions | specs/default/chef/site-cookbooks/slurm/files/default/cyclecloud_slurm_test.py:180-181 | the mapping has unique names and no more partitions than nodearrays |
| Fetch.FetchedNames | specs/default/chef/site-cookbooks/slurm/files/default/cyclecloud_slurm_test.py:225-235 | a name is fetched iff some nodearray of that name sets `autoscale` to true (false and missing both exclude) |
| Fetch.FetchedAreDerived | specs/default/chef/site-cookbooks/slurm/files/default/cyclecloud_slurm_test.py:180-207 | every fetched partition is the derivation of an autoscale-enabled nodearray |
| Fetch.NothingIncludedNoPartitions | specs/default/chef/site-cookbooks/slurm/files/default/cyclecloud_slurm_test.py:225-235 | with autoscale off or missing everywhere, no partition is fetched |
| Fetch.LastNodearrayWins | specs/default/chef/site-cookbooks/slurm/files/default/cyclecloud_slurm_test.py:180 | the model's own choice, which the test does not pin (it never repeats a name): on a repeated name, the last enabled nodearray's derivation is the one kept |
| Fetch.FetchDistinctNames | specs/default/chef/site-cookbooks/slurm/files/default/cyclecloud_slurm_test.py:180-207 | with distinct nodearray names, the mapping is the enabled nodearrays' derivations in order |
| FetchScenarios.FetchTwo | specs/default/chef/site-cookbooks/slurm/files/default/cyclecloud_slurm_test.py:180-181 | two enabled nodearrays of different names give their two derived partitions, in nodearray order |
| FetchScenarios.StartedOnHpc | specs/default/chef/site-cookbooks/slurm/files/default/cyclecloud_slurm_test.py:209-211 | the three started nodes are `hpc` nodes, so `htc` has none |
| FetchScenarios.FetchWithoutNodes | specs/default/chef/site-cookbooks/slurm/files/default/cyclecloud_slurm_test.py:140-207 | the two partitions of the test, hpc default and HPC with scaleset 30, htc neither with scaleset 2^31, both without node list |
| FetchScenarios.FetchWithStartedNodes | specs/default/chef/site-cookbooks/slurm/files/default/cyclecloud_slurm_test.py:209-216 | three started hpc nodes give the hpc partition the node list `hpc-10[0-2]` |
| FetchScenarios.FetchSmallerScaleset | specs/default/chef/site-cookbooks/slurm/files/default/cyclecloud_slurm_test.py:218-223 | lowering `MaxScalesetSize` to 2 lowers the hpc partition's scaleset size to 2 |
| FetchScenarios.FetchAutoscaleOff | specs/default/chef/site-cookbooks/slurm/files/default/cyclecloud_slurm_test.py:225-235 | autoscale false or missing on both nodearrays gives no partitions |
| FetchSession.NodeListOf | specs/default/chef/site-cookbooks/slurm/files/default/cyclecloud_slurm_test.py:209-216 | a nodearray without nodes asks the hostlist service nothing; otherwise its node names are compressed through the subprocess mock, taking the head of its queue |
| FetchSession.Observe | specs/default/chef/site-cookbooks/slurm/files/default/cyclecloud_slurm_test.py:178-180 | the cluster mock reports the configured status and the started nodes |
| FetchSession.FetchBeforeNodes | specs/default/chef/site-cookbooks/slurm/files/default/cyclecloud_slurm_test.py:178-207 | before any node is started, the fetch gives the two partitions without node lists and asks nothing of the subprocess mock |
| FetchSession.FetchWithNodes | specs/default/chef/site-cookbooks/slurm/files/default/cyclecloud_slurm_test.py:209-223 | with the three hpc nodes started, one queued `show hostlist` reply is taken and the hpc node list is `hpc-10[0-2]`, with scaleset 30 or, once lowered, 2 |
| FetchSession.StartedFetches | specs/default/chef/site-cookbooks/slurm/files/default/cyclecloud_slurm_test.py:209-223 | the second and third fetches of the test, each taking its own queued reply, leave the queue empty |
| FetchSession.FetchNothing | specs/default/chef/site-cookbooks/slurm/files/default/cyclecloud_slurm_test.py:225-235 | with autoscale enabled on no nodearray, the fetch gives no partition |
| FetchSession.DisabledFetches | specs/default/chef/site-cookbooks/slurm/files/default/cyclecloud_slurm_test.py:225-235 | autoscale false, then missing, on both nodearrays gives no partitions |
| FetchSession.FetchSessionRun | specs/default/chef/site-cookbooks/slurm/files/default/cyclecloud_slurm_test.py:140-235 | the whole test: the five fetches give what it asserts, through the cluster mock, and the subprocess mock exits cleanly |
| Provision.BatchSizes | specs/default/chef/site-cookbooks/slurm/files/default/cyclecloud_slurm_test.py:245-271 | batches sum to the total, are positive and at most the cap, all full but the last, and there are none only for a zero total |
| Provision.BatchCount | specs/default/chef/site-cookbooks/slurm/files/default/cyclecloud_slurm_test.py:245-271 | there are as few batches as the cap allows: the total divided by the cap, rounded up |
| Provision.Plan | specs/default/chef/site-cookbooks/slurm/files/default/cyclecloud_slurm_test.py:245-279 | a partition's batches sum to `max_vm_count` and none is empty |
| Provision.PlanBatches | specs/default/chef/site-cookbooks/slurm/files/default/cyclecloud_slurm_test.py:245-279 | an HPC partition's batches respect the scaleset size and are as few as it allows; a non-HPC partition is a single batch, or none for a zero count |
| Provision.FormatName | specs/default/chef/site-cookbooks/slurm/files/default/cyclecloud_slurm_test.py:249-273 | `nameFormat % k` keeps the text before `%d` and ends in the digits of `k` |
| Provision.NameFormatYieldsNodeNames | specs/default/chef/site-cookbooks/slurm/files/default/cyclecloud_slurm_test.py:249-273 | a set's `nameFormat` yields exactly the provisioner's node names, and different numbers give different names |
| Provision.MakeSet | specs/default/chef/site-cookbooks/slurm/files/default/cyclecloud_slurm_test.py:248-278 | a set carries the count, offset, nodearray and machine type, `StartAutomatically` false and `Fixed` true, and a placement group iff the partition is HPC |
| Provision.CountExisting | specs/default/chef/site-cookbooks/slurm/files/default/cyclecloud_slurm_test.py:288-296 | the existing nodes of a batch are at most its size |
| Provision.FreshSets | specs/default/chef/site-cookbooks/slurm/files/default/cyclecloud_slurm_test.py:245-285 | with nothing existing, one set per batch, in batch order, asking for the whole batch numbered from 1 |
| Provision.FreshSetsTotal | specs/default/chef/site-cookbooks/slurm/files/default/cyclecloud_slurm_test.py:245-285 | a partition's fresh sets ask for `max_vm_count` nodes in all |
| Provision.NoneExistCountZero | specs/default/chef/site-cookbooks/slurm/files/default/cyclecloud_slurm_test.py:285 | a batch none of whose names exist counts zero existing nodes |
| Provision.AllExistCountFull | specs/default/chef/site-cookbooks/slurm/files/default/cyclecloud_slurm_test.py:288-296 | a batch all of whose names exist counts full |
| Provision.NoExistingRequestsEveryBatch | specs/default/chef/site-cookbooks/slurm/files/default/cyclecloud_slurm_test.py:281-285 | with no existing node, under either policy, every batch is requested in full |
| Provision.NoCountRequestsEveryBatch | specs/default/chef/site-cookbooks/slurm/files/default/cyclecloud_slurm_test.py:281-285 | when no batch has an existing node, under either policy, every batch is requested in full |
| Provision.ErrorPolicyFailsIffExisting | specs/default/chef/site-cookbooks/slurm/files/default/cyclecloud_slurm_test.py:295-296 | under the default policy a partition fails iff some batch already has a node, and the error names the partition |
| Provision.AllowExistingFillsShortfall | specs/default/chef/site-cookbooks/slurm/files/default/cyclecloud_slurm_test.py:298-318 | under `AllowExisting` the call succeeds, every set is non-empty, and requested plus existing nodes equal the batches' sizes |
| Provision.AllowExistingSetsNonEmpty | specs/default/chef/site-cookbooks/slurm/files/default/cyclecloud_slurm_test.py:298-318 | under `AllowExisting` the first batches never fail, and every set asks for at least one node numbered from 1 or later |
| Provision.AllowExistingCounts | specs/default/chef/site-cookbooks/slurm/files/default/cyclecloud_slurm_test.py:298-318 | under `AllowExisting` the nodes requested for the first batches plus those already existing equal the batches' sizes |
| Provision.AllowExistingReachesCapacity | specs/default/chef/site-cookbooks/slurm/files/default/cyclecloud_slurm_test.py:298-318 | requested plus existing nodes of a partition equal `max_vm_count` |
| Provision.ShortfallNamesAreMissing | specs/default/chef/site-cookbooks/slurm/files/default/cyclecloud_slurm_test.py:300-307 | when a batch's existing nodes are its first e nodes (as in the test), the set for it names exactly the missing nodes, starting after the existing ones |
| Provision.GapReusesExistingName | specs/default/chef/site-cookbooks/slurm/files/default/cyclecloud_slurm_test.py:300-307 | when only the second node of a batch exists, the shortfall set is numbered from 2, so its first name is that existing node |
| Provision.CountPrefix | specs/default/chef/site-cookbooks/slurm/files/default/cyclecloud_slurm_test.py:300-307 | when the first `e` names of a batch exist, the count is `min(n, e)` |
| Provision.SecondRequestCreatesNothing | specs/default/chef/site-cookbooks/slurm/files/default/cyclecloud_slurm_test.py:287-318 | once every node of the first request exists, `AllowExisting` requests nothing more |
| Provision.FullBatchesSkipped | specs/default/chef/site-cookbooks/slurm/files/default/cyclecloud_slurm_test.py:298-318 | under `AllowExisting`, batches whose nodes all exist request nothing |
| Provision.BatchAlreadyCreated | specs/default/chef/site-cookbooks/slurm/files/default/cyclecloud_slurm_test.py:287-318 | a batch whose set's names all exist counts full |
| Provision.BatchFailurePersists | specs/default/chef/site-cookbooks/slurm/files/default/cyclecloud_slurm_test.py:295-296 | a failure in an early batch is the partition's result |
| Provision.PartitionFailurePersists | specs/default/chef/site-cookbooks/slurm/files/default/cyclecloud_slurm_test.py:295-296 | a failure in an early partition is the whole request's result |
| Provision.AllowExistingNeverFails | specs/default/chef/site-cookbooks/slurm/files/default/cyclecloud_slurm_test.py:298-318 | under `AllowExisting` a creation request is always produced |
| Provision.ErrorPolicyFailsIffAnyConflict | specs/default/chef/site-cookbooks/slurm/files/default/cyclecloud_slurm_test.py:295-296 | under the default policy the request fails iff some partition's batch already has a node |
| Provision.BuildPartitionRequest | specs/default/chef/site-cookbooks/slurm/files/default/cyclecloud_slurm_test.py:245-318 | the batch loop computes the partition's request function |
| Provision.BuildBatches | specs/default/chef/site-cookbooks/slurm/files/default/cyclecloud_slurm_test.py:245-318 | the loop over the batches computes the sets of the batch plan, and stops at the first conflict under the default policy |
| Provision.CreationAppend | specs/default/chef/site-cookbooks/slurm/files/default/cyclecloud_slurm_test.py:281-285 | a partition that succeeds appends its sets after the earlier partitions' sets |
| Provision.BuildCreationRequest | specs/default/chef/site-cookbooks/slurm/files/default/cyclecloud_slurm_test.py:245-318 | the partition loop computes the creation request function, stopping at the first failure |
| ProvisionScenarios.HpcPlan | specs/default/chef/site-cookbooks/slurm/files/default/cyclecloud_slurm_test.py:245-271 | 8 nodes with scaleset 3 are batches 3, 3, 2 |
| ProvisionScenarios.HpcFreshSets | specs/default/chef/site-cookbooks/slurm/files/default/cyclecloud_slurm_test.py:247-271 | the three HPC sets of the test, placement groups pg0 to pg2 |
| ProvisionScenarios.HpcFirstRequest | specs/default/chef/site-cookbooks/slurm/files/default/cyclecloud_slurm_test.py:247-271 | the HPC partition's first request under either policy |
| ProvisionScenarios.HtcFirstRequest | specs/default/chef/site-cookbooks/slurm/files/default/cyclecloud_slurm_test.py:272-278 | the htc partition's single set of 8 `pre-htc-%d` nodes without placement group |
| ProvisionScenarios.FirstCallHpc | specs/default/chef/site-cookbooks/slurm/files/default/cyclecloud_slurm_test.py:247-271 | the HPC partition alone requests its three placement-group sets |
| ProvisionScenarios.FirstCallRequestsAllBatches | specs/default/chef/site-cookbooks/slurm/files/default/cyclecloud_slurm_test.py:247-285 | the first call requests the four sets of the test, in order |
| ProvisionScenarios.Hpc9NodeName | specs/default/chef/site-cookbooks/slurm/files/default/cyclecloud_slurm_test.py:289-293 | node `k` of batch `i` is `hpc-pg<i>-<k>` |
| ProvisionScenarios.Hpc9Plan | specs/default/chef/site-cookbooks/slurm/files/default/cyclecloud_slurm_test.py:288 | 9 nodes with scaleset 3 are batches 3, 3, 3 |
| ProvisionScenarios.Hpc9Member | specs/default/chef/site-cookbooks/slurm/files/default/cyclecloud_slurm_test.py:289-293 | exactly the eight created names exist |
| ProvisionScenarios.Hpc9Counts | specs/default/chef/site-cookbooks/slurm/files/default/cyclecloud_slurm_test.py:289-293 | the batches have 3, 3 and 2 existing nodes |
| ProvisionScenarios.ErrorPolicyRefusesExisting | specs/default/chef/site-cookbooks/slurm/files/default/cyclecloud_slurm_test.py:295-296 | the default policy refuses with an existing-node error for hpc |
| ProvisionScenarios.Hpc9Shortfall | specs/default/chef/site-cookbooks/slurm/files/default/cyclecloud_slurm_test.py:300-307 | the HPC partition asks for one node, `hpc-pg2-%d` from offset 3 |
| ProvisionScenarios.ShortfallHpc | specs/default/chef/site-cookbooks/slurm/files/default/cyclecloud_slurm_test.py:298-307 | with the eight names existing, the HPC partition alone requests only `hpc-pg2-3` |
| ProvisionScenarios.AllowExistingRequestsShortfall | specs/default/chef/site-cookbooks/slurm/files/default/cyclecloud_slurm_test.py:298-318 | `AllowExisting` requests the missing HPC node and the 8 htc nodes |
| Submission.Singletons | specs/default/chef/site-cookbooks/slurm/files/default/cyclecloud_slurm_test.py:281-283 | each set travels in a request of its own |
| Submission.SubmitSets | specs/default/chef/site-cookbooks/slurm/files/default/cyclecloud_slurm_test.py:70-90 | submitting sets one at a time succeeds iff the cluster mock expects exactly those singleton requests next, and then the nodes added sum to the sets' counts and those expectations are consumed; otherwise the error is the first mismatch (or the empty queue) and the requests up to and including it are consumed; the status, start request and started nodes never change |
| Submission.Accepted | specs/default/chef/site-cookbooks/slurm/files/default/cyclecloud_slurm_test.py:70-90 | the number of sets the queue accepts from the front: each of them is its turn's expected one-set request, and the next is not |
| Submission.AcceptedAt | specs/default/chef/site-cookbooks/slurm/files/default/cyclecloud_slurm_test.py:70-90 | a queue matching the sets up to a point where it stops matching accepts exactly that many |
| ProvisionSession.FirstSubmission | specs/default/chef/site-cookbooks/slurm/files/default/cyclecloud_slurm_test.py:281-285 | the first call's four singleton requests add 16 nodes |
| ProvisionSession.ExpectFirstRequests | specs/default/chef/site-cookbooks/slurm/files/default/cyclecloud_slurm_test.py:281-283 | the cluster mock expects the four sets of the first call, each as its own request, in order |
| ProvisionSession.SecondSubmission | specs/default/chef/site-cookbooks/slurm/files/default/cyclecloud_slurm_test.py:315-318 | the second call's two singleton requests add 9 nodes |
| ProvisionSession.ExpandExisting | specs/default/chef/site-cookbooks/slurm/files/default/cyclecloud_slurm_test.py:291-293 | `scontrol show hostnames` on the node list answers the eight names and consumes one expectation |
| ProvisionSession.RefuseExisting | specs/default/chef/site-cookbooks/slurm/files/default/cyclecloud_slurm_test.py:295-296 | with the names from the mock, the default policy refuses for hpc |
| ProvisionSession.ShortfallRequest | specs/default/chef/site-cookbooks/slurm/files/default/cyclecloud_slurm_test.py:298-314 | with the names from the mock, `AllowExisting` builds the two expected sets |
| ProvisionSession.CreateNodesSession | specs/default/chef/site-cookbooks/slurm/files/default/cyclecloud_slurm_test.py:237-318 | the whole test: 16 nodes created, then refused, then 9 created, with no create expectation left |
| SlurmConf.MemoryMargin | specs/default/chef/site-cookbooks/slurm/files/default/cyclecloud_slurm_test.py:339-350 | `RealMemory` is at most the reported memory less 1 GiB and less the dampen fraction, and within one MiB of the reported memory less the larger margin |
| SlurmConf.RoundingOnce | specs/default/chef/site-cookbooks/slurm/files/default/cyclecloud_slurm_test.py:339-343 | rounding once is the rounded memory less the rounded margin, or one less |
| SlurmConf.DefMemPerCpu | specs/default/chef/site-cookbooks/slurm/files/default/cyclecloud_slurm_test.py:342-349 | `DefMemPerCPU` is `RealMemory` divided by the CPU count, rounded down |
| SlurmConf.Chunks | specs/default/chef/site-cookbooks/slurm/files/default/cyclecloud_slurm_test.py:330-335 | runs of at most `n` hosts, all full but the last, that concatenate back to the hosts |
| SlurmConf.NodenameLines | specs/default/chef/site-cookbooks/slurm/files/default/cyclecloud_slurm_test.py:343-350 | one `Nodename` line per run, naming the run's compressed range |
| SlurmConf.StanzaShape | specs/default/chef/site-cookbooks/slurm/files/default/cyclecloud_slurm_test.py:339-350 | a stanza is the three-line note, the `PartitionName` line and one `Nodename` line per run, in order |
| SlurmConf.ConcatMapPrefix | specs/default/chef/site-cookbooks/slurm/files/default/cyclecloud_slurm_test.py:338-350 | the stanzas of the first partitions begin the stanzas of all of them |
| SlurmConf.StanzaOfRenderable | specs/default/chef/site-cookbooks/slurm/files/default/cyclecloud_slurm_test.py:338-350 | the renderer applied to a partition is that partition's stanza |
| SlurmConf.RenderAll | specs/default/chef/site-cookbooks/slurm/files/default/cyclecloud_slurm_test.py:351-352 | rendering is line by line |
| SlurmConf.RenderAllAppend | specs/default/chef/site-cookbooks/slurm/files/default/cyclecloud_slurm_test.py:351-352 | rendering distributes over concatenation |
| SlurmConf.ConfStep | specs/default/chef/site-cookbooks/slurm/files/default/cyclecloud_slurm_test.py:338-350 | each partition appends its stanza after the previous partitions' |
| SlurmConf.ConfPrefix | specs/default/chef/site-cookbooks/slurm/files/default/cyclecloud_slurm_test.py:338-350 | a partition's stanza sits after all earlier partitions' stanzas, in mapping order |
| SlurmConfScenarios.HpcMemory | specs/default/chef/site-cookbooks/slurm/files/default/cyclecloud_slurm_test.py:339-345 | 131072 MiB at 2% is reduced by 2621 to 128450, 2 CPUs with 2 threads each, 64225 per CPU |
| SlurmConfScenarios.HtcMemory | specs/default/chef/site-cookbooks/slurm/files/default/cyclecloud_slurm_test.py:346-350 | 3584 MiB at 5% is reduced by the 1 GiB floor to 2560, 2 CPUs with 1 thread each, 1280 per CPU |
| SlurmConfScenarios.HpcRuns | specs/default/chef/site-cookbooks/slurm/files/default/cyclecloud_slurm_test.py:331-333 | eight HPC hosts with scaleset 3 make runs of 3, 3 and 2 |
| SlurmConfScenarios.HtcRuns | specs/default/chef/site-cookbooks/slurm/files/default/cyclecloud_slurm_test.py:335 | eight htc hosts with scaleset 100 make one run |
| SlurmConfScenarios.HpcStanza | specs/default/chef/site-cookbooks/slurm/files/default/cyclecloud_slurm_test.py:339-345 | the HPC stanza's lines before rendering |
| SlurmConfScenarios.HtcStanza | specs/default/chef/site-cookbooks/slurm/files/default/cyclecloud_slurm_test.py:346-350 | the htc stanza's lines before rendering |
| SlurmConfScenarios.ConfLines | specs/default/chef/site-cookbooks/slurm/files/default/cyclecloud_slurm_test.py:338-350 | the configuration is the HPC stanza then the htc stanza |
| SlurmConfScenarios.ConfText | specs/default/chef/site-cookbooks/slurm/files/default/cyclecloud_slurm_test.py:338-352 | the rendered configuration is the expected text, line by line |
| SlurmConfSession.HpcCalls | specs/default/chef/site-cookbooks/slurm/files/default/cyclecloud_slurm_test.py:330-333 | the HPC host expansion and three compressions answer as queued and consume four expectations |
| SlurmConfSession.HtcCalls | specs/default/chef/site-cookbooks/slurm/files/default/cyclecloud_slurm_test.py:334-335 | the htc expansion and compression answer as queued and drain the queue |
| SlurmConfSession.RepliesAnswer | specs/default/chef/site-cookbooks/slurm/files/default/cyclecloud_slurm_test.py:330-335 | the answers read from the mock are the hostlist service the configuration scenario assumes |
| SlurmConfSession.RepliedText | specs/default/chef/site-cookbooks/slurm/files/default/cyclecloud_slurm_test.py:330-352 | the configuration rendered from the replies the mock gave is the expected text |
| SlurmConfSession.SlurmConfSessionRun | specs/default/chef/site-cookbooks/slurm/files/default/cyclecloud_slurm_test.py:320-352 | the whole test: the expected text, and the subprocess mock exits cleanly |
| Topology.SwitchOrderDistinct | specs/default/chef/site-cookbooks/slurm/files/default/cyclecloud_slurm_test.py:390-393 | each switch is listed once |
| Topology.SwitchOrderComplete | specs/default/chef/site-cookbooks/slurm/files/default/cyclecloud_slurm_test.py:368-393 | a switch is listed iff some autoscale node is on it |
| Topology.FirstSeenOrder | specs/default/chef/site-cookbooks/slurm/files/default/cyclecloud_slurm_test.py:368-393 | switches are listed in the order their first node appears |
| Topology.Members | specs/default/chef/site-cookbooks/slurm/files/default/cyclecloud_slurm_test.py:368-383 | a switch never has more members than there are nodes |
| Topology.NodeNames | specs/default/chef/site-cookbooks/slurm/files/default/cyclecloud_slurm_test.py:368-383 | the names of the nodes, position by position |
| Topology.ListedIffMembers | specs/default/chef/site-cookbooks/slurm/files/default/cyclecloud_slurm_test.py:390-393 | a switch is listed iff it has members |
| Topology.MemberOfOwnSwitch | specs/default/chef/site-cookbooks/slurm/files/default/cyclecloud_slurm_test.py:368-393 | every autoscale node is a member of its own switch |
| Topology.MembersAreOnSwitch | specs/default/chef/site-cookbooks/slurm/files/default/cyclecloud_slurm_test.py:368-393 | every member of a switch is an autoscale node on that switch |
| Topology.RunOnOneSwitch | specs/default/chef/site-cookbooks/slurm/files/default/cyclecloud_slurm_test.py:368-383 | appending nodes of one switch adds that switch if new and appends their names to its members only |
| Topology.RunSwitchOrder | specs/default/chef/site-cookbooks/slurm/files/default/cyclecloud_slurm_test.py:368-383 | appending nodes of one switch adds that switch to the order only if it is new |
| Topology.RunMembers | specs/default/chef/site-cookbooks/slurm/files/default/cyclecloud_slurm_test.py:368-383 | appending nodes of one switch appends their names to that switch's members and to no other's |
| Topology.TopologyOutcome | specs/default/chef/site-cookbooks/slurm/files/default/cyclecloud_slurm_test.py:359-397 | the topology fails with an empty-topology error iff no node is autoscale; otherwise one `SwitchName` line per switch in first-seen order, naming its members' compressed range |
| Topology.GroupBySwitch | specs/default/chef/site-cookbooks/slurm/files/default/cyclecloud_slurm_test.py:368-393 | the grouping loop yields the switches in first-seen order and each switch's members |
| Topology.GenerateTopology | specs/default/chef/site-cookbooks/slurm/files/default/cyclecloud_slurm_test.py:359-397 | the generating loop computes the topology function |
| TopologyScenarios.NoNodesNoTopology | specs/default/chef/site-cookbooks/slurm/files/default/cyclecloud_slurm_test.py:360-361 | no nodes: an empty-topology error |
| TopologyScenarios.SwitchesDiffer | specs/default/chef/site-cookbooks/slurm/files/default/cyclecloud_slurm_test.py:390-393 | the four switch names of the test are different |
| TopologyScenarios.After3 | specs/default/chef/site-cookbooks/slurm/files/default/cyclecloud_slurm_test.py:368-383 | the started nodes give switches pg0, pg1, pg2 and htc, in that order, with their runs as members |
| TopologyScenarios.HtcMembers | specs/default/chef/site-cookbooks/slurm/files/default/cyclecloud_slurm_test.py:376-383 | the nodes without placement group are the members of `htc` |
| TopologyScenarios.StartedNodesTopology | specs/default/chef/site-cookbooks/slurm/files/default/cyclecloud_slurm_test.py:362-397 | the four expected `SwitchName` lines, given the hostlist answers |
| TopologySession.GroupedNames | specs/default/chef/site-cookbooks/slurm/files/default/cyclecloud_slurm_test.py:363-383 | the started nodes' switches, in order, have the four member lists the test queues |
| TopologySession.CompressSwitches | specs/default/chef/site-cookbooks/slurm/files/default/cyclecloud_slurm_test.py:363-366 | the four hostlist compressions answer as queued and drain the queue |
| TopologySession.TopologySessionRun | specs/default/chef/site-cookbooks/slurm/files/default/cyclecloud_slurm_test.py:354-397 | the whole test, with nodes from the cluster mock: the empty-topology error, then the four expected lines, and the subprocess mock exits cleanly |
| ApplyChanges.CheckApplyChanges | specs/default/chef/site-cookbooks/slurm/files/default/cyclecloud_slurm_test.py:440-464 | the check passes iff no autoscale node is `Started`, `Deallocated` or `Terminating`; a failure is a node-in-transition error |
| ApplyChanges.NamesFirstBlocker | specs/default/chef/site-cookbooks/slurm/files/default/cyclecloud_slurm_test.py:461-464 | the error names the first blocking node and its status |
| ApplyChanges.IgnoresNonAutoscale | specs/default/chef/site-cookbooks/slurm/files/default/cyclecloud_slurm_test.py:444-449 | appending non-autoscale nodes such as the scheduler never changes the outcome |
| ApplyChanges.MessageEndsWithNode | specs/default/chef/site-cookbooks/slurm/files/default/cyclecloud_slurm_test.py:448-454 | the error text ends with ` - ` followed by the blocking node's name |
| ApplyChanges.SplitGivesBlocker | specs/default/chef/site-cookbooks/slurm/files/default/cyclecloud_slurm_test.py:448-454 | when the blocking node's name contains no ` - `, the last piece of `str(e).split(" - ")` is that name |
| ApplyChanges.LastPieceAfter | specs/default/chef/site-cookbooks/slurm/files/default/cyclecloud_slurm_test.py:454 | text not ending in `-`, then ` - ` and a name free of ` - `, splits with that name as its last piece |
| ApplyChangesScenarios.QuietStatusesPass | specs/default/chef/site-cookbooks/slurm/files/default/cyclecloud_slurm_test.py:457-459 | `Off`, empty and missing statuses pass |
| ApplyChangesScenarios.TransitionalStatusesFail | specs/default/chef/site-cookbooks/slurm/files/default/cyclecloud_slurm_test.py:461-463 | `Started`, `Deallocated` and `Terminating` fail naming `n-1` |
| ApplyChangesScenarios.TerminatedThenStarted | specs/default/chef/site-cookbooks/slurm/files/default/cyclecloud_slurm_test.py:464 | `Terminated` passes, so the error names `n-2` |
| NodearrayFilter.KeptPartitions | specs/default/chef/site-cookbooks/slurm/files/default/cyclecloud_slurm_test.py:476-484 | a partition is kept iff it was fetched and requested |
| NodearrayFilter.Nodearrays | specs/default/chef/site-cookbooks/slurm/files/default/cyclecloud_slurm_test.py:470-474 | the nodearrays of the partitions, position by position |
| NodearrayFilter.KeptNodes | specs/default/chef/site-cookbooks/slurm/files/default/cyclecloud_slurm_test.py:476-483 | a node is kept iff its `Template` is one of the nodearrays |
| NodearrayFilter.FilterKeepsExactly | specs/default/chef/site-cookbooks/slurm/files/default/cyclecloud_slurm_test.py:476-484 | partitions kept iff fetched and requested; nodes kept iff their nodearray is a kept partition's |
| NodearrayFilter.KeptNodesOrder | specs/default/chef/site-cookbooks/slurm/files/default/cyclecloud_slurm_test.py:483 | filtering keeps the nodes' order |
| NodearrayFilter.SchedulerDropped | specs/default/chef/site-cookbooks/slurm/files/default/cyclecloud_slurm_test.py:476-483 | a node on no fetched nodearray, such as the scheduler, is dropped |
| NodearrayFilter.UnknownRequestIgnored | specs/default/chef/site-cookbooks/slurm/files/default/cyclecloud_slurm_test.py:487 | requesting a name no partition has changes nothing |
| NodearrayFilter.KeptUnique | specs/default/chef/site-cookbooks/slurm/files/default/cyclecloud_slurm_test.py:479-484 | the kept partitions keep unique names |
| NodearrayFilterScenarios.RequestedAndFetched | specs/default/chef/site-cookbooks/slurm/files/default/cyclecloud_slurm_test.py:486 | `n` requested and fetched: node `n1` and partition `n` kept |
| NodearrayFilterScenarios.UnknownRequested | specs/default/chef/site-cookbooks/slurm/files/default/cyclecloud_slurm_test.py:487 | requesting `other` as well changes nothing |
| NodearrayFilterScenarios.NothingRequestedFetched | specs/default/chef/site-cookbooks/slurm/files/default/cyclecloud_slurm_test.py:488 | only an unfetched name requested: nothing kept |
| NodearrayFilterScenarios.EmptyPartitionKept | specs/default/chef/site-cookbooks/slurm/files/default/cyclecloud_slurm_test.py:489 | a requested partition without nodes is kept |
| NodearrayFilterScenarios.OnlyOtherKept | specs/default/chef/site-cookbooks/slurm/files/default/cyclecloud_slurm_test.py:490 | requesting `other` keeps only `other1` and `other` |
| NodearrayFilterScenarios.OnlyNKept | specs/default/chef/site-cookbooks/slurm/files/default/cyclecloud_slurm_test.py:491 | requesting `n` keeps only `n1` and `n` |
| Mocks.Serve | specs/default/chef/site-cookbooks/slurm/files/default/cyclecloud_slurm_test.py:120-124 | one call against the queue: unexpected on an empty queue, otherwise the head is popped and answers iff its arguments match |
| Mocks.ArgsOf | specs/default/chef/site-cookbooks/slurm/files/default/cyclecloud_slurm_test.py:114-118 | the queued arguments, position by position |
| Mocks.ResponsesOf | specs/default/chef/site-cookbooks/slurm/files/default/cyclecloud_slurm_test.py:114-118 | the queued responses, position by position |
| Mocks.ServeAllSucceedsIff | specs/default/chef/site-cookbooks/slurm/files/default/cyclecloud_slurm_test.py:120-124 | a series of calls succeeds iff it is exactly the first queued arguments, in order |
| Mocks.ServeAllReplies | specs/default/chef/site-cookbooks/slurm/files/default/cyclecloud_slurm_test.py:120-124 | a successful series answers the queued responses and leaves the rest of the queue |
| Mocks.ExitOutcome | specs/default/chef/site-cookbooks/slurm/files/default/cyclecloud_slurm_test.py:133-135 | leaving the `with` block passes iff an exception is propagating or the queue is empty |
| Mocks.ReplayDrains | specs/default/chef/site-cookbooks/slurm/files/default/cyclecloud_slurm_test.py:114-135 | replaying the queued calls answers every response and leaves the queue empty, so exit passes |
| Mocks.MockSubprocess.constructor | specs/default/chef/site-cookbooks/slurm/files/default/cyclecloud_slurm_test.py:111-112 | a new mock expects nothing |
| Mocks.Queued | specs/default/chef/site-cookbooks/slurm/files/default/cyclecloud_slurm_test.py:114-118 | a new mock on which each expectation of a list was queued, in order, holds exactly that list |
| Mocks.MockSubprocess.Expect | specs/default/chef/site-cookbooks/slurm/files/default/cyclecloud_slurm_test.py:114-118 | an expectation is appended to the queue |
| Mocks.MockSubprocess.ExpectLine | specs/default/chef/site-cookbooks/slurm/files/default/cyclecloud_slurm_test.py:115-118 | a command given as one string is split into words before it is queued |
| Mocks.MockSubprocess.CheckOutput | specs/default/chef/site-cookbooks/slurm/files/default/cyclecloud_slurm_test.py:120-124 | the call and the new queue are exactly `Serve` on the old queue |
| Mocks.MockSubprocess.CheckCall | specs/default/chef/site-cookbooks/slurm/files/default/cyclecloud_slurm_test.py:126-128 | an empty queue fails; otherwise the head is popped and the call passes iff its arguments match |
| Mocks.MockSubprocess.Exit | specs/default/chef/site-cookbooks/slurm/files/default/cyclecloud_slurm_test.py:133-135 | the exit check is `ExitOutcome` of the current queue |
| Mocks.Added | specs/default/chef/site-cookbooks/slurm/files/default/cyclecloud_slurm_test.py:84-89 | each set reports its count as added |
| Mocks.StartedRecords | specs/default/chef/site-cookbooks/slurm/files/default/cyclecloud_slurm_test.py:96-98 | one started record per name, in order, holding only its name, target state and state `Started` and address `10.1.0.<i>` |
| Mocks.StartedAddressesDistinct | specs/default/chef/site-cookbooks/slurm/files/default/cyclecloud_slurm_test.py:97-98 | different started nodes get different addresses |
| Mocks.MockCluster.constructor | specs/default/chef/site-cookbooks/slurm/files/default/cyclecloud_slurm_test.py:55-61 | a new cluster mock is `mock-cluster` with nothing expected or started |
| Mocks.MockCluster.ExpectCreate | specs/default/chef/site-cookbooks/slurm/files/default/cyclecloud_slurm_test.py:281-283 | a create request is appended to the expected ones, nothing else changes |
| Mocks.MockCluster.GetClusterStatus | specs/default/chef/site-cookbooks/slurm/files/default/cyclecloud_slurm_test.py:63-68 | the configured status for this cluster's name, an error for another name |
| Mocks.MockCluster.CreateNodes | specs/default/chef/site-cookbooks/slurm/files/default/cyclecloud_slurm_test.py:70-90 | a wrong cluster name or an empty queue fails; otherwise the head request is popped, and the call reports each set's count as added iff the sets equal it |
| Mocks.MockCluster.StartNodes | specs/default/chef/site-cookbooks/slurm/files/default/cyclecloud_slurm_test.py:92-102 | when the names are the expected ones, the started nodes become their records and the operation id is returned; otherwise an error and nothing started |
| Mocks.MockCluster.GetNodes | specs/default/chef/site-cookbooks/slurm/files/default/cyclecloud_slurm_test.py:104-107 | whatever `_started_nodes` holds: the records `start_nodes` made, or the node records a test stored there |
| Hostlist.CompressReply | specs/default/chef/site-cookbooks/slurm/files/default/cyclecloud_slurm_test.py:214-216 | a compression succeeds iff the mock answered with text, and is that text |
| Hostlist.ExpandReply | specs/default/chef/site-cookbooks/slurm/files/default/cyclecloud_slurm_test.py:292-293 | an expansion succeeds iff the mock answered with text, and is a list of words |
| Hostlist.Compress | specs/default/chef/site-cookbooks/slurm/files/default/cyclecloud_slurm_test.py:331-335 | `scontrol show hostlist a,b,c` served by the subprocess mock |
| Hostlist.Expand | specs/default/chef/site-cookbooks/slurm/files/default/cyclecloud_slurm_test.py:330-334 | `scontrol show hostnames range` served by the subprocess mock |
| Hostlist.ExpandAnswered | specs/default/chef/site-cookbooks/slurm/files/default/cyclecloud_slurm_test.py:291-293 | a queued space-joined reply expands back to exactly the names |
| Hostlist.CompressAnswered | specs/default/chef/site-cookbooks/slurm/files/default/cyclecloud_slurm_test.py:331-335 | a queued `show hostlist` reply is the range compression returns, and it uses up that one expectation |
| Hostlist.ExpandOutOfOrder | specs/default/chef/site-cookbooks/slurm/files/default/cyclecloud_slurm_test.py:120-124 | a call that is not the next expected one fails |
| Text.ParseNatToString | specs/default/chef/site-cookbooks/slurm/files/default/cyclecloud_slurm_test.py:249-273 | decimal rendering of a node number reads back as that number |
| Text.NatToStringInjective | specs/default/chef/site-cookbooks/slurm/files/default/cyclecloud_slurm_test.py:249-273 | different node numbers render differently |
| Text.SplitJoinRoundTrip | specs/default/chef/site-cookbooks/slurm/files/default/cyclecloud_slurm_test.py:292-293 | splitting a space-joined list of words gives the words back |
| Text.NoSeparatorWhole | specs/default/chef/site-cookbooks/slurm/files/default/cyclecloud_slurm_test.py:454 | text without the separator forms the last piece of `split` whole |
| Text.ScanReaches | specs/default/chef/site-cookbooks/slurm/files/default/cyclecloud_slurm_test.py:454 | `split`'s left-to-right scan stops at an occurrence of the separator that no earlier occurrence overlaps, so the last piece is read from what follows it |

## Left out

- Talking to CycleCloud and running `scontrol`: the cluster API and the subprocess are the two mock classes; the real hostlist syntax is not modelled, and the pure functions take the hostlist service as `compress`/`expand` parameters.
- The `session` argument and the `DoNotUse` guard of every mock method: they carry no data.
- `cStringIO` writers: configuration output is a sequence of lines; trailing whitespace and `strip()` play no part.
- Floating point: memory sizes and `dampen_memory` are exact reals, rounded down explicitly where the code truncates.
- `test_resume` (`_resume`, `scontrol update ... NodeAddr=`): the test is disabled by its first line, so no behaviour is pinned; the cluster mock's `StartNodes` is modelled on its own.
- `test_iniitialize` (`initialize_config`): writes a JSON file on disk; file I/O is out of scope.
- Logging, including the informational message when fewer nodes were added than requested.
- The exact wording of `CyclecloudSlurmError` messages: only the trailing ` - <node>` of the apply-changes error is pinned, and the model's texts are its own.
- Mocks.MockCluster.CreateNodes: the key-by-key diff the mock prints before failing is not modelled, only whether the request equals the expected one; the mock compares a dict with a list first, which is always unequal, and then the sets themselves, so the outcome is the same.
- ProvisionSession.CreateNodesSession: the test queues three `hostnames` replies and uses two; the third stays queued, and since that mock is not used as a context manager nothing checks it, so the session does not state the mock's final queue.
- Fetch.DerivePartition: the VM's `pcpu_count` left unset by the test is taken as 0, and `use_pcpu` defaults to true.
- NodearrayFilter.FilterByNodearrays: the scheduler is excluded because its template matches no partition's nodearray, not by any special case.
- Topology.TopologyLines: only autoscale nodes are grouped, and nodes without a placement group share the switch `htc` rather than one per nodearray.
- SlurmConf.DefMemPerCpu: requires a positive CPU count; the code would divide by zero.
- Partition mappings are insertion-ordered sequences, as Python dicts are; hashing is not modelled.
- Provision.CreationRequest: the `node_list` argument of `_create_nodes` is `[]` in every call the test makes; only that case is modelled, so `Provision.BuildCreationRequest` has no such parameter.
- Fetch.FetchPartitions: on a repeated partition name the last enabled nodearray replaces the earlier one in place, as plain dict assignment does; the test does not pin this.
- Provision.ShortfallNamesAreMissing: proved only when a batch's existing nodes are its first ones, which is the case the test pins; with a gap, numbering the shortfall after the count of existing nodes re-requests an existing name (`Provision.GapReusesExistingName`), and the model keeps that rule because the test pins no other.
- FetchSession.FetchWithNodes: the test queues its `show hostlist` expectation as one string, which the mock splits; the session queues the split words directly.
- FetchSession.FetchSessionRun: the test changes the status objects in place after handing them to the mock; the session gives the mock the changed status instead.
- Provision.Provisionable: an HPC partition with `max_scaleset_size` 0 is excluded by precondition rather than given a behaviour; batching divides its node count by that size, and every partition of the test has a positive one.
- SlurmConf.Renderable: a partition with `max_scaleset_size` 0 is excluded by precondition in the same way; its `Nodename` runs would have length 0.
- Partitions.Put: a mapping's keys are taken to be its partitions' own names; `test_generate_slurm_conf` stores the partition named `custom_partition_name` under the key `hpc`, which changes nothing rendered, since rendering walks the partitions themselves.
- ApplyChanges.SplitGivesBlocker: requires a node name without ` - `; for a name such as `a - b`, splitting the error text gives `b`, not the name, and `ApplyChanges.MessageEndsWithNode` still holds.
- Text.IsSpace: only the ASCII separators of Python 3's `str.split()` are modelled; its non-ASCII Unicode separators are not, since every command line and reply here is ASCII.
