/** Records exchanged with the cluster manager, parsed once at its boundary:
    nodes (`get_nodes`), nodearray status (`get_cluster_status`) and the
    sets of a node-creation request (`create_nodes`). Absent optional keys
    are `None`; the defaults are applied where the rules use them. */
module Cluster {
  import opened Wrappers

  /** A node of the cluster as `get_nodes` lists it: `Name`, `Template` (its
      nodearray), `PlacementGroupId`, `Status`, `Configuration.slurm.autoscale`
      (false when absent), and the `TargetState`, `State` and `PrivateIp`
      that `start_nodes` records. */
  datatype Node = Node(
    name: string,
    template: Option<string>,
    placementGroupId: Option<string>,
    status: Option<string>,
    autoscale: bool,
    targetState: Option<string>,
    state: Option<string>,
    privateIp: Option<string>)

  /** The machine shape of a bucket; `memory` is in GiB. */
  datatype VirtualMachine = VirtualMachine(vcpuCount: nat, pcpuCount: nat, gpuCount: nat, memory: real)

  /** The `Configuration.slurm` object of a nodearray. `dampenMemory` is the
      configured percentage (5 = 5%). */
  datatype SlurmSettings = SlurmSettings(
    autoscale: Option<bool>,
    hpc: Option<bool>,
    defaultPartition: Option<bool>,
    dampenMemory: Option<real>,
    usePcpu: Option<bool>)

  /** One nodearray of the cluster status with its single bucket:
      `max_count`, `definition.machine_type`, `virtual_machine`, and the
      nodearray's optional `Azure.MaxScalesetSize`. */
  datatype NodearrayStatus = NodearrayStatus(
    name: string,
    maxCount: nat,
    machineType: string,
    vm: VirtualMachine,
    maxScalesetSize: Option<nat>,
    slurm: SlurmSettings)

  /** One entry of a node-creation request's `sets`. The node attributes are
      `StartAutomatically` and `Fixed`; `placementGroupId` is absent (`None`)
      for sets that are not placed. */
  datatype RequestSet = RequestSet(
    count: nat,
    nameFormat: string,
    nameOffset: nat,
    definitionMachineType: string,
    startAutomatically: bool,
    fixed: bool,
    nodearray: string,
    placementGroupId: Option<string>)
}
