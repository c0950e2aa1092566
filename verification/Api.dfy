/** The custom resources the controllers read and write. Status and spec are kept apart. */
module Api {
  import opened Wrappers
  import opened Conditions

  datatype DiskPhase = NoPhase | Pending | Ready | Degraded | Failed

  datatype DiskSpec = DiskSpec(node: string, device: string, filesystem: string, mountPoint: string)

  datatype DiskStatus = DiskStatus(phase: DiskPhase, capacity: int, available: int, health: real, summary: string,
                                   serial: string, model: string, rotational: bool, mounted: bool,
                                   conditions: seq<Condition>)

  datatype Disk = Disk(name: string, finalizers: seq<string>, deleting: bool, spec: DiskSpec, status: DiskStatus)

  datatype ArrayPhase = NoArrayPhase | ArrayPending | ArrayReady | ArrayDegraded | ArrayRebuilding | ArrayFailed

  datatype SnapraidSpec = SnapraidSpec(contentFiles: seq<string>, excludePatterns: seq<string>)

  datatype ArraySpec = ArraySpec(dataDisks: seq<string>, parityDisks: seq<string>, snapraid: Option<SnapraidSpec>)

  datatype ArrayStatus = ArrayStatus(phase: ArrayPhase, degradedDisks: seq<string>, conditions: seq<Condition>)

  datatype Array = Array(spec: ArraySpec, status: ArrayStatus)

  datatype PoolSpec = PoolSpec(arrayRef: string, mountPoint: string)

  datatype PoolStatus = PoolStatus(phase: string, mounted: bool, totalBytes: int, availableBytes: int,
                                   memberDisks: seq<string>, conditions: seq<Condition>)

  datatype Pool = Pool(spec: PoolSpec, status: PoolStatus)

  datatype ShareSpec = ShareSpec(poolRef: string, path: string, protocol: string)

  datatype ShareStatus = ShareStatus(phase: string, published: bool, effectiveSubjects: seq<string>,
                                     podName: string, serviceName: string, conditions: seq<Condition>)

  datatype Share = Share(spec: ShareSpec, status: ShareStatus)

  /** What the node agent publishes about a device. */
  datatype AgentReport = AgentReport(capacity: int, available: int, health: real, summary: string, serial: string,
                                     model: string, rotational: bool, mounted: bool, smartFailed: bool, ioErrors: int)

  /** What the operator assumes of a device the agent has not reported. */
  const HEALTHY_DEFAULT := AgentReport(0, 0, 1.0, "", "", "", false, false, false, 0)

  /** computePhase of the disk controller. */
  function ComputePhase(r: AgentReport): DiskPhase {
    if r.smartFailed then Failed
    else if r.health < 0.3 then Degraded
    else if r.ioErrors > 0 then Degraded
    else Ready
  }
}
