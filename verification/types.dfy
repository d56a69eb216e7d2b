/**
  The record shapes shared by the panels (the repository's `types.ts`).
  Numbers the source keeps as JavaScript floats are integers here: process
  CPU load is counted in tenths of a percent, because the source always
  rounds it to one decimal.
 */
module Types {

  datatype Option<T> = None | Some(value: T)

  /** `ThreatLevel`: the severity attached to a scan finding. */
  datatype ThreatLevel = Safe | Warning | Critical | Unknown

  /** The three states a process row can be in. */
  datatype ProcessStatus = Running | Background | Suspended

  /** `SystemProcess`: one row of the simulated process table. */
  datatype SystemProcess = SystemProcess(
    pid: int,
    name: string,
    cpuTenths: int,      // CPU load in tenths of a percent (15.0% is 150)
    memory: int,         // resident memory in MB
    isHidden: bool,
    status: ProcessStatus)

  /** What a scan finding is about. */
  datatype ScanKind = File | Process | Network | Manifest

  /** `ScanResult`: one finding of the deep scanner; `timestamp` is epoch milliseconds. */
  datatype ScanResult = ScanResult(
    id: string,
    target: string,
    kind: ScanKind,
    timestamp: int,
    status: ThreatLevel,
    details: string)

  /** `NetworkPacket`: one sample of the traffic chart. */
  datatype NetworkPacket = NetworkPacket(
    time: string,
    upload: int,
    download: int,
    connections: int)
}
