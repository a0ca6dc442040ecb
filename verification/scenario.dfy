/** Jobs and the dimensions they are reported under. */
module Scenario {
  datatype Protocol = SSH | RDP | VNC | Web | MySQL | OtherProtocol(name: string)
  datatype Mode = Direct | Browser | OtherMode(name: string)
  datatype Job = Job(id: int, protocol: Protocol, mode: Mode, assetID: string, accountID: string)

  /** The report key "protocol/mode". */
  datatype Dimension = Dimension(protocol: Protocol, mode: Mode)

  function DimensionOf(job: Job): Dimension { Dimension(job.protocol, job.mode) }

  predicate KnownProtocol(p: Protocol) { !p.OtherProtocol? }

  predicate KnownMode(m: Mode) { !m.OtherMode? }

  predicate DistinctAssets(jobs: seq<Job>) {
    forall i, j :: 0 <= i < j < |jobs| ==> jobs[i].assetID != jobs[j].assetID
  }

  predicate DistinctAccounts(jobs: seq<Job>) {
    forall i, j :: 0 <= i < j < |jobs| ==> jobs[i].accountID != jobs[j].accountID
  }
}
