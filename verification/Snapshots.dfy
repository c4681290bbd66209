/** What a device remembers of the miner before a full curtailment. */
module Snapshots {
  import opened Wrappers

  datatype Snapshot = Unknown | WasMining | WasNotMining

  function FromMiningStatus(wasMining: bool): Snapshot
  {
    if wasMining then WasMining else WasNotMining
  }

  function RestoreDecision(s: Snapshot): Option<bool>
  {
    match s
    case Unknown => None
    case WasMining => Some(true)
    case WasNotMining => Some(false)
  }

  /** Only the first curtail of an episode is recorded. */
  function Recorded(s: Snapshot, wasMining: bool): Snapshot
  {
    if s == Unknown then FromMiningStatus(wasMining) else s
  }

  /** With nothing on record, uncurtail resumes. */
  predicate ShouldResume(s: Snapshot)
  {
    RestoreDecision(s) != Some(false)
  }
}
