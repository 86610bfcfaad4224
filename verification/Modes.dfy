/** The three probe modes: the names the client prints and the dashboard's `MODES` tuple. */
module Modes {
  datatype Mode = Classical | Hybrid | HybridP256

  const MODES: seq<Mode> := [Classical, Hybrid, HybridP256]
  const BASELINE_MODE := Classical

  function Name(mode: Mode): string {
    match mode
    case Classical => "classical"
    case Hybrid => "hybrid"
    case HybridP256 => "hybrid_p256"
  }

  /** The CHECK constraint of the measurements table. */
  predicate TableAdmits(mode: Mode) {
    mode == Classical || mode == Hybrid
  }
}
