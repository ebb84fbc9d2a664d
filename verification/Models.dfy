/** The closed vocabularies of `models.py` that several modules share. */
module Models {
  datatype Status = Pass | Withheld | ReduceSize | Reject | UnverifiedNoVerdict

  datatype VerdictTier = Allow | TierReduceSize | HumanReview | Block

  datatype ReasonCode =
    | ReasonPass
    | NewBlockBreach
    | ReceiptMismatch
    | BaselineUnchained
    | BaselineGenesis
    | CoverageIncomplete
    | ProbeError
    | EngineFailure
    | DataMissing
    | BaselineBreaches
    | NonfiniteValue
    | SchemaInvalid
    | CandidateSandboxViolation
    | VerdictPathViolation
    | ReceiptBindingFailed
    | ReasonUnverified

  datatype ProofKind =
    | PackageCanonical
    | EditProvenance
    | SpecCompile
    | BaselineCalibration
    | ReplayRun
    | ReplayWellformed
    | Probe
    | Coverage
    | CandidateAbsolute
    | Decision
    | SponsorReadback
    | Verification

  datatype ChainStatus = Chained | GenesisChain | Unchained

  /** The text of a reason code. */
  function ReasonText(reason: ReasonCode): string {
    match reason
    case ReasonPass => "PASS"
    case NewBlockBreach => "NEW_BLOCK_BREACH"
    case ReceiptMismatch => "RECEIPT_MISMATCH"
    case BaselineUnchained => "BASELINE_UNCHAINED"
    case BaselineGenesis => "BASELINE_GENESIS"
    case CoverageIncomplete => "COVERAGE_INCOMPLETE"
    case ProbeError => "PROBE_ERROR"
    case EngineFailure => "ENGINE_FAILURE"
    case DataMissing => "DATA_MISSING"
    case BaselineBreaches => "BASELINE_BREACHES"
    case NonfiniteValue => "NONFINITE_VALUE"
    case SchemaInvalid => "SCHEMA_INVALID"
    case CandidateSandboxViolation => "CANDIDATE_SANDBOX_VIOLATION"
    case VerdictPathViolation => "VERDICT_PATH_VIOLATION"
    case ReceiptBindingFailed => "RECEIPT_BINDING_FAILED"
    case ReasonUnverified => "UNVERIFIED_NO_VERDICT"
  }
}
