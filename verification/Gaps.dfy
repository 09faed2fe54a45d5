/** The data-gap messages the collectors emit, and the substrings of them that
    report assembly inspects. */
module Gaps {

  datatype Source = FromClaude | FromCodex | FromCopilot | FromKronn | FromRtk | FromReport | FromKpi

  // The substrings `_gap_code` and `validate_report` look for in a message.
  datatype Phrase =
    | SaysGranularity
    | SaysCompleteUtcDay
    | SaysPartialUtcBoundary
    | SaysCoverage
    | SaysNonCanonicalLabel

  // The text of an exception, with the inspected phrases it happens to contain.
  datatype Failure = Failure(text: string, phrases: set<Phrase>)

  datatype Message =
    | ClaudeDirMissing
    | ClaudeUnreadable(files: nat)
    | ClaudeInvalidJson(lines: nat)
    | ClaudeMalformed
    | CodexDirMissing
    | CodexUnreadable(files: nat)
    | CodexIncoherent(threads: nat)
    | CodexPartialDays
    | CodexMalformed
    | CodexInvalidJson(lines: nat)
    | CopilotDbMissing
    | CopilotDbUnreadable(cause: Failure)
    | CopilotMalformed
    | CopilotCoverage
    | KronnDbMissing
    | KronnDbUnreadable(cause: Failure)
    | KronnMalformed
    | RtkUnavailable(cause: Failure)
    | RtkTimedOut(cause: Failure)
    | RtkUnknown(cause: Failure)
    | RtkFailed
    | RtkUnparseable
    | RtkSchema
    | RtkRowSchema
    | RtkRowDate
    | RtkRowCounters
    | RtkRowArithmetic
    | RtkDuplicateDates
    | RtkPartialDays
    | RtkNoFullDay
    | RtkSkipped
    | MetricsUnavailable(source: Source)
    | ScenarioOmitted
    | DenominatorMissing
  {
    function Phrases(): set<Phrase> {
      match this
      case CodexPartialDays => {SaysPartialUtcBoundary}
      case CopilotCoverage => {SaysCoverage}
      case RtkPartialDays => {SaysGranularity, SaysPartialUtcBoundary}
      case RtkNoFullDay => {SaysCompleteUtcDay}
      case ScenarioOmitted => {SaysNonCanonicalLabel}
      case CopilotDbUnreadable(cause) => cause.phrases
      case KronnDbUnreadable(cause) => cause.phrases
      case RtkUnavailable(cause) => cause.phrases
      case RtkTimedOut(cause) => cause.phrases
      case RtkUnknown(cause) => cause.phrases
      case _ => {}
    }

    predicate NamesGranularity() {
      SaysGranularity in Phrases() || SaysCompleteUtcDay in Phrases() || SaysPartialUtcBoundary in Phrases()
    }
  }
}
