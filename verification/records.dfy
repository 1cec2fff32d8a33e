/**
 * The decoded solution record. Every field is optional, as in the JSON
 * object it comes from; the accessors apply the defaults the renderer uses
 * when a key is missing.
 */
module Records {
  import opened Options

  /** The verifier's report on one iteration. */
  datatype Verification = Verification(bugReport: Option<string>)

  /** One refinement step of a run. */
  datatype Iteration = Iteration(
    iteration: Option<int>,
    correctCount: Option<int>,
    errorCount: Option<int>,
    verificationResult: Option<string>,
    isCorrect: Option<bool>,
    correctedSolution: Option<string>,
    verification: Option<Verification>)
  {
    /** The displayed number: `iteration`, or the position when it is missing. */
    function Label(position: int): int { iteration.GetOr(position) }

    function Correct(): int { correctCount.GetOr(0) }

    function Errors(): int { errorCount.GetOr(0) }

    function Result(): string { verificationResult.GetOr("unknown") }

    predicate Passed() { isCorrect.GetOr(false) }
  }

  /** One top-level solution attempt. */
  datatype Run = Run(
    runNumber: Option<int>,
    timestamp: Option<string>,
    status: Option<string>,
    reason: Option<string>,
    iterations: Option<seq<Iteration>>)
  {
    /** The displayed number: `run_number`, or the position when it is missing. */
    function Label(position: int): int { runNumber.GetOr(position) }

    /** The status shown on the badge. */
    function Status(): string { status.GetOr("unknown") }

    /** A run is failed exactly when its status is the literal `failed`; a missing status is not. */
    predicate Failed() { status == Some("failed") }

    function Reason(): string { reason.GetOr("") }

    function Iterations(): seq<Iteration> { iterations.GetOr([]) }
  }

  /** Descriptive fields of the whole record. */
  datatype Metadata = Metadata(
    problemStatement: Option<string>,
    timestamp: Option<string>,
    modelName: Option<string>)

  /** The whole decoded JSON object. */
  datatype Document = Document(metadata: Option<Metadata>, runs: Option<seq<Run>>) {
    function Meta(): Metadata { metadata.GetOr(Metadata(None, None, None)) }

    function Runs(): seq<Run> { runs.GetOr([]) }
  }
}
