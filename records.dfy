/**
  The records the healing pipeline hands between its stages: one fix attempt
  per failure, one timeline entry per heal iteration, and the run's verdict.
*/
module Records {
  import opened Wrappers
  import opened DockerRunner

  /** Outcome of one fix attempt: `"fixed"` or `"failed"`. */
  datatype FixStatus = Fixed | FixFailed {
    function Name(): string {
      match this
      case Fixed => "fixed"
      case FixFailed => "failed"
    }
  }

  /**
    One row of the fixes table. `sha` is the short commit sha of the push that
    carried it (none until a push succeeds); `error` is the text of an exception
    raised while fixing, when there was one.
  */
  datatype FixEntry = FixEntry(
    file: string,
    bugType: BugType,
    line: int,
    errorMessage: string,
    commitMessage: string,
    status: FixStatus,
    sha: Option<string>,
    iteration: int,
    error: Option<string>)

  /** Verdict of one heal iteration: `"PASS"` or `"FAIL"`. */
  datatype IterationStatus = Pass | Fail {
    function Name(): string {
      match this
      case Pass => "PASS"
      case Fail => "FAIL"
    }
  }

  /** One CI timeline entry; the timestamp is a plain string the model does not interpret. */
  datatype IterationRecord = IterationRecord(
    iteration: int,
    status: IterationStatus,
    timestamp: string,
    failuresCount: nat,
    message: string)

  /** The run's final CI status: `"PASSED"` or `"FAILED"`. */
  datatype FinalStatus = Passed | Failed {
    function Name(): string {
      match this
      case Passed => "PASSED"
      case Failed => "FAILED"
    }
  }
}
