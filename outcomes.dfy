/** How the driver's process ends, and how it reads a child's exit status. */
module Outcomes {
  import opened Wrappers

  /** Why the driver panicked (an `expect`, `unwrap`, `panic!` or out-of-range index). */
  datatype Panic =
    | UnparsableCommitDate  // `CommitDate::parse(..).expect(..)` in the gate
    | NoCommand             // no verb after `cargo 3ds`
    | InvalidCommand        // a verb other than `build` or `link`
    | MetadataFailed        // `cargo metadata` could not be run or read
    | NoRootCrate           // the workspace has no root package
    | NoDevkitPro           // no `./icon.png` and `DEVKITPRO` unset
    | NoAuthors             // `authors[0]` on an empty list

  /** The end of the process: `process::exit(code)` (or a normal return, code 0) or a panic. */
  datatype Outcome = Exited(code: int) | Panicked(reason: Panic)

  /** A child's `ExitStatus::code()`: `None` when a signal ended it. */
  type ExitStatus = Option<int>

  /** `ExitStatus::success()`. */
  predicate Succeeded(status: ExitStatus) {
    status == Some(0)
  }

  /** The status the driver exits with after a failed child: its code, or 1 without one. */
  function FailureCode(status: ExitStatus): (code: int)
    requires !Succeeded(status)
    ensures code != 0
    ensures status.Some? ==> code == status.value
    ensures status.None? ==> code == 1
  {
    match status
    case Some(c) => c
    case None => 1
  }

  /** What a stage does after waiting: go on (`None`) or exit with a code. */
  function StageExit(status: ExitStatus): Option<int> {
    if Succeeded(status) then None else Some(FailureCode(status))
  }

  /**
   * The tail every stage function shares: wait for the child, and on a
   * status other than success ask for an exit with its code, or 1.
   */
  method ExitOnFailure(status: ExitStatus) returns (exit: Option<int>)
    ensures exit.None? <==> Succeeded(status)
    ensures exit.Some? ==> exit.value != 0
    ensures exit == StageExit(status)
  {
    exit := None;
    if status != Some(0) {
      var code := 1;
      if status.Some? {
        code := status.value;
      }
      exit := Some(code);
    }
  }
}
