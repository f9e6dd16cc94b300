/**
 * The error taxonomy of run-with-macadam.py, its `run_command` wrapper around
 * `subprocess.run`, and how `main` turns an escaping exception into the
 * operator's diagnostic line and the process exit code.
 */
module Commands {
  import opened Text

  /**
   * The exceptions that can reach `main`. `DependencyError` and `VMError`
   * are subclasses of `MacadamError` in the source; `KeyboardInterrupt` is
   * the operator's interrupt; `OtherError` stands for every other exception
   * (a refused socket connection, a failed file write, a command that could
   * not be started), carrying its message.
   */
  datatype Exception =
    | MacadamError(message: string)
    | DependencyError(message: string)
    | VMError(message: string)
    | KeyboardInterrupt
    | OtherError(message: string)
  {
    /** The exceptions an `except MacadamError` clause catches. */
    predicate IsMacadamError() {
      MacadamError? || DependencyError? || VMError?
    }
  }

  /** A value or the exception raised instead. */
  datatype Result<+T> = Ok(value: T) | Err(error: Exception)

  /** A step that returns nothing: it returned normally or it raised. */
  datatype Outcome = Done | Raised(error: Exception)

  /** `subprocess.CompletedProcess` with its captured text. */
  datatype Completed = Completed(returncode: int, stdout: string, stderr: string)

  /**
   * What the operating system does with one launched command: the process
   * runs to completion, its executable is not found, `subprocess.run` raises
   * something else (permission denied, an executable for another platform,
   * output that does not decode as text) with the given message, or the
   * operator interrupts the wait.
   */
  datatype Invocation = Exited(result: Completed) | NotFound | LaunchFailed(message: string) | Interrupted

  /** The diagnostic for a command whose executable does not exist. */
  function CommandNotFound(command: string): string {
    "Command not found: " + command
  }

  /**
   * `run_command(argv, check=check)`: a completed process is returned unless
   * `check` is set and its status is non-zero; a failed check and a missing
   * executable are both re-raised as `MacadamError`; any other exception of
   * `subprocess.run`, and an interrupt, pass through untouched.
   */
  function RunCommand(argv: seq<string>, inv: Invocation, check: bool): (r: Result<Completed>)
    requires argv != []
    ensures r.Ok? <==> inv.Exited? && (!check || inv.result.returncode == 0)
    ensures r.Ok? ==> r.value == inv.result
    ensures inv.Interrupted? <==> r == Err(KeyboardInterrupt)
    ensures inv.LaunchFailed? <==> r.Err? && r.error.OtherError?
    ensures inv.LaunchFailed? ==> r == Err(OtherError(inv.message))
    ensures r.Err? && (inv.Exited? || inv.NotFound?) ==> r.error.MacadamError?
    ensures inv.NotFound? ==> r == Err(MacadamError(CommandNotFound(argv[0])))
  {
    match inv
    case Exited(c) =>
      if check && c.returncode != 0 then Err(MacadamError("Command failed: " + JoinWords(argv))) else Ok(c)
    case NotFound => Err(MacadamError(CommandNotFound(argv[0])))
    case LaunchFailed(m) => Err(OtherError(m))
    case Interrupted => Err(KeyboardInterrupt)
  }

  /** The result of `main`: success, or the line it writes to standard error. */
  datatype Report = Success | Failure(diagnostic: string)

  /** The status `main` returns to `sys.exit`. */
  function ExitCode(r: Report): (code: int)
    ensures code == 0 || code == 1
    ensures code == 0 <==> r.Success?
  {
    if r.Success? then 0 else 1
  }

  /**
   * The three `except` clauses of `main`: pipeline errors, the operator's
   * interrupt and any other exception. All three return 1; only the
   * diagnostic tells them apart.
   */
  function ReportFor(e: Exception): Report {
    if e.IsMacadamError() then Failure("Error: " + e.message)
    else if e.KeyboardInterrupt? then Failure("\nInterrupted by user.")
    else Failure("Unexpected error: " + e.message)
  }

  /** Every exception that reaches `main` makes it return 1, with the diagnostic of its `except` clause. */
  lemma ReportForSpec(e: Exception)
    ensures ReportFor(e).Failure? && ExitCode(ReportFor(e)) == 1
    ensures e.IsMacadamError() ==> ReportFor(e) == Failure("Error: " + e.message)
    ensures e.KeyboardInterrupt? ==> ReportFor(e) == Failure("\nInterrupted by user.")
    ensures e.OtherError? ==> ReportFor(e) == Failure("Unexpected error: " + e.message)
  {
  }

  /**
   * The three kinds of failure write three distinguishable diagnostics,
   * whatever their messages: each pair of clauses differs in its first
   * character.
   */
  lemma {:induction false} ReportsDistinguishKinds(e1: Exception, e2: Exception, e3: Exception)
    requires e1.IsMacadamError() && e2.KeyboardInterrupt? && e3.OtherError?
    ensures ReportFor(e1) != ReportFor(e2)
    ensures ReportFor(e1) != ReportFor(e3)
    ensures ReportFor(e2) != ReportFor(e3)
  {
    assert ReportFor(e1).diagnostic[0] == 'E';
    assert ReportFor(e2).diagnostic[0] == '\n';
    assert ReportFor(e3).diagnostic[0] == 'U';
  }
}
