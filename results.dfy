/** Optional values, results and the failures the service code can report. */
module Results {

  datatype Option<+T> = None | Some(value: T)

  /** Exit status of a child process: a normal exit with a code, or death by a signal. */
  datatype ExitStatus = Exited(code: int) | Signaled(signal: int)

  /** Every failure `src/systemd/service.rs` reports, one constructor per distinct cause. */
  datatype Error =
    | FragmentExists(path: string)          // the profiling fragment is already there
    | HardeningExists(path: string)         // a hardening fragment would conflict with profiling
    | FileNotFound(path: string)            // opening or removing a file that is not there
    | UnexpectedEndOfFile                   // a continued directive line at the end of a file
    | LoadedNotFirst                        // a `Loaded:` line once a path is already known
    | MainUnitFileNotFound                  // a `Loaded:` line without `(` ... `;`
    | DropInWithoutUnit                     // `Drop-In:` while the path count is not exactly one
    | DropInRepeated                        // `Drop-In:` after a drop-in directory is already set
    | ExecutableNotUnicode                  // the running executable's path is not valid text
    | SystemctlFailed(status: ExitStatus)   // `systemctl` exited unsuccessfully
    | SnippetNotFound                       // no complete option snippet in the journal

  datatype Result<+T> = Ok(value: T) | Err(error: Error) {
    predicate IsFailure() { Err? }

    function PropagateFailure<U>(): Result<U>
      requires Err?
    {
      Err(error)
    }

    function Extract(): T
      requires Ok?
    {
      value
    }
  }
}
