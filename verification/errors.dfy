/** The installer's error type (`InstallError` in src/main.rs), as the union of
    every variant the task bodies construct, and its `Display` text. */
module Errors {
  import opened Text

  /** What a wrapped `std::io::Error` says: an operating-system failure with its
      message, or a child process that exited unsuccessfully (duct reports a
      non-zero status as an I/O error). */
  datatype IoFault = Os(message: string) | ExitCode(code: int)

  datatype InstallError =
    | Decline                  // the operator answered "no"
    | IoError(fault: IoFault)  // any wrapped std::io::Error
    | EmptyResponse            // a captured command printed nothing
    | NoNetwork                // the link never came up
    | InvalidFile(path: string)

  function FaultText(f: IoFault): string {
    match f
    case Os(m) => m
    case ExitCode(c) => "command exited with code " + IntText(c)
  }

  /** The `Display` text of an error. */
  function Describe(e: InstallError): (r: string)
    ensures e == Decline ==> r == "user declined to continue"
    ensures e.IoError? ==> r == "io error: " + FaultText(e.fault)
    ensures e.InvalidFile? ==> Contains(r, e.path)
  {
    match e
    case Decline => "user declined to continue"
    case IoError(f) => "io error: " + FaultText(f)
    case EmptyResponse => "command produced no output"
    case NoNetwork => "network is not available"
    case InvalidFile(p) =>
      ContainsInfix("invalid file: ", p, "");
      assert "invalid file: " + p == "invalid file: " + p + "";
      "invalid file: " + p
  }
}
