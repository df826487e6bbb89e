/** The RPC status a handler fails with. The handlers report every internal
    error as an aborted status carrying the error's text, and a timed-out run
    as a cancelled one. */
module Rpc {
  import opened Base

  datatype Code = Aborted | Cancelled | InvalidArgument | Unknown

  datatype Status = Status(code: Code, message: string)

  /** `Status::aborted(err.to_string())`. */
  function AbortedWith(message: string): (s: Status)
    ensures s.code == Aborted && s.message == message
  {
    Status(Aborted, message)
  }

  /** `{:?}` of a code. */
  function CodeName(c: Code): string {
    match c
    case Aborted => "Aborted"
    case Cancelled => "Cancelled"
    case InvalidArgument => "InvalidArgument"
    case Unknown => "Unknown"
  }

  /** The text a status displays as once it is wrapped into an error: its code
      and its quoted message after a fixed head, so always longer than the
      message alone. */
  function StatusText(st: Status): (t: string)
    ensures |t| > |st.message| + 8
    ensures t[..8] == "status: "
  {
    var t := "status: " + CodeName(st.code) + ", message: \"" + st.message + "\"";
    assert t[..8] == "status: ";
    t
  }

  /** The unary handlers' reply: `Ok(msg)` becomes the response, and any error
      `err` becomes `Status::aborted(err.to_string())`. */
  function Respond<T>(r: Result<T, string>): (s: Result<T, Status>)
    ensures s.Ok? <==> r.Ok?
    ensures r.Ok? ==> s.value == r.value
    ensures r.Err? ==> s.error.code == Aborted && s.error.message == r.error
  {
    match r
    case Ok(v) => Ok(v)
    case Err(e) => Err(AbortedWith(e))
  }
}
