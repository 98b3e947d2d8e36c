/**
 * The parts of the Python and tornado runtime that the NATadm code relies on:
 * bytes, the exceptions it raises or catches, a byte stream (tornado's IOStream)
 * and a single-assignment future (tornado's Future).
 */
module Runtime {
  import opened Wrappers

  /** A Python `bytes` element. */
  type byte = x: int | 0 <= x < 256

  /** The exceptions that travel through the modelled code. */
  datatype Exception =
    | StreamClosed              // tornado StreamClosedError: end of input, or use of a closed stream
    | Unpickling                // the package body does not decode to a message
    | HelloExpected             // broker: first package is not `hello`
    | TooNewVersion(version: int) // `hello.check_protocol_version`
    | UnexpectedPackage         // proxy: a framed package other than payload/disconnect
    | ClientUnexpected          // client: `unexpected_package`
    | InvalidState              // resolving a future that is already resolved
    | IndexError                // indexing past the end of a Python list
    | AssertionFailed           // a failed Python `assert`
    | MissingAttribute(attribute: string) // AttributeError on a package object
    | Environment(message: string) // raised by code outside the model (listen, dial, relay)

  type Res<T> = Result<T, Exception>
  type Status = Outcome<Exception>

  /** Decimal rendering of a natural number, as Python's `str` gives it. */
  function NatToString(n: nat): (s: string)
    ensures |s| >= 1
    decreases n
  {
    var digit := "0123456789"[n % 10];
    if n < 10 then [digit] else NatToString(n / 10) + [digit]
  }

  function IntToString(i: int): string
  {
    if i < 0 then "-" + NatToString(-i) else NatToString(i)
  }

  /** `str(e)`: the text the broker sends back in an `error` package. */
  function Describe(e: Exception): string
  {
    match e
    case StreamClosed => "Stream is closed"
    case Unpickling => "could not unpickle package"
    case HelloExpected => "Invalid package received, HELLO expected"
    case TooNewVersion(v) => "Too new protocol version: " + IntToString(v)
    case UnexpectedPackage => "Unexpected package received: "
    case ClientUnexpected => "Unexpected package: "
    case InvalidState => "future is already resolved"
    case IndexError => "list index out of range"
    case AssertionFailed => ""
    case MissingAttribute(a) => "'connect' object has no attribute '" + a + "'"
    case Environment(message) => message
  }

  /** Snapshot of a stream's state, used by specification functions. */
  datatype Side = Side(incoming: seq<byte>, written: seq<byte>, closed: bool)

  /**
   * A connected byte stream. `incoming` holds what the peer has sent and this side has
   * not read yet, `written` everything this side has written. Reaching the end of the
   * input closes the stream, as tornado's IOStream does; a closed stream refuses reads
   * and writes with StreamClosed, and closing is idempotent.
   */
  class Stream {
    var incoming: seq<byte>
    var written: seq<byte>
    var closed: bool

    constructor (input: seq<byte>)
      ensures incoming == input && written == [] && !closed
    {
      incoming, written, closed := input, [], false;
    }

    function View(): Side
      reads this
    {
      Side(incoming, written, closed)
    }

    /** `read_bytes(n)`: exactly n bytes, or StreamClosed when the input ends first. */
    method ReadBytes(n: nat) returns (r: Res<seq<byte>>)
      modifies this
      ensures written == old(written)
      ensures if !old(closed) && n <= |old(incoming)|
        then r == Ok(old(incoming)[..n]) && incoming == old(incoming)[n..] && !closed
        else r == Err(StreamClosed) && incoming == [] && closed
    {
      if !closed && n <= |incoming| {
        r := Ok(incoming[..n]);
        incoming := incoming[n..];
      } else {
        r := Err(StreamClosed);
        incoming, closed := [], true;
      }
    }

    /**
     * `read_bytes(max, partial=True)`: whatever is available, at least one byte and at
     * most max. How much is available is up to the peer, so the size is chosen freely.
     */
    method ReadPartial(max: nat) returns (r: Res<seq<byte>>)
      requires max >= 1
      modifies this
      ensures written == old(written)
      ensures if !old(closed) && |old(incoming)| > 0
        then r.Ok? && 1 <= |r.value| <= max && old(incoming) == r.value + incoming && !closed
        else r == Err(StreamClosed) && incoming == [] && closed
    {
      if !closed && |incoming| > 0 {
        var k :| 1 <= k <= max && k <= |incoming|;
        r := Ok(incoming[..k]);
        incoming := incoming[k..];
      } else {
        r := Err(StreamClosed);
        incoming, closed := [], true;
      }
    }

    /** `write(data)`: appended to the output unless the stream is closed. */
    method Write(data: seq<byte>) returns (r: Status)
      modifies this
      ensures incoming == old(incoming) && closed == old(closed)
      ensures if old(closed) then r == Fail(StreamClosed) && written == old(written)
        else r == Pass && written == old(written) + data
    {
      if closed {
        r := Fail(StreamClosed);
      } else {
        written := written + data;
        r := Pass;
      }
    }

    /** `close()`: closing an already closed stream changes nothing. */
    method Close()
      modifies this
      ensures closed && incoming == old(incoming) && written == old(written)
    {
      closed := true;
    }
  }

  datatype FutureState<+T> = Pending | Resolved(value: T) | Raised(error: Exception)

  /** A future that is resolved at most once; a second resolution raises InvalidState. */
  class Future<T> {
    var state: FutureState<T>

    constructor ()
      ensures state == Pending
    {
      state := Pending;
    }

    method SetResult(v: T) returns (r: Status)
      modifies this
      ensures if old(state).Pending? then state == Resolved(v) && r == Pass
        else state == old(state) && r == Fail(InvalidState)
    {
      if state.Pending? {
        state := Resolved(v);
        r := Pass;
      } else {
        r := Fail(InvalidState);
      }
    }

    method SetException(e: Exception) returns (r: Status)
      modifies this
      ensures if old(state).Pending? then state == Raised(e) && r == Pass
        else state == old(state) && r == Fail(InvalidState)
    {
      if state.Pending? {
        state := Raised(e);
        r := Pass;
      } else {
        r := Fail(InvalidState);
      }
    }
  }
}
