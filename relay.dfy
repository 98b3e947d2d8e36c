/**
 * The proxy of common/proxy.py: it bridges a raw TCP stream and a wrapped (framed)
 * control stream. Each direction is a loop that runs until something raises; the
 * directions share one finish future. Each direction is modelled on its own, run to
 * completion against the current state of the streams.
 */
module Relay {
  import opened Wrappers
  import opened Runtime
  import opened Messages
  import opened Framing

  /** `read_bytes(2**24, partial=True)`: the largest chunk one raw read returns. */
  const MAX_CHUNK: nat := 0x100_0000

  /** The state a direction works on: both streams and the finish future. */
  datatype ProxyState = ProxyState(wrapped: Side, raw: Side, future: FutureState<bool>)

  /** The state when a direction's loop raises, and what it raised. */
  datatype Stop = Stop(state: ProxyState, failure: Exception)

  /** `set_exception(e)`: takes effect only on a pending future. */
  function Settle(f: FutureState<bool>, e: Exception): FutureState<bool>
  {
    if f.Pending? then Raised(e) else f
  }

  function Flatten(chunks: seq<seq<byte>>): seq<byte>
  {
    if chunks == [] then [] else chunks[0] + Flatten(chunks[1..])
  }

  function Payloads(chunks: seq<seq<byte>>): (ms: seq<Message>)
  {
    if chunks == [] then [] else [Payload(chunks[0])] + Payloads(chunks[1..])
  }

  /**
   * The `while True` loop of `read_wrapped`: a payload is written to raw, a disconnect
   * closes raw and resolves the future and the loop goes on, anything else raises.
   */
  function PumpWrapped(st: ProxyState): Stop
    decreases |st.wrapped.incoming|
  {
    var rd := ReadOn(st.wrapped.closed, st.wrapped.incoming);
    var next := st.(wrapped := Side(rd.rest, st.wrapped.written, st.wrapped.closed || ClosesStream(rd)));
    match rd.result
    case Err(e) => Stop(next, e)
    case Ok(m) =>
      if m.Payload? then
        if st.raw.closed then Stop(next, StreamClosed)
        else PumpWrapped(next.(raw := st.raw.(written := st.raw.written + m.payload)))
      else if m.Disconnect? then
        var rawClosed := next.(raw := st.raw.(closed := true));
        if st.future.Pending? then PumpWrapped(rawClosed.(future := Resolved(true)))
        else Stop(rawClosed, InvalidState)
      else Stop(next, UnexpectedPackage)
  }

  /**
   * The handler both directions end in: write a disconnect frame to the wrapped stream
   * and pass the loop's exception to the future; when the write itself raises, the
   * future gets the write's exception instead.
   */
  function SendDisconnect(st: ProxyState, failure: Exception): ProxyState
  {
    if st.wrapped.closed then st.(future := Settle(st.future, StreamClosed))
    else st.(wrapped := st.wrapped.(written := st.wrapped.written + FrameOf(Disconnect)),
             future := Settle(st.future, failure))
  }

  /** Everything `read_wrapped` does, from the state it starts in. */
  function ReadWrappedSpec(st: ProxyState): ProxyState
  {
    var s := PumpWrapped(st);
    SendDisconnect(s.state, s.failure)
  }

  /**
   * What a whole proxy run, both directions interleaved, did to the control stream it
   * was given: the bytes it wrote there, whether it left the stream closed, and how the
   * finish future ended. The handlers around the proxy take it as given.
   */
  datatype RelayEnd = RelayEnd(written: seq<byte>, closed: bool, outcome: Status)

  class Proxy {
    const wrappedStream: Stream
    const rawStream: Stream
    const finishFuture: Future<bool>

    constructor (wrapped: Stream, raw: Stream)
      ensures wrappedStream == wrapped && rawStream == raw
      ensures fresh(finishFuture) && finishFuture.state == Pending
    {
      wrappedStream, rawStream := wrapped, raw;
      finishFuture := new Future();
    }

    function State(): ProxyState
      reads wrappedStream, rawStream, finishFuture
    {
      ProxyState(wrappedStream.View(), rawStream.View(), finishFuture.state)
    }

    /** `read_wrapped`: wrapped stream to raw stream. */
    method ReadWrapped()
      requires wrappedStream != rawStream
      modifies wrappedStream, rawStream, finishFuture
      ensures State() == ReadWrappedSpec(old(State()))
    {
      ghost var start := State();
      var failure := StreamClosed;
      while true
        invariant PumpWrapped(State()) == PumpWrapped(start)
        decreases |wrappedStream.incoming|
      {
        var r := ReadPackage(wrappedStream);
        if r.Err? {
          failure := r.error;
          break;
        }
        var m := r.value;
        if m.Payload? {
          var w := rawStream.Write(m.payload);
          if w.Fail? {
            failure := w.error;
            break;
          }
        } else if m.Disconnect? {
          rawStream.Close();
          var s := finishFuture.SetResult(true);
          if s.Fail? {
            failure := s.error;
            break;
          }
        } else {
          failure := UnexpectedPackage;
          break;
        }
      }
      assert PumpWrapped(start) == Stop(State(), failure);
      Finish(failure);
    }

    /**
     * `read_raw`: raw stream to wrapped stream. Each chunk read is sent as one payload
     * frame; the chunks are returned so that the contract can name them.
     */
    method ReadRaw() returns (ghost chunks: seq<seq<byte>>)
      requires wrappedStream != rawStream
      modifies wrappedStream, rawStream, finishFuture
      ensures forall i :: 0 <= i < |chunks| ==> 1 <= |chunks[i]| <= MAX_CHUNK
      ensures old(rawStream.closed) || old(wrappedStream.closed) ==> chunks == []
      ensures !old(rawStream.closed) && !old(wrappedStream.closed) ==> Flatten(chunks) == old(rawStream.incoming)
      ensures wrappedStream.written == old(wrappedStream.written) +
        (if old(wrappedStream.closed) then [] else FramesOf(Payloads(chunks)) + FrameOf(Disconnect))
      ensures wrappedStream.incoming == old(wrappedStream.incoming) && wrappedStream.closed == old(wrappedStream.closed)
      ensures !old(wrappedStream.closed) ==> rawStream.incoming == []
      ensures rawStream.closed && rawStream.written == old(rawStream.written)
      ensures finishFuture.state == Settle(old(finishFuture.state), StreamClosed)
    {
      chunks := PumpRaw();
      if !rawStream.closed {
        rawStream.Close();
      }
      Finish(StreamClosed);
    }

    /**
     * The `while True` loop of `read_raw`: it ends when the raw read or the wrapped
     * write raises, and both raise only `StreamClosed`.
     */
    method PumpRaw() returns (ghost chunks: seq<seq<byte>>)
      requires wrappedStream != rawStream
      modifies wrappedStream, rawStream
      ensures forall i :: 0 <= i < |chunks| ==> 1 <= |chunks[i]| <= MAX_CHUNK
      ensures old(rawStream.closed) || old(wrappedStream.closed) ==> chunks == []
      ensures !old(rawStream.closed) && !old(wrappedStream.closed) ==>
        Flatten(chunks) == old(rawStream.incoming) && rawStream.closed
      ensures !old(wrappedStream.closed) ==> rawStream.incoming == []
      ensures wrappedStream.written == old(wrappedStream.written) + FramesOf(Payloads(chunks))
      ensures wrappedStream.incoming == old(wrappedStream.incoming) && wrappedStream.closed == old(wrappedStream.closed)
      ensures rawStream.written == old(rawStream.written)
    {
      chunks := [];
      while true
        invariant wrappedStream.incoming == old(wrappedStream.incoming) && wrappedStream.closed == old(wrappedStream.closed)
        invariant rawStream.written == old(rawStream.written) && rawStream.closed == old(rawStream.closed)
        invariant forall i :: 0 <= i < |chunks| ==> 1 <= |chunks[i]| <= MAX_CHUNK
        invariant old(rawStream.closed) || old(wrappedStream.closed) ==> chunks == []
        invariant !old(rawStream.closed) ==> Flatten(chunks) + rawStream.incoming == old(rawStream.incoming)
        invariant wrappedStream.written == old(wrappedStream.written) + FramesOf(Payloads(chunks))
        decreases |rawStream.incoming|
      {
        var r := rawStream.ReadPartial(MAX_CHUNK);
        if r.Err? {
          break;
        }
        var w := WritePackage(wrappedStream, Payload(r.value));
        if w.Fail? {
          break;
        }
        ghost var c := r.value;
        ChunkConsumed(chunks, c, old(rawStream.incoming), rawStream.incoming);
        ChunkFramed(chunks, c, old(wrappedStream.written));
        chunks := chunks + [c];
      }
    }

    /**
     * The exception handler both loops end in: a disconnect frame to the wrapped
     * stream, then the loop's exception (or the write's) to the future.
     */
    method Finish(failure: Exception)
      requires wrappedStream != rawStream
      modifies wrappedStream, finishFuture
      ensures State() == SendDisconnect(old(State()), failure)
    {
      var w := WritePackage(wrappedStream, Disconnect);
      if w.Pass? {
        var s := finishFuture.SetException(failure);
        if s.Fail? {
          s := finishFuture.SetException(s.error);
        }
      } else {
        var s := finishFuture.SetException(w.error);
      }
    }

    /**
     * `run`: both directions are started and the caller gets the one finish future.
     * Here they run one after the other, wrapped to raw first. The first direction to
     * end settles the future, and the second one's exception is lost; `chunks` are the
     * raw chunks the second direction sends. When the wrapped direction ends normally
     * (a disconnect, then end of input) the wrapped stream is closed, so no raw byte is
     * forwarded after it.
     */
    method Run() returns (f: Future<bool>, ghost chunks: seq<seq<byte>>)
      requires wrappedStream != rawStream
      modifies wrappedStream, rawStream, finishFuture
      ensures f == finishFuture
      ensures var mid := ReadWrappedSpec(old(State()));
        && !f.state.Pending? && f.state == mid.future
        && wrappedStream.written == mid.wrapped.written +
             (if mid.wrapped.closed then [] else FramesOf(Payloads(chunks)) + FrameOf(Disconnect))
        && (forall i :: 0 <= i < |chunks| ==> 1 <= |chunks[i]| <= MAX_CHUNK)
        && (mid.wrapped.closed || mid.raw.closed ==> chunks == [])
        && (!mid.wrapped.closed && !mid.raw.closed ==> Flatten(chunks) == mid.raw.incoming)
        && wrappedStream.incoming == mid.wrapped.incoming && wrappedStream.closed == mid.wrapped.closed
        && (!mid.wrapped.closed ==> rawStream.incoming == [])
        && rawStream.closed && rawStream.written == mid.raw.written
    {
      ReadWrapped();
      chunks := ReadRaw();
      f := finishFuture;
    }
  }

  // ---------------------------------------------------------------- properties

  lemma {:induction false} FlattenAppend(chunks: seq<seq<byte>>, c: seq<byte>)
    ensures Flatten(chunks + [c]) == Flatten(chunks) + c
    decreases |chunks|
  {
    if chunks == [] {
      assert [] + [c] == [c];
    } else {
      assert (chunks + [c])[1..] == chunks[1..] + [c];
      FlattenAppend(chunks[1..], c);
    }
  }

  lemma {:induction false} PayloadsAppend(chunks: seq<seq<byte>>, c: seq<byte>)
    ensures Payloads(chunks + [c]) == Payloads(chunks) + [Payload(c)]
    decreases |chunks|
  {
    if chunks == [] {
      assert [] + [c] == [c];
    } else {
      assert (chunks + [c])[1..] == chunks[1..] + [c];
      PayloadsAppend(chunks[1..], c);
    }
  }

  /** Bookkeeping for one turn of `read_raw`: one more chunk, one more payload frame. */
  lemma ChunkSent(chunks: seq<seq<byte>>, c: seq<byte>)
    ensures Flatten(chunks + [c]) == Flatten(chunks) + c
    ensures FramesOf(Payloads(chunks + [c])) == FramesOf(Payloads(chunks)) + FrameOf(Payload(c))
  {
    FlattenAppend(chunks, c);
    PayloadsAppend(chunks, c);
    FramesOfAppend(Payloads(chunks), Payload(c));
  }

  /** What `read_raw` has consumed grows by one chunk. */
  lemma ChunkConsumed(chunks: seq<seq<byte>>, c: seq<byte>, rawStart: seq<byte>, rawAfter: seq<byte>)
    requires Flatten(chunks) + (c + rawAfter) == rawStart
    ensures Flatten(chunks + [c]) + rawAfter == rawStart
  {
    FlattenAppend(chunks, c);
  }

  /** What `read_raw` has written grows by one payload frame. */
  lemma ChunkFramed(chunks: seq<seq<byte>>, c: seq<byte>, writtenStart: seq<byte>)
    ensures writtenStart + FramesOf(Payloads(chunks)) + FrameOf(Payload(c)) == writtenStart + FramesOf(Payloads(chunks + [c]))
  {
    ChunkSent(chunks, c);
  }

  /**
   * s reads, one `read` after another, as payload packages carrying ps in order,
   * followed by rest.
   */
  ghost predicate ReadsPayloads(s: seq<byte>, ps: seq<seq<byte>>, rest: seq<byte>)
    decreases |ps|
  {
    if ps == [] then s == rest
    else
      var rd := ReadFrom(s);
      rd.result == Ok(Payload(ps[0])) && ReadsPayloads(rd.rest, ps[1..], rest)
  }

  /** The frames `read_raw` writes read back as the same payloads. */
  lemma {:induction false} PayloadFramesRead(ps: seq<seq<byte>>, rest: seq<byte>)
    ensures ReadsPayloads(FramesOf(Payloads(ps)) + rest, ps, rest)
    decreases |ps|
  {
    if ps == [] {
      assert FramesOf(Payloads(ps)) + rest == rest;
    } else {
      var tail := FramesOf(Payloads(ps[1..])) + rest;
      assert Payloads(ps)[1..] == Payloads(ps[1..]);
      assert FramesOf(Payloads(ps)) + rest == FrameOf(Payload(ps[0])) + tail;
      ReadFrameOf(Payload(ps[0]), tail);
      PayloadFramesRead(ps[1..], rest);
    }
  }

  /**
   * Byte order, wrapped to raw: a run of payload packages reaches the raw stream as the
   * concatenation of their bytes, in order and unmodified, and the loop carries on
   * with whatever follows them.
   */
  lemma {:induction false} PumpPayloads(ps: seq<seq<byte>>, rest: seq<byte>, st: ProxyState)
    requires !st.wrapped.closed && !st.raw.closed
    requires ReadsPayloads(st.wrapped.incoming, ps, rest)
    ensures PumpWrapped(st) == PumpWrapped(st.(wrapped := st.wrapped.(incoming := rest),
                                               raw := st.raw.(written := st.raw.written + Flatten(ps))))
    decreases |ps|
  {
    if ps == [] {
      assert st.raw.written + Flatten(ps) == st.raw.written;
    } else {
      var rd := ReadFrom(st.wrapped.incoming);
      var next := st.(wrapped := st.wrapped.(incoming := rd.rest), raw := st.raw.(written := st.raw.written + ps[0]));
      PumpOnePayload(ps[0], st);
      PumpPayloads(ps[1..], rest, next);
      SameTarget(ps, rest, st, next);
    }
  }

  /** One turn of `read_wrapped` that reads a payload package. */
  lemma PumpOnePayload(p: seq<byte>, st: ProxyState)
    requires !st.wrapped.closed && !st.raw.closed
    requires ReadFrom(st.wrapped.incoming).result == Ok(Payload(p))
    ensures PumpWrapped(st) == PumpWrapped(st.(wrapped := st.wrapped.(incoming := ReadFrom(st.wrapped.incoming).rest),
                                               raw := st.raw.(written := st.raw.written + p)))
  {
  }

  lemma SameTarget(ps: seq<seq<byte>>, rest: seq<byte>, st: ProxyState, next: ProxyState)
    requires ps != []
    requires next.wrapped == st.wrapped.(incoming := next.wrapped.incoming)
    requires next.raw == st.raw.(written := st.raw.written + ps[0]) && next.future == st.future
    ensures next.(wrapped := next.wrapped.(incoming := rest), raw := next.raw.(written := next.raw.written + Flatten(ps[1..])))
         == st.(wrapped := st.wrapped.(incoming := rest), raw := st.raw.(written := st.raw.written + Flatten(ps)))
  {
    assert st.raw.written + ps[0] + Flatten(ps[1..]) == st.raw.written + Flatten(ps);
  }

  /**
   * A disconnect closes the raw stream and resolves a pending future with True, and the
   * loop does not stop there: it goes on reading.
   */
  lemma DisconnectKeepsReading(rest: seq<byte>, st: ProxyState)
    requires !st.wrapped.closed && st.future.Pending?
    requires st.wrapped.incoming == FrameOf(Disconnect) + rest
    ensures PumpWrapped(st) == PumpWrapped(st.(wrapped := st.wrapped.(incoming := rest),
                                               raw := st.raw.(closed := true), future := Resolved(true)))
  {
    ReadFrameOf(Disconnect, rest);
  }

  /**
   * Any other package ends `read_wrapped`: raw is untouched, a disconnect frame goes
   * back on the wrapped stream and a pending future receives the exception.
   */
  lemma UnexpectedPackageStops(m: Message, rest: seq<byte>, st: ProxyState)
    requires !m.Payload? && !m.Disconnect?
    requires !st.wrapped.closed
    requires st.wrapped.incoming == FrameOf(m) + rest
    ensures ReadWrappedSpec(st) == ProxyState(
      Side(rest, st.wrapped.written + FrameOf(Disconnect), false), st.raw, Settle(st.future, UnexpectedPackage))
  {
    ReadFrameOf(m, rest);
  }

  /**
   * The whole wrapped-to-raw direction on what the peer's `read_raw` sends: payload frames
   * then a disconnect. The raw stream receives exactly the concatenated chunks and is
   * closed, the future resolves with True, and the end of input that follows neither
   * writes a second disconnect nor overrides the result.
   */
  lemma {:induction false} RelayDeliversRawBytes(ps: seq<seq<byte>>, wOut: seq<byte>, raw: Side)
    requires !raw.closed
    ensures ReadWrappedSpec(ProxyState(Side(FramesOf(Payloads(ps)) + FrameOf(Disconnect), wOut, false), raw, Pending))
         == ProxyState(Side([], wOut, true), raw.(written := raw.written + Flatten(ps), closed := true), Resolved(true))
  {
    var st := ProxyState(Side(FramesOf(Payloads(ps)) + FrameOf(Disconnect), wOut, false), raw, Pending);
    PayloadFramesRead(ps, FrameOf(Disconnect));
    PumpPayloads(ps, FrameOf(Disconnect), st);
    var afterPayloads := ProxyState(Side(FrameOf(Disconnect), wOut, false), raw.(written := raw.written + Flatten(ps)), Pending);
    assert FrameOf(Disconnect) == FrameOf(Disconnect) + [];
    DisconnectKeepsReading([], afterPayloads);
    var afterDisconnect := ProxyState(Side([], wOut, false), raw.(written := raw.written + Flatten(ps), closed := true), Resolved(true));
    assert PumpWrapped(afterDisconnect) == Stop(afterDisconnect.(wrapped := Side([], wOut, true)), StreamClosed);
  }
}
