/**
 * `package.read` and `package.write` of common/protocol.py: a package travels as its
 * length prefix followed by exactly that many body bytes.
 */
module Framing {
  import opened Wrappers
  import opened Runtime
  import opened LengthCodec
  import opened Messages

  /** The bytes `write` puts on the stream for m. */
  function FrameOf(m: Message): seq<byte>
  {
    LengthPrefix(|Serialize(m)|) + Serialize(m)
  }

  function FramesOf(ms: seq<Message>): seq<byte>
  {
    if ms == [] then [] else FrameOf(ms[0]) + FramesOf(ms[1..])
  }

  /** The body of the first frame in s and what follows it; None when the input ends first. */
  function SplitFrame(s: seq<byte>): Option<Parsed<seq<byte>>>
  {
    var n :- ParseLength(s);
    if n.value <= |n.rest| then Some(Parsed(n.rest[..n.value], n.rest[n.value..])) else None
  }

  /** What one `read` yields and the input left behind it. */
  datatype Read = Read(result: Res<Message>, rest: seq<byte>)

  /**
   * One `read` on an open stream whose unread input is s: end of input (before the
   * prefix terminator or inside the body) is StreamClosed and drains the stream; a body
   * that does not decode is Unpickling.
   */
  function ReadFrom(s: seq<byte>): (r: Read)
    ensures r.result.Ok? ==> |r.rest| < |s|
    ensures r.result == Err(StreamClosed) <==> SplitFrame(s).None?
  {
    match SplitFrame(s)
    case None => Read(Err(StreamClosed), [])
    case Some(f) =>
      match Deserialize(f.value)
      case None => Read(Err(Unpickling), f.rest)
      case Some(m) => Read(Ok(m), f.rest)
  }

  /** One `read` on a stream in the given state. */
  function ReadOn(closed: bool, s: seq<byte>): Read
  {
    if closed then Read(Err(StreamClosed), []) else ReadFrom(s)
  }

  /** Whether a read ends with the stream closed. */
  predicate ClosesStream(r: Read)
  {
    r.result == Err(StreamClosed)
  }

  // ---------------------------------------------------------------- the stream operations

  /** `package.read(stream)`: prefix bytes one at a time up to the terminator, then the body. */
  method ReadPackage(stream: Stream) returns (r: Res<Message>)
    modifies stream
    ensures var rd := ReadOn(old(stream.closed), old(stream.incoming));
      r == rd.result && stream.incoming == rd.rest
    ensures stream.closed == (old(stream.closed) || r == Err(StreamClosed))
    ensures stream.written == old(stream.written)
  {
    ghost var input := stream.incoming;
    var length: seq<byte> := [];
    while true
      invariant input == length + stream.incoming
      invariant forall i :: 0 <= i < |length| ==> !IsTerminator(length[i])
      invariant stream.closed == old(stream.closed)
      invariant stream.written == old(stream.written)
      decreases |stream.incoming|
    {
      var b := stream.ReadBytes(1);
      if b.Err? {
        assert !old(stream.closed) ==> SplitFrame(input).None? by {
          if !old(stream.closed) {
            NoTerminator(input);
          }
        }
        return Err(b.error);
      }
      assert b.value == [input[|length|]];
      assert input == (length + b.value) + stream.incoming;
      length := length + [b.value[0]];
      if IsTerminator(b.value[0]) {
        break;
      }
    }
    ghost var afterPrefix := stream.incoming;
    PrefixThenRest(length, afterPrefix);
    assert !old(stream.closed);
    assert ParseLength(input) == Some(Parsed(PrefixValue(length), afterPrefix));
    var n := DecodeLength(length);
    var body := stream.ReadBytes(n.value);
    if body.Err? {
      return Err(body.error);
    }
    var m := Deserialize(body.value);
    if m.None? {
      return Err(Unpickling);
    }
    return Ok(m.value);
  }

  lemma NoTerminator(s: seq<byte>)
    requires forall i :: 0 <= i < |s| ==> !IsTerminator(s[i])
    ensures SplitFrame(s).None?
  {
  }

  /** Once the reader has collected a terminated prefix, the frame is decided by what follows it. */
  lemma PrefixThenRest(prefix: seq<byte>, rest: seq<byte>)
    requires |prefix| >= 1 && IsTerminator(prefix[|prefix| - 1])
    requires forall i :: 0 <= i < |prefix| - 1 ==> !IsTerminator(prefix[i])
    ensures ParseLength(prefix + rest) == Some(Parsed(PrefixValue(prefix), rest))
  {
    TerminatorEndAt(prefix, rest);
    assert (prefix + rest)[..|prefix|] == prefix && (prefix + rest)[|prefix|..] == rest;
  }

  /** `package.write(stream)`: the length prefix, then the body; refused on a closed stream. */
  method WritePackage(stream: Stream, m: Message) returns (r: Status)
    modifies stream
    ensures stream.incoming == old(stream.incoming) && stream.closed == old(stream.closed)
    ensures if old(stream.closed) then r == Fail(StreamClosed) && stream.written == old(stream.written)
      else r == Pass && stream.written == old(stream.written) + FrameOf(m)
  {
    var b := Serialize(m);
    var length := EncodeLength(|b|);
    r := stream.Write(length);
    if r.Pass? {
      r := stream.Write(b);
    }
  }

  // ---------------------------------------------------------------- properties

  /** A frame followed by anything splits into exactly its body and that remainder. */
  lemma {:induction false} SplitFrameOf(body: seq<byte>, rest: seq<byte>)
    ensures SplitFrame(LengthPrefix(|body|) + body + rest) == Some(Parsed(body, rest))
  {
    assert LengthPrefix(|body|) + body + rest == LengthPrefix(|body|) + (body + rest);
    ParseLengthPrefix(|body|, body + rest);
    assert (body + rest)[..|body|] == body && (body + rest)[|body|..] == rest;
  }

  /**
   * Frame round trip: reading from what `write` produced, followed by anything, yields
   * the package written and consumes exactly its frame.
   */
  lemma ReadFrameOf(m: Message, rest: seq<byte>)
    ensures ReadFrom(FrameOf(m) + rest) == Read(Ok(m), rest)
  {
    SplitFrameOf(Serialize(m), rest);
    DeserializeSerialize(m);
  }

  lemma {:induction false} FramesOfAppend(ms: seq<Message>, m: Message)
    ensures FramesOf(ms + [m]) == FramesOf(ms) + FrameOf(m)
  {
    if ms == [] {
      assert [] + [m] == [m];
    } else {
      assert (ms + [m])[1..] == ms[1..] + [m];
      FramesOfAppend(ms[1..], m);
    }
  }
}
