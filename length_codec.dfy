/**
 * The package length prefix of common/protocol.py. A length is written as base-128
 * groups, least significant first; no byte carries a continuation bit, instead the
 * high bit 0x80 marks the last (most significant) group.
 */
module LengthCodec {
  import opened Wrappers
  import opened Runtime

  const TERMINATOR: byte := 0x80

  predicate IsTerminator(b: byte)
  {
    b >= TERMINATOR
  }

  /** The bytes `_encode_length(n)` returns. */
  function LengthPrefix(n: nat): (r: seq<byte>)
    decreases n
  {
    if n / 128 == 0 then [n % 128 + 128] else [n % 128] + LengthPrefix(n / 128)
  }

  /** Sum of (b_i & 0x7F) * 128^i: what `_decode_length` computes from its list. */
  function PrefixValue(s: seq<byte>): nat
  {
    if s == [] then 0 else s[0] % 128 + 128 * PrefixValue(s[1..])
  }

  /**
   * How many bytes `package.read` collects: up to and including the first byte with
   * the high bit set, or None when no such byte exists.
   */
  function TerminatorEnd(s: seq<byte>): (r: Option<nat>)
    ensures r.Some? ==> 1 <= r.value <= |s| && IsTerminator(s[r.value - 1])
    ensures r.Some? ==> forall i :: 0 <= i < r.value - 1 ==> !IsTerminator(s[i])
    ensures r.None? ==> forall i :: 0 <= i < |s| ==> !IsTerminator(s[i])
  {
    if s == [] then None
    else if IsTerminator(s[0]) then Some(1)
    else match TerminatorEnd(s[1..])
      case None => None
      case Some(k) => Some(k + 1)
  }

  /** A number read off the front of a byte sequence, with what follows it. */
  datatype Parsed<+T> = Parsed(value: T, rest: seq<byte>)

  /** A length prefix read off the front of s, as `package.read` does before the body. */
  function ParseLength(s: seq<byte>): Option<Parsed<nat>>
  {
    match TerminatorEnd(s)
    case None => None
    case Some(k) => Some(Parsed(PrefixValue(s[..k]), s[k..]))
  }

  // ---------------------------------------------------------------- the two loops

  /** `package._encode_length`. */
  method EncodeLength(n: nat) returns (output: seq<byte>)
    ensures output == LengthPrefix(n)
  {
    output := [];
    var length := n;
    while true
      invariant output + LengthPrefix(length) == LengthPrefix(n)
      invariant output != [] ==> length > 0
      decreases length
    {
      var b: byte := length % 128;
      var high := length / 128;
      PrefixGroup(length);
      if high == 0 {
        b := b + 128;
      } else {
        assert output + LengthPrefix(length) == (output + [b]) + LengthPrefix(high);
      }
      length := high;
      output := output + [b];
      if length == 0 {
        break;
      }
    }
  }

  /** One turn of the encoding loop: the low group, then the encoding of the rest. */
  lemma PrefixGroup(n: nat)
    ensures n / 128 == 0 ==> LengthPrefix(n) == [n % 128 + 128]
    ensures n / 128 != 0 ==> LengthPrefix(n) == [n % 128] + LengthPrefix(n / 128) && n / 128 < n
  {
  }

  /**
   * `package._decode_length`: an empty list raises IndexError, a list whose last byte
   * lacks the high bit fails the assertion; otherwise the groups are folded from the
   * last byte to the first.
   */
  method DecodeLength(length: seq<byte>) returns (r: Res<nat>)
    ensures |length| == 0 ==> r == Err(IndexError)
    ensures |length| > 0 && !IsTerminator(length[|length| - 1]) ==> r == Err(AssertionFailed)
    ensures |length| > 0 && IsTerminator(length[|length| - 1]) ==> r == Ok(PrefixValue(length))
  {
    if |length| == 0 {
      return Err(IndexError);
    }
    if !IsTerminator(length[|length| - 1]) {
      return Err(AssertionFailed);
    }
    var output: nat := 0;
    var i := |length|;
    while i > 0
      invariant 0 <= i <= |length|
      invariant output == PrefixValue(length[i..])
    {
      i := i - 1;
      var b: int := length[i];
      if IsTerminator(length[i]) {
        b := b - 128;
      }
      assert length[i..][1..] == length[i + 1..];
      output := output * 128 + b;
    }
    assert length[0..] == length;
    r := Ok(output);
  }

  // ---------------------------------------------------------------- properties

  /**
   * The shape of every prefix `_encode_length` emits: at least one byte, the high bit
   * set on the last byte and clear on every other.
   */
  lemma {:induction false} PrefixShape(n: nat)
    ensures |LengthPrefix(n)| >= 1
    ensures IsTerminator(LengthPrefix(n)[|LengthPrefix(n)| - 1])
    ensures forall i :: 0 <= i < |LengthPrefix(n)| - 1 ==> !IsTerminator(LengthPrefix(n)[i])
    decreases n
  {
    if n / 128 != 0 {
      PrefixShape(n / 128);
    }
  }

  /** `_encode_length(0)` is the single byte 0x80. */
  lemma EncodeZero()
    ensures LengthPrefix(0) == [0x80]
  {
  }

  /** `_decode_length(_encode_length(n)) == n` for every n, not only below 2^24. */
  lemma {:induction false} DecodeEncode(n: nat)
    ensures PrefixValue(LengthPrefix(n)) == n
    decreases n
  {
    if n / 128 != 0 {
      DecodeEncode(n / 128);
      assert ([n % 128] + LengthPrefix(n / 128))[1..] == LengthPrefix(n / 128);
    }
  }

  /**
   * The stop rule of `package.read`: with a well-formed prefix in front, the reader
   * stops exactly at its last byte, whatever follows.
   */
  lemma TerminatorEndAt(prefix: seq<byte>, rest: seq<byte>)
    requires |prefix| >= 1 && IsTerminator(prefix[|prefix| - 1])
    requires forall i :: 0 <= i < |prefix| - 1 ==> !IsTerminator(prefix[i])
    ensures TerminatorEnd(prefix + rest) == Some(|prefix|)
  {
    assert (prefix + rest)[|prefix| - 1] == prefix[|prefix| - 1];
  }

  /** Reading a length off an encoded length followed by anything gives back n and the rest. */
  lemma ParseLengthPrefix(n: nat, rest: seq<byte>)
    ensures ParseLength(LengthPrefix(n) + rest) == Some(Parsed(n, rest))
  {
    var p := LengthPrefix(n);
    PrefixShape(n);
    TerminatorEndAt(p, rest);
    assert (p + rest)[..|p|] == p;
    assert (p + rest)[|p|..] == rest;
    DecodeEncode(n);
  }
}
