/**
 * The package classes of common/protocol.py and the body encoding that carries them.
 * The source pickles package objects; here each package is written as a tag byte
 * followed by its fields, each number as a length prefix, so that the body round-trips.
 */
module Messages {
  import opened Wrappers
  import opened Runtime
  import opened LengthCodec

  const DEFAULT_VERSION: int := 1
  const MAX_VERSION: int := 1

  /** The seven package classes; ports travel as the strings the broker was given. */
  datatype Message =
    | Hello(name: string, protocolVersion: int)
    | NotInterested
    | CreateTunnel(port: string)
    | Connect
    | Disconnect
    | Payload(payload: seq<byte>)
    | Error(message: string)

  /** `hello(name)`: the version defaults to DEFAULT_VERSION. */
  function NewHello(name: string): (m: Message)
    ensures m.Hello? && m.name == name && CheckProtocolVersion(m.protocolVersion) == Pass
  {
    Hello(name, DEFAULT_VERSION)
  }

  /** `hello.check_protocol_version`: raises exactly when the version is newer than supported. */
  function CheckProtocolVersion(version: int): (r: Status)
    ensures r == Pass <==> version <= MAX_VERSION
    ensures r.Fail? ==> r.error == TooNewVersion(version)
  {
    if version > MAX_VERSION then Fail(TooNewVersion(version)) else Pass
  }

  // ---------------------------------------------------------------- body encoding

  const TAG_HELLO: byte := 0
  const TAG_NOT_INTERESTED: byte := 1
  const TAG_CREATE_TUNNEL: byte := 2
  const TAG_CONNECT: byte := 3
  const TAG_DISCONNECT: byte := 4
  const TAG_PAYLOAD: byte := 5
  const TAG_ERROR: byte := 6

  /** Signed integers as naturals: 0, -1, 1, -2, 2, ... become 0, 1, 2, 3, 4, ... */
  function ZigZag(v: int): nat
  {
    if v >= 0 then 2 * v else -2 * v - 1
  }

  function UnZigZag(z: nat): int
  {
    if z % 2 == 0 then z / 2 else -(z + 1) / 2
  }

  predicate IsScalar(n: nat)
  {
    n < 0xD800 || 0xE000 <= n < 0x11_0000
  }

  function CharsField(s: string): seq<byte>
  {
    if s == [] then [] else LengthPrefix(s[0] as int) + CharsField(s[1..])
  }

  function StringField(s: string): seq<byte>
  {
    LengthPrefix(|s|) + CharsField(s)
  }

  function BytesField(b: seq<byte>): seq<byte>
  {
    LengthPrefix(|b|) + b
  }

  function IntField(v: int): seq<byte>
  {
    LengthPrefix(ZigZag(v))
  }

  /** The body written for a package (stands in for `pickle.dumps`). */
  function Serialize(m: Message): seq<byte>
  {
    match m
    case Hello(name, v) => [TAG_HELLO] + StringField(name) + IntField(v)
    case NotInterested => [TAG_NOT_INTERESTED]
    case CreateTunnel(port) => [TAG_CREATE_TUNNEL] + StringField(port)
    case Connect => [TAG_CONNECT]
    case Disconnect => [TAG_DISCONNECT]
    case Payload(p) => [TAG_PAYLOAD] + BytesField(p)
    case Error(text) => [TAG_ERROR] + StringField(text)
  }

  function ParseChars(count: nat, s: seq<byte>): Option<Parsed<string>>
    decreases count
  {
    if count == 0 then Some(Parsed([], s))
    else
      var c :- ParseLength(s);
      if !IsScalar(c.value) then None
      else
        var tail :- ParseChars(count - 1, c.rest);
        Some(Parsed([c.value as char] + tail.value, tail.rest))
  }

  function ParseString(s: seq<byte>): Option<Parsed<string>>
  {
    var n :- ParseLength(s);
    ParseChars(n.value, n.rest)
  }

  function ParseBytes(s: seq<byte>): Option<Parsed<seq<byte>>>
  {
    var n :- ParseLength(s);
    if n.value <= |n.rest| then Some(Parsed(n.rest[..n.value], n.rest[n.value..])) else None
  }

  function ParseInt(s: seq<byte>): Option<Parsed<int>>
  {
    var z :- ParseLength(s);
    Some(Parsed(UnZigZag(z.value), z.rest))
  }

  /** Accept a parse only when it used up the whole body. */
  function Whole<T>(p: Option<Parsed<T>>): Option<T>
  {
    if p.Some? && p.value.rest == [] then Some(p.value.value) else None
  }

  /** The package a body decodes to, or None (stands in for `pickle.loads`). */
  function Deserialize(b: seq<byte>): Option<Message>
  {
    if |b| == 0 then None
    else
      var tag, fields := b[0], b[1..];
      if tag == TAG_HELLO then
        var name :- ParseString(fields);
        var v :- Whole(ParseInt(name.rest));
        Some(Hello(name.value, v))
      else if tag == TAG_NOT_INTERESTED then
        if fields == [] then Some(NotInterested) else None
      else if tag == TAG_CREATE_TUNNEL then
        var port :- Whole(ParseString(fields));
        Some(CreateTunnel(port))
      else if tag == TAG_CONNECT then
        if fields == [] then Some(Connect) else None
      else if tag == TAG_DISCONNECT then
        if fields == [] then Some(Disconnect) else None
      else if tag == TAG_PAYLOAD then
        var p :- Whole(ParseBytes(fields));
        Some(Payload(p))
      else if tag == TAG_ERROR then
        var text :- Whole(ParseString(fields));
        Some(Error(text))
      else None
  }

  // ---------------------------------------------------------------- properties

  lemma UnZigZagZigZag(v: int)
    ensures UnZigZag(ZigZag(v)) == v
  {
  }

  lemma {:induction false} ParseCharsField(s: string, rest: seq<byte>)
    ensures ParseChars(|s|, CharsField(s) + rest) == Some(Parsed(s, rest))
    decreases s
  {
    if s != [] {
      var code := s[0] as int;
      var after := CharsField(s[1..]) + rest;
      assert CharsField(s) + rest == LengthPrefix(code) + after;
      ParseLengthPrefix(code, after);
      assert IsScalar(code);
      ParseCharsField(s[1..], rest);
      assert ParseChars(|s|, LengthPrefix(code) + after)
          == Some(Parsed([code as char] + s[1..], rest));
      assert [code as char] + s[1..] == s;
    } else {
      assert CharsField(s) + rest == rest;
    }
  }

  lemma ParseStringField(s: string, rest: seq<byte>)
    ensures ParseString(StringField(s) + rest) == Some(Parsed(s, rest))
  {
    assert StringField(s) + rest == LengthPrefix(|s|) + (CharsField(s) + rest);
    ParseLengthPrefix(|s|, CharsField(s) + rest);
    ParseCharsField(s, rest);
  }

  lemma ParseBytesField(b: seq<byte>, rest: seq<byte>)
    ensures ParseBytes(BytesField(b) + rest) == Some(Parsed(b, rest))
  {
    assert BytesField(b) + rest == LengthPrefix(|b|) + (b + rest);
    ParseLengthPrefix(|b|, b + rest);
    assert (b + rest)[..|b|] == b && (b + rest)[|b|..] == rest;
  }

  lemma ParseIntField(v: int, rest: seq<byte>)
    ensures ParseInt(IntField(v) + rest) == Some(Parsed(v, rest))
  {
    ParseLengthPrefix(ZigZag(v), rest);
    UnZigZagZigZag(v);
  }

  /** Every field of every package survives the body encoding unchanged. */
  lemma DeserializeSerialize(m: Message)
    ensures Deserialize(Serialize(m)) == Some(m)
  {
    match m
    case Hello(name, v) => HelloRoundTrip(name, v);
    case CreateTunnel(port) => CreateTunnelRoundTrip(port);
    case Payload(p) => PayloadRoundTrip(p);
    case Error(text) => ErrorRoundTrip(text);
    case _ =>
  }

  lemma CreateTunnelRoundTrip(port: string)
    ensures Deserialize(Serialize(CreateTunnel(port))) == Some(CreateTunnel(port))
  {
    ParseStringField(port, []);
    assert Serialize(CreateTunnel(port))[1..] == StringField(port) + [];
  }

  lemma PayloadRoundTrip(p: seq<byte>)
    ensures Deserialize(Serialize(Payload(p))) == Some(Payload(p))
  {
    ParseBytesField(p, []);
    assert Serialize(Payload(p))[1..] == BytesField(p) + [];
  }

  lemma ErrorRoundTrip(text: string)
    ensures Deserialize(Serialize(Error(text))) == Some(Error(text))
  {
    ParseStringField(text, []);
    assert Serialize(Error(text))[1..] == StringField(text) + [];
  }

  lemma HelloRoundTrip(name: string, v: int)
    ensures Deserialize(Serialize(Hello(name, v))) == Some(Hello(name, v))
  {
    var b := Serialize(Hello(name, v));
    assert b[1..] == StringField(name) + IntField(v);
    ParseStringField(name, IntField(v));
    ParseIntField(v, []);
    assert IntField(v) + [] == IntField(v);
  }
}
