/**
 * The client of client/NATadm.py: the connection attempts of `main`, each of which
 * says hello and reacts to the broker's reply, and the `tunnel` task that a
 * `create_tunnel` reply starts.
 */
module Agent {
  import opened Wrappers
  import opened Runtime
  import opened Messages
  import opened Framing
  import opened Relay

  /**
   * The result of `client.connect(...)`: a new stream, given here by what the peer
   * sends on it, or the exception the connect raised.
   */
  datatype Dial = Dialled(input: seq<byte>) | Refused(error: Exception)

  /** How one attempt of the `main` loop ends. */
  datatype AttemptEnd =
    | TunnelRequested(port: string)   // `create_tunnel(port)`: a tunnel task is scheduled, the stream stays open
    | NobodyInterested                // `not_interested`: the stream is closed
    | Failed(error: Exception)        // caught and logged by the loop

  /** The dispatch on the broker's reply. */
  function Reaction(reply: Res<Message>): (end: AttemptEnd)
    ensures end.TunnelRequested? <==> reply.Ok? && reply.value.CreateTunnel?
    ensures end.TunnelRequested? ==> end.port == reply.value.port
    ensures end == NobodyInterested <==> reply == Ok(NotInterested)
    ensures reply.Err? ==> end == Failed(reply.error)
    ensures reply.Ok? && !reply.value.CreateTunnel? && !reply.value.NotInterested? ==> end == Failed(ClientUnexpected)
  {
    match reply
    case Err(e) => Failed(e)
    case Ok(m) =>
      if m.CreateTunnel? then TunnelRequested(m.port)
      else if m.NotInterested? then NobodyInterested
      else Failed(ClientUnexpected)
  }

  /** One attempt on a connected stream: the stream afterwards and how the attempt ended. */
  datatype Attempted = Attempted(side: Side, end: AttemptEnd)

  function AttemptOn(name: string, s: Side): Attempted
  {
    if s.closed then Attempted(s, Failed(StreamClosed))
    else
      var rd := ReadOn(false, s.incoming);
      var side := Side(rd.rest, s.written + FrameOf(NewHello(name)), ClosesStream(rd));
      var end := Reaction(rd.result);
      Attempted(if end == NobodyInterested then side.(closed := true) else side, end)
  }

  /** How the attempt on one dial ends; a new stream starts open with nothing written. */
  function AttemptOutcome(name: string, dial: Dial): AttemptEnd
  {
    if dial.Refused? then Failed(dial.error) else AttemptOn(name, Side(dial.input, [], false)).end
  }

  /**
   * One pass of the `try` block in `main`: connect, say hello, dispatch on the reply.
   * The stream is returned so that a requested tunnel can go on using it.
   */
  method Attempt(name: string, dial: Dial) returns (end: AttemptEnd, stream: Option<Stream>)
    ensures end == AttemptOutcome(name, dial)
    ensures stream.Some? <==> dial.Dialled?
    ensures stream.Some? ==>
      fresh(stream.value) && Attempted(stream.value.View(), end) == AttemptOn(name, Side(dial.input, [], false))
  {
    if dial.Refused? {
      return Failed(dial.error), None;
    }
    var s := new Stream(dial.input);
    stream := Some(s);
    var w := WritePackage(s, NewHello(name));
    var reply := ReadPackage(s);
    end := Reaction(reply);
    if end == NobodyInterested {
      s.Close();
    }
  }

  /**
   * The `while True` loop of `main`, over the connections it makes in order. Errors
   * within an attempt are caught; without `--infinite` the loop stops after the first
   * attempt, with it every dial given is attempted (the retry sleep is not modelled).
   */
  method RetryLoop(name: string, infinite: bool, dials: seq<Dial>) returns (ends: seq<AttemptEnd>)
    requires |dials| >= 1
    ensures |ends| == if infinite then |dials| else 1
    ensures forall j :: 0 <= j < |ends| ==> ends[j] == AttemptOutcome(name, dials[j])
  {
    ends := [];
    var i := 0;
    while true
      invariant 0 <= i < |dials| && |ends| == i
      invariant !infinite ==> i == 0
      invariant forall j :: 0 <= j < i ==> ends[j] == AttemptOutcome(name, dials[j])
      decreases |dials| - i
    {
      var end, _ := Attempt(name, dials[i]);
      ends := ends + [end];
      if !infinite || i + 1 == |dials| {
        return;
      }
      i := i + 1;
    }
  }

  /**
   * `tunnel`: the next package must be `connect`; then the local service is dialled,
   * the relay runs, and a `disconnect` frame closes the tunnel. Any exception ends the
   * task with that exception and nothing more is written.
   */
  method Tunnel(stream: Stream, local: Dial, relay: RelayEnd) returns (r: Status)
    modifies stream
    ensures var t := TunnelOn(old(stream.View()), DialStatus(local), relay);
      stream.View() == t.side && r == t.status
  {
    var reply := ReadPackage(stream);
    if reply.Err? {
      return Fail(reply.error);
    }
    if !reply.value.Connect? {
      return Fail(ClientUnexpected);
    }
    if local.Refused? {
      return Fail(local.error);
    }
    var w := stream.Write(relay.written);
    if relay.closed {
      stream.Close();
    }
    if relay.outcome.Fail? {
      return Fail(relay.outcome.error);
    }
    r := WritePackage(stream, Disconnect);
  }

  /** The control stream after a tunnel task, and how it ended. */
  datatype Tunnelled = Tunnelled(side: Side, status: Status)

  function DialStatus(local: Dial): Status
  {
    if local.Refused? then Fail(local.error) else Pass
  }

  /**
   * The tunnel task on control stream s, given whether the local service answered and
   * what the relay did. The relay's own reads from s are not part of this model.
   */
  function TunnelOn(s: Side, dialled: Status, relay: RelayEnd): Tunnelled
  {
    var rd := ReadOn(s.closed, s.incoming);
    var after := Side(rd.rest, s.written, s.closed || ClosesStream(rd));
    match rd.result
    case Err(e) => Tunnelled(after, Fail(e))
    case Ok(m) =>
      if !m.Connect? then Tunnelled(after, Fail(ClientUnexpected))
      else if dialled.Fail? then Tunnelled(after, dialled)
      else
        var relayed := Side(after.incoming, after.written + relay.written, relay.closed);
        if relay.outcome.Fail? then Tunnelled(relayed, relay.outcome)
        else if relay.closed then Tunnelled(relayed, Fail(StreamClosed))
        else Tunnelled(relayed.(written := relayed.written + FrameOf(Disconnect)), Pass)
  }

  /**
   * `tunnel` as client/NATadm.py writes it: once the local service answers, the proxy's
   * label is formatted from `package.original_client_address`, a field the broker's
   * `connect` package does not have, so `tunnel` raises there. No proxy runs and nothing
   * more is written to the control stream.
   */
  function TunnelOnAsWritten(s: Side, dialled: Status): (t: Tunnelled)
    ensures t.status.Fail? && t.side.written == s.written
  {
    var rd := ReadOn(s.closed, s.incoming);
    var after := Side(rd.rest, s.written, s.closed || ClosesStream(rd));
    match rd.result
    case Err(e) => Tunnelled(after, Fail(e))
    case Ok(m) =>
      if !m.Connect? then Tunnelled(after, Fail(ClientUnexpected))
      else if dialled.Fail? then Tunnelled(after, dialled)
      else Tunnelled(after, Fail(MissingAttribute("original_client_address")))
  }

  // ---------------------------------------------------------------- properties

  /**
   * The discrepancy: on a `connect` from the broker and a local service that answers,
   * the tunnel as written fails with the missing attribute, while the intended tunnel
   * relays and ends with `disconnect`.
   */
  lemma {:induction false} ConnectWithoutAddress(rest: seq<byte>)
    ensures var s := Side(FrameOf(Connect) + rest, [], false);
      && TunnelOnAsWritten(s, Pass).status == Fail(MissingAttribute("original_client_address"))
      && TunnelOn(s, Pass, RelayEnd([], false, Pass)) == Tunnelled(Side(rest, FrameOf(Disconnect), false), Pass)
  {
    ReadFrameOf(Connect, rest);
    assert [] + [] + FrameOf(Disconnect) == FrameOf(Disconnect);
  }

  /**
   * The first thing a new connection carries is `hello(name)` at the default version,
   * and the broker reads it back whole, whatever the client then receives.
   */
  lemma HelloSentFirst(name: string, input: seq<byte>, rest: seq<byte>)
    ensures var sent := AttemptOn(name, Side(input, [], false)).side.written;
      ReadFrom(sent + rest) == Read(Ok(Hello(name, DEFAULT_VERSION)), rest)
  {
    assert AttemptOn(name, Side(input, [], false)).side.written == [] + FrameOf(NewHello(name));
    assert [] + FrameOf(NewHello(name)) == FrameOf(NewHello(name));
    ReadFrameOf(NewHello(name), rest);
  }

  /**
   * `create_tunnel(port)` is the only reply that starts a tunnel, for exactly that port,
   * and it leaves the stream open with the rest of the input for the tunnel to read.
   */
  lemma {:induction false} TunnelForCreateTunnel(name: string, port: string, rest: seq<byte>)
    ensures AttemptOn(name, Side(FrameOf(CreateTunnel(port)) + rest, [], false))
         == Attempted(Side(rest, FrameOf(NewHello(name)), false), TunnelRequested(port))
  {
    ReadFrameOf(CreateTunnel(port), rest);
    assert [] + FrameOf(NewHello(name)) == FrameOf(NewHello(name));
  }

  /** `not_interested` closes the stream and starts no tunnel. */
  lemma {:induction false} DeclinedCloses(name: string, rest: seq<byte>)
    ensures AttemptOn(name, Side(FrameOf(NotInterested) + rest, [], false))
         == Attempted(Side(rest, FrameOf(NewHello(name)), true), NobodyInterested)
  {
    ReadFrameOf(NotInterested, rest);
    assert [] + FrameOf(NewHello(name)) == FrameOf(NewHello(name));
  }

  /**
   * The tunnel goes on only after `connect`: any other package fails the tunnel before
   * the local service is dialled, and the tunnel succeeds exactly when `connect` came,
   * the local service answered, and the relay ended normally with the stream open; then
   * the last thing written is `disconnect`.
   */
  lemma TunnelNeedsConnect(s: Side, dialled: Status, relay: RelayEnd)
    ensures var t := TunnelOn(s, dialled, relay);
      var rd := ReadOn(s.closed, s.incoming);
      && (rd.result.Ok? && !rd.result.value.Connect? ==> t.status == Fail(ClientUnexpected) && t.side.written == s.written)
      && (t.status == Pass <==>
          rd.result == Ok(Connect) && dialled == Pass && relay.outcome == Pass && !relay.closed)
      && (t.status == Pass ==> t.side.written == s.written + relay.written + FrameOf(Disconnect))
  {
  }
}
