/**
 * The client and the broker against each other: what one side writes is read by the
 * other through the same framing, and each side reacts as the other expects.
 */
module EndToEnd {
  import opened Wrappers
  import opened Runtime
  import opened Messages
  import opened Framing
  import opened Relay
  import opened Broker
  import opened Agent

  /**
   * The broker, reading what a client's attempt sent, sees an acceptable hello: it
   * either consumes the client's entry or declines, and never rejects the version.
   */
  lemma BrokerAnswersClientHello(table: Table, name: string, input: seq<byte>, rest: seq<byte>,
                                 listen: Status, called: bool, relay: RelayEnd)
    ensures var sent := AttemptOn(name, Side(input, [], false)).side.written;
      var hs := HandshakeSpec(table, ReadOn(false, sent + rest).result, listen, called, relay);
      if name in table then hs == Hit(table, name, listen, called, relay)
      else hs == Handshake(table, [NotInterested], Declined)
  {
    HelloSentFirst(name, input, rest);
  }

  /**
   * A hit with a caller: the client reading the broker's replies starts a tunnel for
   * the entry's client port, and the tunnel then reads `connect`, so with a local
   * service and a relay that ends normally the tunnel finishes with `disconnect`.
   */
  lemma {:induction false} HitReachesTunnel(table: Table, name: string, relay: RelayEnd, more: seq<byte>,
                                            local: RelayEnd)
    requires name in table
    requires local.outcome == Pass && !local.closed
    ensures var hs := Hit(table, name, Pass, true, relay);
      var answer := AttemptOn(name, Side(FramesOf(hs.replies) + more, [], false));
      && answer.end == TunnelRequested(table[name].0)
      && TunnelOn(answer.side, Pass, local).status == Pass
  {
    var ct := CreateTunnel(table[name].0);
    var hs := Hit(table, name, Pass, true, relay);
    assert hs.replies == [ct, Connect];
    assert FramesOf(hs.replies) == FrameOf(ct) + FrameOf(Connect) by {
      assert hs.replies[1..] == [Connect];
      assert [Connect][1..] == [];
    }
    assert FramesOf(hs.replies) + more == FrameOf(ct) + (FrameOf(Connect) + more);
    TunnelForCreateTunnel(name, ct.port, FrameOf(Connect) + more);
    ReadFrameOf(Connect, more);
  }

  /** A miss: the client reading `not_interested` closes its stream and starts no tunnel. */
  lemma {:induction false} MissReachesClient(table: Table, name: string, more: seq<byte>)
    requires name !in table
    ensures var hs := HandshakeSpec(table, Ok(NewHello(name)), Pass, true, RelayEnd([], false, Pass));
      AttemptOn(name, Side(FramesOf(hs.replies) + more, [], false)).end == NobodyInterested
  {
    var hs := HandshakeSpec(table, Ok(NewHello(name)), Pass, true, RelayEnd([], false, Pass));
    assert hs.replies == [NotInterested] by {
      MissDeclines(table, name, DEFAULT_VERSION, Pass, true, RelayEnd([], false, Pass));
    }
    assert FramesOf([NotInterested]) + more == FrameOf(NotInterested) + more by {
      assert [NotInterested][1..] == [];
    }
    DeclinedCloses(name, more);
  }

  /** A broker error reaches the client as an unexpected package. */
  lemma {:induction false} ErrorFailsClient(name: string, text: string, more: seq<byte>)
    ensures AttemptOn(name, Side(FramesOf([Error(text)]) + more, [], false)).end == Failed(ClientUnexpected)
  {
    assert FramesOf([Error(text)]) + more == FrameOf(Error(text)) + more by {
      assert [Error(text)][1..] == [];
    }
    ReadFrameOf(Error(text), more);
  }

  /**
   * Byte order across the tunnel: one proxy's `read_raw` takes `input` from its raw
   * stream and frames it onto its wrapped stream; the other proxy's `read_wrapped`,
   * reading exactly those frames, puts the same bytes on its own raw stream and closes
   * it.
   */
  method RawBytesCrossTheTunnel(input: seq<byte>) returns (delivered: seq<byte>, closed: bool)
    ensures delivered == input && closed
  {
    var raw := new Stream(input);
    var wrapped := new Stream([]);
    var sender := new Proxy(wrapped, raw);
    ghost var chunks := sender.ReadRaw();
    assert wrapped.written == FramesOf(Payloads(chunks)) + FrameOf(Disconnect);

    var peerWrapped := new Stream(wrapped.written);
    var peerRaw := new Stream([]);
    var receiver := new Proxy(peerWrapped, peerRaw);
    RelayDeliversRawBytes(chunks, [], peerRaw.View());
    receiver.ReadWrapped();
    delivered, closed := peerRaw.written, peerRaw.closed;
  }
}
