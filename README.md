# NATadm in Dafny

NATadm lets a machine behind NAT offer one of its local TCP ports through a public
broker. The client agent dials the broker over a control connection and says `hello`
with its name. If an administrator has registered a pending request for that name
(`WAITFOR name client_port server_port` on the broker's control interface), the broker:

- removes the request from its table;
- opens a one-shot forward listener on the server port;
- sends `create_tunnel(client_port)`;
- waits for an external caller;
- sends `connect`;
- bridges the caller and the control stream with a proxy.

The client is meant to answer `create_tunnel` by dialling its local port and running
the same proxy. As written, its `tunnel` raises before any proxy runs (see "## Findings");
the model proves the intended tunnel and exhibits the written one. A client nobody
waits for receives `not_interested`.

This project models the core of that system and proves properties of it:

- **`LengthCodec`**: the 7-bit little-endian length prefix of common/protocol.py. The
  last byte of a prefix carries the high bit; `_encode_length` and `_decode_length`
  are modelled as methods with loops.
- **`Messages`**: the seven package classes, the protocol-version check, and a tagged
  byte schema that stands in for pickle, with its round trip proved.
- **`Framing`**: `package.read` and `package.write` on a stream. Reading takes prefix
  bytes one at a time up to the terminator, then the body.
- **`Relay`**: the `Proxy` class of common/proxy.py. Its `read_wrapped` and `read_raw`
  loops, the shared finish future and the disconnect both directions send when they end.
- **`Broker`**:
  - `Server.handle_stream` with its request table;
  - the one-shot `ForwardServer`;
  - the `ControlServer` command interpreter (WAITFOR, NOWAIT, EXIT, KILL).
- **`Agent`**: the client's connection attempts in `main` and its `tunnel` task.
- **`EndToEnd`**: lemmas that put what one side writes into the other side's reader.

`Runtime` supplies the tornado pieces the code relies on:

- a byte stream: reaching the end of input closes it, and a closed stream refuses
  reads and writes with `StreamClosedError`;
- a future that is settled once: the first `set_result` or `set_exception` wins and a
  later one raises (see "## Left out" for this choice).

`Wrappers` supplies Option, Result and Outcome.

## Model

| member | source | states |
|---|---|---|
| LengthCodec.EncodeLength | common/protocol.py:59-73 | The bytes produced are exactly the reference prefix `LengthPrefix(n)`: 7-bit groups, least significant first, with the high bit set on the last byte only. |
| LengthCodec.PrefixShape | common/protocol.py:62-72 | Every encoded prefix is non-empty. Its last byte has the high bit and no earlier byte has it, so the reader's stop rule ends exactly at the prefix's end. |
| LengthCodec.EncodeZero | common/protocol.py:62-73 | Length 0 encodes as the single byte 0x80. |
| LengthCodec.DecodeLength | common/protocol.py:75-85 | An empty list fails with IndexError. A last byte without the high bit fails the assertion. Otherwise the result is the sum of the 7-bit groups, most significant group last. |
| LengthCodec.DecodeEncode | common/protocol.py:117-124 | Decoding the encoding of any n gives n back, for all n and not just 1 to 2^24. |
| LengthCodec.TerminatorEnd | common/protocol.py:41-45 | The prefix reader stops at the first byte with the high bit. When no byte has it, no stop is found. |
| LengthCodec.TerminatorEndAt | common/protocol.py:41-45 | After a well-formed prefix, whatever follows does not move the stop point. |
| LengthCodec.ParseLengthPrefix | common/protocol.py:40-46 | Reading a length from an encoded prefix followed by anything yields that length and leaves exactly what followed. |
| Messages.NewHello | common/protocol.py:87-90 | `hello(name)` carries the name and the default version, which passes the version check. |
| Messages.CheckProtocolVersion | common/protocol.py:92-94 | The check passes exactly when the version is at most MAX_VERSION (1). Otherwise it fails with the too-new-version error naming that version. |
| Messages.DeserializeSerialize | common/protocol.py:49-53 | Decoding the encoded body of any package gives the same package back. This is the round trip pickle provides. |
| Messages.UnZigZagZigZag | common/protocol.py:49-53 | The signed-integer field encoding round-trips every integer, negative versions included. |
| Messages.ParseStringField | common/protocol.py:49-53 | A string field read back from its encoding gives the string and the remaining input. |
| Messages.ParseBytesField | common/protocol.py:49-53 | A byte-string field read back from its encoding gives the bytes and the remaining input. |
| Framing.ReadFrom | common/protocol.py:37-49 | A successful read consumes input. A read fails with StreamClosed exactly when the input ends before a whole frame. |
| Framing.ReadPackage | common/protocol.py:37-49 | Reading a package returns the reference read of the stream's input and leaves the input after the frame. End of input closes the stream. Nothing is written. |
| Framing.WritePackage | common/protocol.py:51-57 | Writing to an open stream appends the length prefix and then the body. A closed stream refuses with StreamClosed and is left unchanged. |
| Framing.ReadFrameOf | common/protocol.py:37-57 | Frame round trip: reading what `write` put on the stream, followed by anything, yields that package and consumes exactly its frame. |
| Framing.FramesOfAppend | common/protocol.py:51-57 | Consecutive writes lay their frames end to end. |
| Relay.Proxy.constructor | common/proxy.py:27-30 | The proxy keeps both streams and starts with a fresh pending finish future. |
| Relay.Proxy.ReadWrapped | common/proxy.py:32-53 | The wrapped-to-raw direction leaves the streams and the future exactly as the reference `ReadWrappedSpec` of the starting state says. Payloads go to the raw stream, a disconnect closes the raw stream and resolves the future, anything else raises. A disconnect frame is then sent and the exception is handed to the future. |
| Relay.Proxy.ReadRaw | common/proxy.py:55-70 | Every chunk holds 1 to 2^24 bytes. When both streams are open, the chunks' concatenation is the whole raw input. When either starts closed there are no chunks: a closed raw stream's input is dropped, and on a closed wrapped stream the first chunk read is lost with the failed write. The wrapped stream receives one payload frame per chunk, in order, then one disconnect (nothing when it was closed). When the wrapped stream was open, the raw input is used up. The raw stream ends closed and the future settles with StreamClosed if it was pending. |
| Relay.Proxy.PumpRaw | common/proxy.py:58-62 | The `read_raw` loop sends every raw chunk as a payload frame, in order, until the raw input ends. |
| Relay.Proxy.Finish | common/proxy.py:48-53 | The handler writes a disconnect frame and then passes the loop's exception to the future. When the write fails, the future gets the write's exception instead. |
| Relay.Proxy.Run | common/proxy.py:72-78 | Both directions run (wrapped to raw first) and the caller gets the finish future. That future is settled by the first direction, as `ReadWrappedSpec` says, and the wrapped stream's remaining input and closed flag are those `ReadWrappedSpec` gives. Raw input is forwarded only when both streams are still open after the wrapped direction (it stopped on an error such as an unexpected package before any disconnect): the wrapped stream then carries the remaining raw input as chunks of 1 to 2^24 bytes in payload frames and a last disconnect, using that input up. If a disconnect already closed the raw stream, the rest of its input is dropped and only the disconnect is sent. On a normal end (a disconnect, then end of input) the wrapped stream is closed and no raw byte is forwarded. The raw stream ends closed. |
| Relay.PayloadFramesRead | common/proxy.py:59-62 | The frames `read_raw` writes read back, one `read` after another, as the same payloads in order. |
| Relay.PumpPayloads | common/proxy.py:36-41 | Payload packages reach the raw stream as the concatenation of their bytes, in order and unmodified, and the loop then goes on. |
| Relay.DisconnectKeepsReading | common/proxy.py:42-45 | A disconnect closes the raw stream and resolves a pending future with True. The loop keeps reading after it. |
| Relay.UnexpectedPackageStops | common/proxy.py:46-53 | Any other package ends `read_wrapped` with the raw stream untouched and one disconnect frame sent back. A pending future gets the exception. |
| Relay.RelayDeliversRawBytes | common/proxy.py:33-53 | Fed what a peer's `read_raw` sends, `read_wrapped` delivers exactly the concatenated chunks and closes the raw stream. The future resolves with True, and the end of input after it writes no second disconnect. |
| Broker.Server.constructor | server/NATadm_server.py:57-59 | The request table starts empty. |
| Broker.Server.HandleStream | server/NATadm_server.py:61-96 | The table, the bytes written and the closed flag are those of the reference handshake `HandshakeSpec` on the first package read. The stream stays open only while waiting for a caller. |
| Broker.Server.Consume | server/NATadm_server.py:72-85 | On a hit the entry is removed first. `create_tunnel` with the entry's client port is written. Only once the accept future holds a caller do `connect` and the relay's bytes follow. A failed listen is reported as an error. |
| Broker.Server.Bridge | server/NATadm_server.py:82-96 | After `connect`, the relay's bytes follow. A relay failure is reported if the stream is open, and the stream ends closed. |
| Broker.Reject | server/NATadm_server.py:90-96 | The `except`/`finally` pair sends `error(str(e))` only when the stream is still open, then closes the stream. |
| Broker.ForwardServer.constructor | server/NATadm_server.py:99-101 | A new forward server has an unresolved accept future. |
| Broker.ForwardServer.Accept | server/NATadm_server.py:103-104 | `accept` returns the same future that `handle_stream` resolves. The handshake goes on to `connect` exactly when that future holds a caller. |
| Broker.ForwardServer.HandleStream | server/NATadm_server.py:106-109 | An arriving connection resolves the accept future if it is pending. Otherwise it raises and leaves the first caller in place. |
| Broker.FirstCallerAccepted | server/NATadm_server.py:103-109 | Of any run of incoming connections, the first one is the one accepted. |
| Broker.ControlServer.constructor | server/NATadm_server.py:112-114 | The control server keeps the `Server` it is given, so its commands edit the same request table the handshake consumes. |
| Broker.ControlServer.HandleStream | server/NATadm_server.py:121-166 | The replies are the greeting followed by one line per command, as the reference `Run` of the command list gives them. The final table and how the session ends agree with `Run`. |
| Broker.NonHelloRejected | server/NATadm_server.py:65-67 | A first package other than `hello` is answered with the HELLO-expected error, and the table is unchanged. |
| Broker.VersionCheckedBeforeLookup | server/NATadm_server.py:69-74 | A too-new hello is rejected with the version error before any lookup. A pending entry for that name survives. |
| Broker.MissDeclines | server/NATadm_server.py:87-89 | A hello for a name without an entry gets exactly `not_interested`, and the table is unchanged. |
| Broker.HitConsumesEntry | server/NATadm_server.py:72-82 | A hit removes the entry whatever happens next. With the listener bound, `create_tunnel(client_port)` comes first, and `connect` follows once a caller arrives. A failed listen is reported. |
| Broker.HandshakeOnlyConsumes | server/NATadm_server.py:61-96 | A handshake never adds or changes an entry. It removes at most the entry of the hello's name. |
| Broker.TunnelOnlyOnHit | server/NATadm_server.py:66-78 | `create_tunnel` is sent if and only if the first package is an acceptable hello whose name has an entry and the listener was bound. |
| Broker.HelloFrameLooksUp | server/NATadm_server.py:65-74 | On the frame a client's hello produces, the handshake looks up exactly that name. |
| Broker.WaitforInsertsIfAbsent | server/NATadm_server.py:133-141 | `WAITFOR c p s` inserts (p, s) for c only when c is absent. Otherwise it replies that c already exists and changes nothing. |
| Broker.NowaitRemovesIfPresent | server/NATadm_server.py:142-148 | `NOWAIT c` removes c only when present. Otherwise it replies that c does not exist and changes nothing. |
| Broker.ShortCommandFails | server/NATadm_server.py:132-163 | An empty line, or a WAITFOR or NOWAIT with too few tokens, raises. The session ends with the processing-error reply and the table unchanged. |
| Broker.StopIgnoresRest | server/NATadm_server.py:149-163 | A session that stops (EXIT, KILL or a failing command) never reads the commands after the one that stopped it. |
| Broker.OneReplyPerCommand | server/NATadm_server.py:127-163 | Every command read gets exactly one reply line. A session that runs out of input has answered all of them. |
| Broker.UnnamedEntryKept | server/NATadm_server.py:133-148 | A session leaves the entry of any client its commands do not name untouched. |
| Broker.ConsumedOnce | server/NATadm_server.py:72-74 | After `WAITFOR c p s`, the first hello from c gets `create_tunnel(p)` and `connect`, and a second hello from c is declined. |
| Agent.Reaction | client/NATadm.py:106-113 | `create_tunnel` (and only it) starts a tunnel for its port, and `not_interested` (and only it) declines. A failed read keeps its exception, and any other package is unexpected. |
| Agent.Attempt | client/NATadm.py:92-116 | One attempt dials, writes `hello(name)`, reads the reply and reacts. The outcome and the new stream's final state are those of the reference `AttemptOn`. |
| Agent.RetryLoop | client/NATadm.py:91-120 | Without `--infinite` exactly one attempt is made. With it, every connection is attempted in order, each with its own outcome, since errors are caught per attempt. |
| Agent.Tunnel | client/NATadm.py:67-86 | The control stream and result are those of the reference `TunnelOn`. The corrected tunnel needs `connect`, then the local dial, then the relay, and ends by writing `disconnect`. |
| Agent.TunnelOnAsWritten | client/NATadm.py:71-82 | The tunnel as written never succeeds and never writes to the control stream. |
| Agent.ConnectWithoutAddress | client/NATadm.py:82 | On a `connect` and a dial that succeeds, the as-written tunnel fails on the missing attribute, while the corrected one relays and ends with `disconnect`. |
| Agent.HelloSentFirst | client/NATadm.py:104 | The first thing a new connection carries is `hello(name)` at the default version, and it reads back whole. |
| Agent.TunnelForCreateTunnel | client/NATadm.py:107-108 | `create_tunnel(port)` yields a tunnel request for that port and leaves the stream open with the rest of the input. |
| Agent.DeclinedCloses | client/NATadm.py:109-111 | `not_interested` closes the stream and starts no tunnel. |
| Agent.TunnelNeedsConnect | client/NATadm.py:71-86 | Any package other than `connect` fails the tunnel before the dial and writes nothing. The tunnel succeeds exactly when `connect` came, the dial and the relay succeeded, and the stream stayed open, and then it ends with `disconnect`. |
| EndToEnd.BrokerAnswersClientHello | server/NATadm_server.py:65-74 | The broker reads the client's hello and looks up exactly the client's name. |
| EndToEnd.HitReachesTunnel | server/NATadm_server.py:72-85 | The broker's replies on a hit make the client request a tunnel for the entry's client port, and, when the local dial succeeds and the local relay ends normally with the stream open, the (corrected) tunnel then succeeds. |
| EndToEnd.MissReachesClient | server/NATadm_server.py:87-89 | The broker's reply on a miss makes the client decline. |
| EndToEnd.ErrorFailsClient | server/NATadm_server.py:90-93 | An `error` package from the broker is an unexpected package for the client. |
| EndToEnd.RawBytesCrossTheTunnel | common/proxy.py:36-62 | One proxy's `read_raw` frames its raw input onto a wrapped stream, and a second proxy's `read_wrapped` reading exactly those frames puts the same bytes, in order, on its raw stream and closes it. |

## Findings

| source | as written | input that shows it | evidently intended | confidence | as-written member | corrected member |
|---|---|---|---|---|---|---|
| client/NATadm.py:82 | `tunnel` reads `package.original_client_address` from the `connect` package, which the broker builds without any field. It also calls `Proxy` with four arguments where the constructor takes two. Once the local dial succeeds, `tunnel` therefore always raises. No relay runs and no `disconnect` is written. | The broker sends `connect` after `create_tunnel`, and the local port answers. | The proxy runs between the control stream and the local stream, and `tunnel` ends by writing `disconnect`. | high, not executed | Agent.TunnelOnAsWritten, Agent.ConnectWithoutAddress | Agent.Tunnel |

## Left out

- pickle: package bodies use a tagged byte schema with the same round trip. A body that does not decode raises the unpickling error; the pickle byte format itself is not modelled.
- Scheduling: tornado's coroutine scheduling and the interleaving of the two proxy directions are not modelled. Each direction is run to completion on its own against the current state of the streams.
- Relay.Proxy.Run: the two directions are run one after the other, wrapped to raw first, instead of being scheduled side by side on the IOLoop. Orders in which raw bytes are sent before the wrapped stream ends are not covered; in particular, on a normal end of the wrapped direction (a disconnect, then end of input) the wrapped stream is already closed, so `Run` forwards no raw byte at all, where the scheduled proxy would have forwarded the raw bytes that arrived before.
- The relay inside the handshake and the client tunnel is taken as given (`RelayEnd`: the bytes it wrote, whether it closed the stream, its outcome). Its reads from the control stream are not reflected in that stream's remaining input.
- Broker.Server.HandleStream: after a relay, the remaining input of the control stream is not stated, for the reason above.
- External effects: binding the forward port, dialling the broker or a local port, and the external caller's arrival are parameters (`Status`, `Dial`, `Option<Stream>`).
- Broker.ControlServer.HandleStream: lines are given already split into tokens. UTF-8 decoding, `strip` and `shlex.split` (including a line that `shlex` cannot split) are not modelled, nor is reading a line without its newline.
- Broker.ControlServer.HandleStream: the reply lines are given as strings. Their UTF-8 encoding and the trailing newline are not modelled. KILL's stopping of the IOLoop is recorded as the `Killed` ending only.
- The certificate logging of the control server, all `logging` calls, TLS options, configuration parsing and common/utils.py are not part of this model.
- Agent.RetryLoop: the infinite loop is modelled over a finite list of connection attempts. The sleep of `--interval` between attempts is not modelled.
- EndToEnd.HitReachesTunnel: the tunnel task is assumed to run once `main` schedules it. Without `--infinite`, `main` stops the IOLoop right after scheduling it (client/NATadm.py:118-120), so in that mode the scheduled tunnel would never run; the model does not capture this, whatever the mode.
- Runtime.Describe: the texts of library exceptions (unpickling, closed stream, index error, future already resolved) stand in for the library's own messages. The client's `'Unexpected package: '.format(package)` has no placeholder, so the text is constant, as written.
- A forward listener is never stopped by the source. The model keeps no listener after the handshake.
- Broker.ForwardServer: `listen(server_port)` is not modelled as an operation. Whether the port can be bound is the parameter `Env.listen`, so the server port of an entry plays no further part.
- Runtime.Future: a second `set_result` or `set_exception` raises and keeps the first value. That is the contract of the asyncio-based future of tornado 5 and later. Tornado 4's future leaves a second call undefined and overwrites the stored value. The following results rest on this choice: `Relay.RelayDeliversRawBytes` ("nor overrides the result"), the `InvalidState` branch of `Relay.PumpWrapped`, the second `set_exception` in `Relay.Proxy.Finish`, and `Broker.ForwardServer.HandleStream` ("leaves the first caller in place").
- Runtime.Describe: the proxy's `'Unexpected package received: {}'` is given as the constant text without the formatted package.
- Protocol notes where the code is followed: `connect` carries no address, a tunnel port is the string typed on the control interface, and the broker has no permanent forwarding services, only entries added with WAITFOR.
