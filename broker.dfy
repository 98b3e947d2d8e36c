/**
 * The broker of server/NATadm_server.py: the table of pending tunnel requests, the
 * handshake that consumes an entry when the named client says hello, the one-shot
 * forward listener, and the line-command interpreter that fills and empties the table.
 */
module Broker {
  import opened Wrappers
  import opened Runtime
  import opened Messages
  import opened Framing
  import opened Relay

  /** `requests_table`: client name to (client port, server port), both as typed on the command line. */
  type Table = map<string, (string, string)>

  // ---------------------------------------------------------------- the handshake

  /**
   * Everything outside the broker that the handshake depends on: whether binding the
   * forward listener succeeded, the first connection to reach it (if any), and the relay.
   */
  datatype Env = Env(listen: Status, caller: Option<Stream>, relay: RelayEnd)

  /** How a run of `Server.handle_stream` ends. */
  datatype Ending =
    | Declined                          // miss: `not_interested` sent, stream closed
    | Rejected(error: Exception)        // something raised; `error` sent when the stream was open
    | AwaitingCaller                    // suspended in `forward.accept()`, stream still open
    | Relayed(epilogue: seq<Message>)   // the relay ran; its failure is reported when possible

  /**
   * The table after the handshake, the packages the handler itself writes before any
   * relay, and how it ends.
   */
  datatype Handshake = Handshake(table: Table, replies: seq<Message>, ending: Ending)

  /** The `except` branch: report `e` unless the stream is already closed. */
  function Report(closed: bool, e: Exception): seq<Message>
  {
    if closed then [] else [Error(Describe(e))]
  }

  /**
   * `Server.handle_stream` after its first `package.read` returned `first`: the hello
   * check, the version check, the lookup and removal of the entry, `create_tunnel`,
   * the accept, `connect`, the relay, and the `except` branch.
   */
  function HandshakeSpec(table: Table, first: Res<Message>, listen: Status, called: bool, relay: RelayEnd): Handshake
  {
    match first
    case Err(e) => Handshake(table, Report(e == StreamClosed, e), Rejected(e))
    case Ok(m) =>
      if !m.Hello? then Handshake(table, Report(false, HelloExpected), Rejected(HelloExpected))
      else if CheckProtocolVersion(m.protocolVersion).Fail? then
        var e := TooNewVersion(m.protocolVersion);
        Handshake(table, Report(false, e), Rejected(e))
      else if m.name !in table then Handshake(table, [NotInterested], Declined)
      else Hit(table, m.name, listen, called, relay)
  }

  /** The handshake once the hello's name is found in the table. */
  function Hit(table: Table, name: string, listen: Status, called: bool, relay: RelayEnd): Handshake
    requires name in table
  {
    var ports := table[name];
    var rest := table - {name};
    if listen.Fail? then Handshake(rest, Report(false, listen.error), Rejected(listen.error))
    else if !called then Handshake(rest, [CreateTunnel(ports.0)], AwaitingCaller)
    else
      Handshake(rest, [CreateTunnel(ports.0), Connect], Relayed(Epilogue(relay)))
  }

  /** The bytes the hit branch writes, package by package. */
  function HitOutput(clientPort: string, env: Env): seq<byte>
  {
    if env.listen.Fail? then FramesOf(Report(false, env.listen.error))
    else if env.caller.None? then FrameOf(CreateTunnel(clientPort))
    else FrameOf(CreateTunnel(clientPort)) + BridgeOutput(env.relay)
  }

  /** The bytes from `connect` on: the package, the relay's bytes, then its reported failure. */
  function BridgeOutput(relay: RelayEnd): seq<byte>
  {
    FrameOf(Connect) + relay.written + FramesOf(Epilogue(relay))
  }

  lemma HitWrites(table: Table, name: string, env: Env)
    requires name in table
    ensures HandshakeOutput(Hit(table, name, env.listen, env.caller.Some?, env.relay), env.relay)
         == HitOutput(table[name].0, env)
  {
    var ct := CreateTunnel(table[name].0);
    if env.listen.Fail? {
      ListenFailedWrites(table, name, env);
    } else if env.caller.None? {
      assert [ct][1..] == [];
      assert FramesOf([ct]) + [] == FrameOf(ct);
    } else {
      BridgeWrites(ct, env.relay);
    }
  }

  lemma ListenFailedWrites(table: Table, name: string, env: Env)
    requires name in table && env.listen.Fail?
    ensures HandshakeOutput(Hit(table, name, env.listen, env.caller.Some?, env.relay), env.relay)
         == FramesOf(Report(false, env.listen.error))
  {
    var replies := Report(false, env.listen.error);
    assert FramesOf(replies) + [] == FramesOf(replies);
  }

  lemma BridgeWrites(ct: Message, relay: RelayEnd)
    ensures FramesOf([ct, Connect]) + (relay.written + FramesOf(Epilogue(relay))) == FrameOf(ct) + BridgeOutput(relay)
  {
    PairWrites(ct);
    var a, b, w, e := FrameOf(ct), FrameOf(Connect), relay.written, FramesOf(Epilogue(relay));
    Associative(a, b, w + e);
    Associative(b, w, e);
  }

  lemma PairWrites(ct: Message)
    ensures FramesOf([ct, Connect]) == FrameOf(ct) + FrameOf(Connect)
  {
    FramesOfAppend([ct], Connect);
    assert [ct] + [Connect] == [ct, Connect];
    assert [ct][1..] == [];
  }

  /** What the handler writes once the relay is over: its exception, if it raised one. */
  function Epilogue(relay: RelayEnd): seq<Message>
  {
    if relay.outcome.Fail? then Report(relay.closed, relay.outcome.error) else []
  }

  /** The bytes the control stream receives during the handshake, relay included. */
  function HandshakeOutput(hs: Handshake, relay: RelayEnd): seq<byte>
  {
    FramesOf(hs.replies) + if hs.ending.Relayed? then relay.written + FramesOf(hs.ending.epilogue) else []
  }

  /** The server that accepts clients' control connections and owns the request table. */
  class Server {
    var requestsTable: Table

    constructor ()
      ensures requestsTable == map[]
    {
      requestsTable := map[];
    }

    /** `Server.handle_stream` on a client's control stream. */
    method HandleStream(stream: Stream, env: Env)
      requires env.caller.Some? ==> env.caller.value != stream
      modifies this, stream
      ensures var hs := HandshakeSpec(old(requestsTable), ReadOn(old(stream.closed), old(stream.incoming)).result,
                                      env.listen, env.caller.Some?, env.relay);
        && requestsTable == hs.table
        && stream.written == old(stream.written) + HandshakeOutput(hs, env.relay)
        && stream.closed == !hs.ending.AwaitingCaller?
        && (!hs.ending.Relayed? ==> stream.incoming == ReadOn(old(stream.closed), old(stream.incoming)).rest)
    {
      var r := ReadPackage(stream);
      if r.Err? {
        Reject(stream, r.error);
      } else if !r.value.Hello? {
        Reject(stream, HelloExpected);
      } else {
        var hello := r.value;
        var check := CheckProtocolVersion(hello.protocolVersion);
        if check.Fail? {
          Reject(stream, check.error);
        } else if hello.name in requestsTable {
          HitWrites(requestsTable, hello.name, env);
          Consume(stream, hello.name, env);
        } else {
          var w := WritePackage(stream, NotInterested);
          stream.Close();
        }
      }
    }

    /**
     * The hit branch: the entry is removed first, then the forward listener is bound,
     * `create_tunnel` is sent, the first caller is accepted, `connect` is sent and the
     * relay runs.
     */
    method Consume(stream: Stream, name: string, env: Env)
      requires name in requestsTable && !stream.closed
      requires env.caller.Some? ==> env.caller.value != stream
      modifies this, stream
      ensures requestsTable == old(requestsTable) - {name}
      ensures stream.written == old(stream.written) + HitOutput(old(requestsTable)[name].0, env)
      ensures stream.closed == !(env.listen.Pass? && env.caller.None?)
      ensures env.caller.None? || env.listen.Fail? ==> stream.incoming == old(stream.incoming)
    {
      var ports := requestsTable[name];
      requestsTable := requestsTable - {name};
      var forward := new ForwardServer();
      // `forward.listen(server_port)`: whether the port can be bound is `env.listen`
      if env.listen.Fail? {
        Reject(stream, env.listen.error);
        return;
      }
      var w := WritePackage(stream, CreateTunnel(ports.0));
      if env.caller.Some? {
        var delivered := forward.HandleStream(env.caller.value);
      }
      var accepted := forward.Accept();
      if accepted.state.Pending? {
        // still suspended in `yield forward.accept()`
        return;
      }
      ghost var before := old(stream.written) + FrameOf(CreateTunnel(ports.0));
      Bridge(stream, env.relay);
      assert before + BridgeOutput(env.relay) == old(stream.written) + (FrameOf(CreateTunnel(ports.0)) + BridgeOutput(env.relay));
    }

    /** `connect` to the client, then the relay, then the handler's `except` and `finally`. */
    method Bridge(stream: Stream, relay: RelayEnd)
      requires !stream.closed
      modifies stream
      ensures stream.written == old(stream.written) + BridgeOutput(relay)
      ensures stream.closed
    {
      var w := WritePackage(stream, Connect);
      w := stream.Write(relay.written);
      ghost var head := FrameOf(Connect) + relay.written;
      Associative(old(stream.written), FrameOf(Connect), relay.written);
      if relay.closed {
        stream.Close();
      }
      if relay.outcome.Fail? {
        Reject(stream, relay.outcome.error);
      } else {
        stream.Close();
      }
      Associative(old(stream.written), head, FramesOf(Epilogue(relay)));
    }
  }

  /**
   * Regrouping stated over opaque sequences: said about the frames directly, it makes
   * the solver unfold every frame in the term.
   */
  lemma Associative(a: seq<byte>, b: seq<byte>, c: seq<byte>)
    ensures a + b + c == a + (b + c)
  {
  }

  /** The `except` and `finally` branches: report the exception if possible, then close. */
  method Reject(stream: Stream, e: Exception)
    modifies stream
    ensures stream.written == old(stream.written) + FramesOf(Report(old(stream.closed), e))
    ensures stream.closed && stream.incoming == old(stream.incoming)
  {
    if !stream.closed {
      var w := WritePackage(stream, Error(Describe(e)));
    }
    stream.Close();
  }

  /**
   * The ephemeral listener opened for one tunnel: the first connection that reaches
   * it resolves the accept future.
   */
  class ForwardServer {
    const acceptFuture: Future<Stream>

    constructor ()
      ensures fresh(acceptFuture) && acceptFuture.state == Pending
    {
      acceptFuture := new Future();
    }

    /** `accept`: the one future every caller of `accept` shares. */
    method Accept() returns (f: Future<Stream>)
      ensures f == acceptFuture
    {
      f := acceptFuture;
    }

    /**
     * `handle_stream`: the first connection resolves the accept future; a later one
     * finds it resolved and raises, leaving the first caller in place.
     */
    method HandleStream(caller: Stream) returns (r: Status)
      modifies acceptFuture
      ensures acceptFuture.state == Admit(old(acceptFuture.state), caller)
      ensures r == (if old(acceptFuture.state).Pending? then Pass else Fail(InvalidState))
    {
      r := acceptFuture.SetResult(caller);
    }
  }

  /** The accept future after one more connection arrives. */
  function Admit(f: FutureState<Stream>, caller: Stream): FutureState<Stream>
  {
    if f.Pending? then Resolved(caller) else f
  }

  // ---------------------------------------------------------------- the control interface

  const GREETING := "NATadm_server"
  const COMMAND_WAITFOR := "WAITFOR"
  const COMMAND_NOWAIT := "NOWAIT"
  const COMMAND_EXIT := "EXIT"
  const COMMAND_KILL := "KILL"
  const PROCESSING_ERROR := "Command processing error"
  const UNKNOWN_COMMAND := "Unknown command"

  /** How a control session ends. */
  datatype SessionEnd =
    | Exited          // EXIT: stream closed, handler returns
    | Killed          // KILL: stream closed, the broker's event loop is stopped
    | InputEnded      // the controller closed its side; nothing more is written
    | CommandFailed   // a command raised (too few tokens); the error line is the last reply

  /** One command's effect: the new table, the reply line, and whether the session stops. */
  datatype Step = Step(table: Table, reply: string, stop: Option<SessionEnd>)

  function AlreadyExists(c: string): string { "Client \"" + c + "\" already exists in requests table" }
  function Added(c: string, p: string, s: string): string
  {
    "Client \"" + c + "\" is added to requests table with port " + p + " forwarding to " + s
  }
  function DoesNotExist(c: string): string { "Client \"" + c + "\" does not exist in requests table" }
  function Removed(c: string): string { "Client \"" + c + "\" is removed from requests table" }

  /** One turn of the command loop on a tokenised line. */
  function Execute(table: Table, command: seq<string>): Step
  {
    if |command| == 0 then Step(table, PROCESSING_ERROR, Some(CommandFailed))
    else if command[0] == COMMAND_WAITFOR then
      if |command| < 4 then Step(table, PROCESSING_ERROR, Some(CommandFailed))
      else
        var c, p, s := command[1], command[2], command[3];
        if c in table then Step(table, AlreadyExists(c), None)
        else Step(table[c := (p, s)], Added(c, p, s), None)
    else if command[0] == COMMAND_NOWAIT then
      if |command| < 2 then Step(table, PROCESSING_ERROR, Some(CommandFailed))
      else
        var c := command[1];
        if c !in table then Step(table, DoesNotExist(c), None)
        else Step(table - {c}, Removed(c), None)
    else if command[0] == COMMAND_EXIT then Step(table, "Exiting", Some(Exited))
    else if command[0] == COMMAND_KILL then Step(table, "Killing server", Some(Killed))
    else Step(table, UNKNOWN_COMMAND, None)
  }

  /** The table, the reply lines after the greeting, and the ending of a whole session. */
  datatype Session = Session(table: Table, replies: seq<string>, ending: SessionEnd)

  function Run(table: Table, commands: seq<seq<string>>): Session
    decreases |commands|
  {
    if commands == [] then Session(table, [], InputEnded)
    else
      var st := Execute(table, commands[0]);
      if st.stop.Some? then Session(st.table, [st.reply], st.stop.value)
      else
        var later := Run(st.table, commands[1..]);
        Session(later.table, [st.reply] + later.replies, later.ending)
  }

  /** A session that first replied `earlier` and then went on as s. */
  function After(earlier: seq<string>, s: Session): Session
  {
    Session(s.table, earlier + s.replies, s.ending)
  }

  /** One turn of `Run` at position i. */
  lemma RunStep(table: Table, commands: seq<seq<string>>, i: nat)
    requires i < |commands|
    ensures var st := Execute(table, commands[i]);
      Run(table, commands[i..]) ==
        if st.stop.Some? then Session(st.table, [st.reply], st.stop.value)
        else After([st.reply], Run(st.table, commands[i + 1..]))
  {
    assert commands[i..][0] == commands[i];
    assert commands[i..][1..] == commands[i + 1..];
  }

  lemma AfterAfter(a: seq<string>, b: seq<string>, s: Session)
    ensures After(a, After(b, s)) == After(a + b, s)
  {
    assert a + (b + s.replies) == a + b + s.replies;
  }

  /** The control server; it shares the request table of the `Server` it was built with. */
  class ControlServer {
    const server: Server

    constructor (s: Server)
      ensures server == s
    {
      server := s;
    }

    /**
     * `ControlServer.handle_stream` on a controller's lines, already split into tokens.
     * Returns the reply lines in order, greeting first, and how the session ended.
     */
    method HandleStream(commands: seq<seq<string>>) returns (replies: seq<string>, ending: SessionEnd)
      modifies server
      ensures var s := Run(old(server.requestsTable), commands);
        replies == [GREETING] + s.replies && ending == s.ending && server.requestsTable == s.table
    {
      replies := [GREETING];
      var i := 0;
      while true
        invariant 0 <= i <= |commands|
        invariant |replies| >= 1 && replies[0] == GREETING
        invariant Run(old(server.requestsTable), commands) == After(replies[1..], Run(server.requestsTable, commands[i..]))
        decreases |commands| - i
      {
        if i == |commands| {
          ending := InputEnded;
          return;
        }
        var st := Execute(server.requestsTable, commands[i]);
        RunStep(server.requestsTable, commands, i);
        AfterAfter(replies[1..], [st.reply], Run(st.table, commands[i + 1..]));
        assert (replies + [st.reply])[1..] == replies[1..] + [st.reply];
        server.requestsTable := st.table;
        replies := replies + [st.reply];
        if st.stop.Some? {
          ending := st.stop.value;
          return;
        }
        i := i + 1;
      }
    }
  }

  // ---------------------------------------------------------------- properties of the handshake

  /** A first package that is not `hello` is answered with the HELLO-expected error; the table is unchanged. */
  lemma NonHelloRejected(table: Table, m: Message, listen: Status, called: bool, relay: RelayEnd)
    requires !m.Hello?
    ensures HandshakeSpec(table, Ok(m), listen, called, relay)
         == Handshake(table, [Error("Invalid package received, HELLO expected")], Rejected(HelloExpected))
  {
  }

  /**
   * The version check comes before the lookup: a too-new hello leaves the table as it
   * was, even when its name has a pending request.
   */
  lemma VersionCheckedBeforeLookup(table: Table, name: string, version: int, listen: Status, called: bool, relay: RelayEnd)
    requires version > MAX_VERSION
    ensures var hs := HandshakeSpec(table, Ok(Hello(name, version)), listen, called, relay);
      hs.table == table && hs.ending == Rejected(TooNewVersion(version))
      && hs.replies == [Error("Too new protocol version: " + IntToString(version))]
  {
  }

  /** A miss: exactly `not_interested`, table unchanged. */
  lemma MissDeclines(table: Table, name: string, version: int, listen: Status, called: bool, relay: RelayEnd)
    requires version <= MAX_VERSION && name !in table
    ensures HandshakeSpec(table, Ok(Hello(name, version)), listen, called, relay) == Handshake(table, [NotInterested], Declined)
  {
  }

  /**
   * A hit removes the entry whatever happens next (a failed listen, no caller, a failed
   * relay), and once a caller arrives the client is sent `create_tunnel` with the
   * entry's client port and then `connect`.
   */
  lemma HitConsumesEntry(table: Table, name: string, version: int, listen: Status, called: bool, relay: RelayEnd)
    requires version <= MAX_VERSION && name in table
    ensures var hs := HandshakeSpec(table, Ok(Hello(name, version)), listen, called, relay);
      && hs.table == table - {name}
      && (listen.Pass? ==> hs.replies[0] == CreateTunnel(table[name].0))
      && (listen.Pass? && called ==> hs.replies == [CreateTunnel(table[name].0), Connect])
      && (listen.Fail? ==> hs.replies == [Error(Describe(listen.error))] && hs.ending == Rejected(listen.error))
  {
  }

  /**
   * Whatever the handshake sees, the table loses at most one entry and no entry
   * changes: the handshake only ever consumes.
   */
  lemma HandshakeOnlyConsumes(table: Table, first: Res<Message>, listen: Status, called: bool, relay: RelayEnd)
    ensures var hs := HandshakeSpec(table, first, listen, called, relay);
      && hs.table.Keys <= table.Keys
      && (forall k :: k in hs.table ==> hs.table[k] == table[k])
      && (hs.table != table ==> first.Ok? && first.value.Hello? && hs.table == table - {first.value.name})
  {
  }

  /**
   * `create_tunnel` is sent only on a hit: after an acceptable hello whose name was in
   * the table, with the listener bound.
   */
  lemma TunnelOnlyOnHit(table: Table, first: Res<Message>, listen: Status, called: bool, relay: RelayEnd)
    ensures var hs := HandshakeSpec(table, first, listen, called, relay);
      (exists p :: CreateTunnel(p) in hs.replies) <==>
        first.Ok? && first.value.Hello? && first.value.protocolVersion <= MAX_VERSION
        && first.value.name in table && listen.Pass?
  {
    var hs := HandshakeSpec(table, first, listen, called, relay);
    if first.Ok? && first.value.Hello? && first.value.protocolVersion <= MAX_VERSION
       && first.value.name in table && listen.Pass? {
      assert hs.replies[0] == CreateTunnel(table[first.value.name].0);
    }
  }

  /**
   * The handshake on the stream a client opens with `hello(name)` and the default
   * version: the frame is read back whole and the name is looked up.
   */
  lemma {:induction false} HelloFrameLooksUp(table: Table, name: string, rest: seq<byte>, listen: Status, called: bool, relay: RelayEnd)
    ensures var hs := HandshakeSpec(table, ReadOn(false, FrameOf(NewHello(name)) + rest).result, listen, called, relay);
      if name in table then hs == Hit(table, name, listen, called, relay)
      else hs == Handshake(table, [NotInterested], Declined)
  {
    ReadFrameOf(NewHello(name), rest);
  }

  /** The accept future after a run of connections. */
  function AdmitAll(f: FutureState<Stream>, callers: seq<Stream>): FutureState<Stream>
    decreases |callers|
  {
    if callers == [] then f else AdmitAll(Admit(f, callers[0]), callers[1..])
  }

  /** One-shot accept: of any run of connections, the first one is the one accepted. */
  lemma {:induction false} FirstCallerAccepted(callers: seq<Stream>)
    requires callers != []
    ensures AdmitAll(Pending, callers) == Resolved(callers[0])
  {
    ResolvedStays(callers[0], callers[1..]);
  }

  lemma {:induction false} ResolvedStays(caller: Stream, later: seq<Stream>)
    ensures AdmitAll(Resolved(caller), later) == Resolved(caller)
    decreases |later|
  {
    if later != [] {
      ResolvedStays(caller, later[1..]);
    }
  }

  // ---------------------------------------------------------------- properties of the control interface

  /** `WAITFOR c p s` inserts c only when absent; otherwise it says so and changes nothing. */
  lemma WaitforInsertsIfAbsent(table: Table, c: string, p: string, s: string, extra: seq<string>)
    ensures Execute(table, [COMMAND_WAITFOR, c, p, s] + extra)
         == if c in table then Step(table, AlreadyExists(c), None)
            else Step(table[c := (p, s)], Added(c, p, s), None)
  {
    assert ([COMMAND_WAITFOR, c, p, s] + extra)[1] == c;
  }

  /** `NOWAIT c` removes c only when present; otherwise it says so and changes nothing. */
  lemma NowaitRemovesIfPresent(table: Table, c: string, extra: seq<string>)
    ensures Execute(table, [COMMAND_NOWAIT, c] + extra)
         == if c !in table then Step(table, DoesNotExist(c), None)
            else Step(table - {c}, Removed(c), None)
  {
    assert ([COMMAND_NOWAIT, c] + extra)[1] == c;
  }

  /** A line too short for its command raises; the session ends with the processing-error reply. */
  lemma ShortCommandFails(table: Table, command: seq<string>)
    requires |command| == 0 || (command[0] == COMMAND_WAITFOR && |command| < 4) || (command[0] == COMMAND_NOWAIT && |command| < 2)
    ensures Execute(table, command) == Step(table, PROCESSING_ERROR, Some(CommandFailed))
  {
  }

  /**
   * Only EXIT, KILL and a failing command end the session, and they end it at once:
   * whatever follows them is never read.
   */
  lemma {:induction false} StopIgnoresRest(table: Table, commands: seq<seq<string>>, later: seq<seq<string>>)
    requires Run(table, commands).ending != InputEnded
    ensures Run(table, commands + later) == Run(table, commands)
    decreases |commands|
  {
    var st := Execute(table, commands[0]);
    assert (commands + later)[0] == commands[0];
    if st.stop.None? {
      assert (commands + later)[1..] == commands[1..] + later;
      StopIgnoresRest(st.table, commands[1..], later);
    }
  }

  /**
   * One reply line per command read: every command is answered when the input runs
   * out, and a session that stops has answered the command that stopped it.
   */
  lemma {:induction false} OneReplyPerCommand(table: Table, commands: seq<seq<string>>)
    ensures var r := Run(table, commands);
      (r.ending == InputEnded ==> |r.replies| == |commands|)
      && (r.ending != InputEnded ==> 1 <= |r.replies| <= |commands|)
    decreases |commands|
  {
    if commands != [] {
      var st := Execute(table, commands[0]);
      if st.stop.None? {
        OneReplyPerCommand(st.table, commands[1..]);
      }
    }
  }

  /** Whether a command line names client k (the token a WAITFOR or NOWAIT acts on). */
  predicate Names(command: seq<string>, k: string)
  {
    |command| >= 2 && command[1] == k
  }

  /** A session changes the entry of no client that none of its commands names. */
  lemma {:induction false} UnnamedEntryKept(table: Table, commands: seq<seq<string>>, k: string)
    requires forall i :: 0 <= i < |commands| ==> !Names(commands[i], k)
    ensures var t := Run(table, commands).table;
      (k in t <==> k in table) && (k in t ==> t[k] == table[k])
    decreases |commands|
  {
    if commands != [] {
      var st := Execute(table, commands[0]);
      assert !Names(commands[0], k);
      assert (k in st.table <==> k in table) && (k in st.table ==> st.table[k] == table[k]);
      if st.stop.None? {
        assert forall i :: 0 <= i < |commands[1..]| ==> !Names(commands[1..][i], k) by {
          forall i | 0 <= i < |commands[1..]| ensures !Names(commands[1..][i], k) {
            assert commands[1..][i] == commands[i + 1];
          }
        }
        UnnamedEntryKept(st.table, commands[1..], k);
      }
    }
  }

  /**
   * A request is consumed once: after `WAITFOR c p s`, the first hello from c is sent
   * `create_tunnel(p)` and `connect`, and a second hello from c is declined.
   */
  lemma ConsumedOnce(table: Table, c: string, p: string, s: string, relay: RelayEnd)
    requires c !in table
    ensures var t := Run(table, [[COMMAND_WAITFOR, c, p, s]]).table;
      var first := HandshakeSpec(t, Ok(NewHello(c)), Pass, true, relay);
      var second := HandshakeSpec(first.table, Ok(NewHello(c)), Pass, true, relay);
      && first.replies == [CreateTunnel(p), Connect]
      && second == Handshake(table, [NotInterested], Declined)
  {
    var command := [COMMAND_WAITFOR, c, p, s];
    WaitforInsertsIfAbsent(table, c, p, s, []);
    assert command + [] == command;
    assert [command][0] == command && [command][1..] == [];
    assert Run(table[c := (p, s)], []).table == table[c := (p, s)];
    var t := Run(table, [command]).table;
    assert t == table[c := (p, s)];
    assert t - {c} == table;
  }
}
