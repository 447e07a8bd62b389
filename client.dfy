/**
 * `TabletClient`: the tablet's WebSocket session with the laptop. The transport is abstracted: the
 * outcome of each connect, close and send attempt, each TCP probe and each received message is a
 * parameter, and what the client does to the transport is recorded in order.
 */
module Client {
  import opened Wrappers
  import opened Text
  import opened Commands
  import opened ServerInfoModel
  import opened DataExtractor
  import opened Registry

  /** `System.Net.WebSockets.WebSocketState`; `Unset` stands for the enum member `None`. */
  datatype WebSocketState = Unset | Connecting | Open | CloseSent | CloseReceived | Closed | Aborted

  /** A `CancellationTokenSource`; only whether it has been cancelled matters here. */
  datatype TokenSource = TokenSource(cancelled: bool)

  /** What the client asks of the transport. */
  datatype TransportAction =
    | OpenSocket                      // new ClientWebSocket, then ConnectAsync
    | StartReceiveLoop
    | StartMonitor
    | SendText(command: Command)      // SendAsync of the command's serialized text
    | CloseHandshake(completed: bool) // CloseAsync; `completed` is false when it threw
    | DisposeSocket
    | ReturnBuffer                    // the receive buffer goes back to the pool

  /** What one `ReceiveAsync` call yields. */
  datatype Incoming =
    | CloseMessage                    // a Close frame; the socket is then in state CloseReceived
    | TextMessage(json: Frame)        // a text frame, as the document it parses to
    | ReceiveFault                    // ReceiveAsync threw

  /** Why a received message was dropped (each exception is caught and logged). */
  datatype ProcessError =
    | CommandTypeFailed(commandTypeError: CommandTypeError)
    | DecodeFailed(decodeError: DecodeError)
    | ExtractFailed(extractError: ExtractError)

  /**
   * The handler calls that processing one received document causes, given the registry's catalogue,
   * its server-handler table and what its extractor makes of the server address.
   */
  ghost function Dispatched(commandTypes: map<string, Kind>, handlers: map<Kind, Handler>,
                            identity: Result<ServerInfo, ExtractError>, json: Frame): seq<Invocation>
  {
    match ResolveCommandType(commandTypes, json)
    case Failure(_) => []
    case Success(k) =>
      match FromFrame(k, json.value)
      case Failure(_) => []
      case Success(command) =>
        if command.KindOf() !in handlers then []
        else match identity
          case Failure(_) => []
          case Success(info) => [InvokedWithServer(handlers[command.KindOf()], info, command)]
  }

  /** The handler calls caused by the text messages among the first `n` received messages, in order. */
  ghost function DispatchedAll(commandTypes: map<string, Kind>, handlers: map<Kind, Handler>,
                               identity: Result<ServerInfo, ExtractError>, messages: seq<Incoming>, n: nat)
    : seq<Invocation>
    requires n <= |messages|
  {
    if n == 0 then []
    else
      DispatchedAll(commandTypes, handlers, identity, messages, n - 1) +
      (if messages[n - 1].TextMessage? then Dispatched(commandTypes, handlers, identity, messages[n - 1].json) else [])
  }

  /** Processing message `n` extends the handler calls of the first `n` messages to those of `n + 1`. */
  lemma RecordStep(log: seq<Invocation>, current: seq<Invocation>, commandTypes: map<string, Kind>,
                   handlers: map<Kind, Handler>, identity: Result<ServerInfo, ExtractError>,
                   messages: seq<Incoming>, n: nat)
    requires n < |messages|
    requires current == log + DispatchedAll(commandTypes, handlers, identity, messages, n)
    ensures current +
      (if messages[n].TextMessage? then Dispatched(commandTypes, handlers, identity, messages[n].json) else []) ==
      log + DispatchedAll(commandTypes, handlers, identity, messages, n + 1)
  {
    var step := if messages[n].TextMessage? then Dispatched(commandTypes, handlers, identity, messages[n].json) else [];
    var prefix := DispatchedAll(commandTypes, handlers, identity, messages, n);
    assert (log + prefix) + step == log + (prefix + step);
  }

  /** The length of the leading run of text messages. */
  function TextRun(messages: seq<Incoming>): (n: nat)
    ensures n <= |messages|
    ensures forall j :: 0 <= j < n ==> messages[j].TextMessage?
    ensures n < |messages| ==> !messages[n].TextMessage?
  {
    if messages == [] || !messages[0].TextMessage? then 0 else 1 + TextRun(messages[1..])
  }

  /**
   * How many messages the receive loop takes: none when it does not run; otherwise the text messages
   * up to and including the first one that ends it, or all of them.
   */
  function Consumed(listening: bool, messages: seq<Incoming>): (n: nat)
    ensures n <= |messages|
    ensures !listening ==> n == 0
    ensures listening && TextRun(messages) == |messages| ==> n == |messages|
    ensures listening && TextRun(messages) < |messages| ==> n == TextRun(messages) + 1 && !messages[n - 1].TextMessage?
  {
    if !listening then 0
    else if TextRun(messages) < |messages| then TextRun(messages) + 1
    else |messages|
  }

  /**
   * What `DisconnectServerAsync` does to a socket in the given state: nothing without one; otherwise a
   * close handshake in state Open or CloseReceived only, then disposal.
   */
  function DisconnectActions(socket: Option<WebSocketState>, closeCompletes: bool): (actions: seq<TransportAction>)
    ensures actions == [] <==> socket.None?
    ensures actions != [] ==> actions[|actions| - 1] == DisposeSocket && DisposeSocket !in actions[..|actions| - 1]
    ensures CloseHandshake(closeCompletes) in actions <==> socket == Some(Open) || socket == Some(CloseReceived)
  {
    if socket.None? then []
    else (if socket == Some(Open) || socket == Some(CloseReceived) then [CloseHandshake(closeCompletes)] else []) +
         [DisposeSocket]
  }

  /**
   * The socket state in which the receive loop ends: CloseReceived when the message that ended it was
   * a Close frame, otherwise the state it started in.
   */
  function ExitSocket(socket: Option<WebSocketState>, listening: bool, messages: seq<Incoming>): Option<WebSocketState>
  {
    if listening && TextRun(messages) < |messages| && messages[TextRun(messages)].CloseMessage?
    then Some(CloseReceived)
    else socket
  }

  /** The monitor's per-tick verdict: give up when the socket is not Open or the TCP probe failed. */
  predicate ShouldDisconnect(socket: Option<WebSocketState>, tcpAvailable: bool)
  {
    socket != Some(Open) || !tcpAvailable
  }

  /**
   * Every serialized command except a StandConnectCommand reaches the server handler of its own type
   * unchanged, with the server identity the extractor accepted.
   */
  lemma SerializedCommandDispatched(r: CommandHandlerRegistry, c: Command, info: ServerInfo)
    requires r.Valid() && !c.StandConnectCommand?
    ensures c.KindOf() in r.serverCommandHandlers
    ensures Dispatched(r.commandTypes, r.serverCommandHandlers, Success(info), Some(ToFrame(c))) ==
            [InvokedWithServer(r.serverCommandHandlers[c.KindOf()], info, c)]
  {
    SerializedFrameResolves(r, c);
    FrameRoundTrip(c);
    FullCatalogue();
  }

  /**
   * A serialized StandConnectCommand reaches the StandStateCommand handler as a StandStateCommand:
   * the StandConnectCommand handler is never called and `IsConnect` is lost.
   */
  lemma StandConnectDispatchedAsStandState(r: CommandHandlerRegistry, n: Int32, s: Option<StandState>,
                                           isConnect: bool, info: ServerInfo)
    requires r.Valid()
    ensures StandStateKind in r.serverCommandHandlers
    ensures Dispatched(r.commandTypes, r.serverCommandHandlers, Success(info),
                       Some(ToFrame(StandConnectCommand(n, s, isConnect)))) ==
            [InvokedWithServer(r.serverCommandHandlers[StandStateKind], info, StandStateCommand(n, s))]
  {
    SerializedFrameResolves(r, StandConnectCommand(n, s, isConnect));
    StandConnectDecodedAsStandState(n, s, isConnect);
    FullCatalogue();
  }

  /**
   * A server address the extractor rejects drops every command, even though only the default no-op
   * handlers are registered; the default empty `ServerAddress` is rejected in both modes.
   */
  lemma RejectedServerNameDropsEverything(commandTypes: map<string, Kind>, handlers: map<Kind, Handler>,
                                          skipValidationForTesting: bool, error: ExtractError, json: Frame)
    ensures Dispatched(commandTypes, handlers, Failure(error), json) == []
    ensures Dispatched(commandTypes, handlers, ExtractData(skipValidationForTesting, ""), json) == []
  {
  }

  /** A document that is not JSON, lacks the discriminator or names an unknown type dispatches nothing. */
  lemma MalformedDocumentDispatchesNothing(commandTypes: map<string, Kind>, handlers: map<Kind, Handler>,
                                           identity: Result<ServerInfo, ExtractError>, json: Frame)
    requires ResolveCommandType(commandTypes, json).Failure?
    ensures Dispatched(commandTypes, handlers, identity, json) == []
  {
  }

  class TabletClient {
    var webSocket: Option<WebSocketState>
    var connectionTokenSource: Option<TokenSource>
    var disposed: bool
    const registry: CommandHandlerRegistry
    /** `LaptopServerOptions.ServerAddress`, also the server name handed to the registry. */
    const serverAddress: string
    const httpPort: nat
    /** What the registry's extractor makes of `serverAddress`; it never changes. */
    ghost const identity: Result<ServerInfo, ExtractError>
    /** Every `ConnectionStatusChanged` value raised so far. */
    ghost var statusChanges: seq<bool>
    /** Every transport action so far. */
    ghost var transport: seq<TransportAction>

    /** A live socket always comes with the live, uncancelled token source of its connection. */
    ghost predicate Valid()
      reads this
    {
      webSocket.Some? ==> connectionTokenSource == Some(TokenSource(false))
    }

    /** The recorded identity is the extractor's verdict on the server address. */
    ghost predicate Identified()
    {
      identity == ExtractData(registry.skipValidationForTesting, serverAddress)
    }

    /** Whether the loops of the current connection may go on. */
    predicate TokenActive()
      reads this
    {
      connectionTokenSource.Some? && !connectionTokenSource.value.cancelled
    }

    constructor (serverAddress: string, httpPort: nat, registry: CommandHandlerRegistry)
      ensures Valid()
      ensures webSocket == None && connectionTokenSource == None && !disposed
      ensures this.serverAddress == serverAddress && this.httpPort == httpPort && this.registry == registry
      ensures statusChanges == [] && transport == []
      ensures identity == ExtractData(registry.skipValidationForTesting, serverAddress)
    {
      identity := ExtractData(registry.skipValidationForTesting, serverAddress);
      this.serverAddress := serverAddress;
      this.httpPort := httpPort;
      this.registry := registry;
      webSocket, connectionTokenSource, disposed := None, None, false;
      statusChanges, transport := [], [];
    }

    /**
     * `ConnectToServerAsync`: nothing when already Open. Otherwise a new socket and token source replace
     * the old ones (the old socket is neither closed nor disposed); a failed or timed-out connect disposes
     * the new socket and clears the field without raising an event; a successful one raises `true` once
     * and starts the receive loop and the monitor.
     */
    method ConnectToServer(connectSucceeds: bool)
      requires Valid()
      modifies this`webSocket, this`connectionTokenSource, this`statusChanges, this`transport
      ensures Valid()
      ensures old(webSocket) == Some(Open) ==>
        webSocket == old(webSocket) && connectionTokenSource == old(connectionTokenSource) &&
        statusChanges == old(statusChanges) && transport == old(transport)
      ensures old(webSocket) != Some(Open) && connectSucceeds ==>
        webSocket == Some(Open) && connectionTokenSource == Some(TokenSource(false)) &&
        statusChanges == old(statusChanges) + [true] &&
        transport == old(transport) + [OpenSocket, StartReceiveLoop, StartMonitor]
      ensures old(webSocket) != Some(Open) && !connectSucceeds ==>
        webSocket == None && connectionTokenSource == Some(TokenSource(false)) &&
        statusChanges == old(statusChanges) &&
        transport == old(transport) + [OpenSocket, DisposeSocket]
    {
      if webSocket == Some(Open) {
        return;
      }
      webSocket := Some(Unset);
      connectionTokenSource := Some(TokenSource(false));
      transport := transport + [OpenSocket];
      if connectSucceeds {
        webSocket := Some(Open);
        statusChanges := statusChanges + [true];
        transport := transport + [StartReceiveLoop, StartMonitor];
      } else {
        transport := transport + [DisposeSocket];
        webSocket := None;
      }
    }

    /**
     * `DisconnectServerAsync`: nothing without a socket. Otherwise cancel the token, send a close
     * handshake only in state Open or CloseReceived, dispose the socket whether or not closing threw,
     * clear both fields and raise `false` exactly once.
     */
    method DisconnectServer(closeCompletes: bool)
      requires Valid()
      modifies this`webSocket, this`connectionTokenSource, this`statusChanges, this`transport
      ensures Valid()
      ensures webSocket == None
      ensures connectionTokenSource == if old(webSocket).Some? then None else old(connectionTokenSource)
      ensures statusChanges == old(statusChanges) + if old(webSocket).Some? then [false] else []
      ensures transport == old(transport) + DisconnectActions(old(webSocket), closeCompletes)
    {
      if webSocket.Some? {
        connectionTokenSource := Some(TokenSource(true));
        if webSocket == Some(Open) || webSocket == Some(CloseReceived) {
          transport := transport + [CloseHandshake(closeCompletes)];
        }
        transport := transport + [DisposeSocket];
        webSocket := None;
        connectionTokenSource := None;
        statusChanges := statusChanges + [false];
      }
    }

    /**
     * `SendCommandToServerAsync`: false without touching the transport unless the socket is Open;
     * otherwise one send, and true only when it completed (any exception gives false).
     */
    method SendCommandToServer(command: Command, sendCompletes: bool) returns (sent: bool)
      requires Valid()
      modifies this`transport
      ensures sent <==> webSocket == Some(Open) && sendCompletes
      ensures webSocket != Some(Open) ==> transport == old(transport)
      ensures webSocket == Some(Open) ==> transport == old(transport) + [SendText(command)]
    {
      if webSocket != Some(Open) {
        return false;
      }
      transport := transport + [SendText(command)];
      sent := sendCompletes;
    }

    /**
     * `ProcessReceivedMessage`: resolve the type, decode the document as that type and dispatch it to
     * the registry with the server address; every failure is caught, nothing escapes.
     */
    method ProcessReceivedMessage(json: Frame) returns (result: Outcome<ProcessError>)
      requires Identified()
      modifies registry`invocations
      ensures registry.invocations == old(registry.invocations) + Dispatched(registry.commandTypes, registry.serverCommandHandlers, identity, json)
      ensures result == Pass <==>
        (Dispatched(registry.commandTypes, registry.serverCommandHandlers, identity, json) != [] ||
         (registry.ExtractCommandType(json).Success? &&
          FromFrame(registry.ExtractCommandType(json).value, json.value).Success? &&
          registry.ExtractCommandType(json).value !in registry.serverCommandHandlers))
    {
      var commandType := registry.ExtractCommandType(json);
      if commandType.Failure? {
        return Fail(CommandTypeFailed(commandType.error));
      }
      var command := FromFrame(commandType.value, json.value);
      if command.Failure? {
        return Fail(DecodeFailed(command.error));
      }
      var outcome := registry.ExecuteCommandForServer(serverAddress, command.value);
      if outcome.Fail? {
        return Fail(ExtractFailed(outcome.error));
      }
      return Pass;
    }

    /**
     * The body of `MonitorConnectionAsync`, one TCP probe per one-second tick: keep looping while the
     * socket is Open and the probe succeeds; on the first tick where either fails, disconnect and stop.
     * `ticks` is the number of ticks run; when the probes run out the monitor is still running.
     */
    method MonitorConnection(probes: seq<bool>, closeCompletes: bool) returns (ticks: nat, disconnected: bool)
      requires Valid()
      modifies this`webSocket, this`connectionTokenSource, this`statusChanges, this`transport
      ensures Valid()
      ensures ticks <= |probes|
      ensures !old(TokenActive()) ==> ticks == 0
      ensures forall j :: 0 <= j < ticks - 1 ==> !ShouldDisconnect(old(webSocket), probes[j])
      ensures disconnected <==> 0 < ticks && ShouldDisconnect(old(webSocket), probes[ticks - 1])
      ensures !disconnected ==>
        (old(TokenActive()) ==> ticks == |probes|) &&
        webSocket == old(webSocket) && connectionTokenSource == old(connectionTokenSource) &&
        statusChanges == old(statusChanges) && transport == old(transport)
      ensures disconnected ==>
        webSocket == None &&
        connectionTokenSource == (if old(webSocket).Some? then None else old(connectionTokenSource)) &&
        statusChanges == old(statusChanges) + (if old(webSocket).Some? then [false] else []) &&
        transport == old(transport) + DisconnectActions(old(webSocket), closeCompletes)
    {
      ticks, disconnected := 0, false;
      while ticks < |probes| && TokenActive()
        invariant ticks <= |probes|
        invariant ticks > 0 ==> old(TokenActive())
        invariant webSocket == old(webSocket) && connectionTokenSource == old(connectionTokenSource)
        invariant statusChanges == old(statusChanges) && transport == old(transport)
        invariant forall j :: 0 <= j < ticks ==> !ShouldDisconnect(webSocket, probes[j])
      {
        var tcpAvailable := probes[ticks];
        ticks := ticks + 1;
        if ShouldDisconnect(webSocket, tcpAvailable) {
          DisconnectServer(closeCompletes);
          disconnected := true;
          return;
        }
      }
    }

    /** Whether the receive loop runs at all: the socket is Open and the token live. */
    predicate Listening()
      reads this
    {
      webSocket == Some(Open) && TokenActive()
    }

    /**
     * The receive loop started by `StartListeningForMessages`: receive until the loop ends, then, in
     * its `finally`, return the buffer to the pool and disconnect. When the messages run out the loop
     * is still waiting and none of that has happened.
     */
    method ReceiveLoop(messages: seq<Incoming>, closeCompletes: bool) returns (received: nat, exited: bool)
      requires Valid() && Identified()
      modifies this`webSocket, this`connectionTokenSource, this`statusChanges, this`transport, registry`invocations
      ensures Valid()
      ensures received == Consumed(old(Listening()), messages)
      ensures exited <==> !old(Listening()) || TextRun(messages) < |messages|
      ensures registry.invocations ==
        old(registry.invocations) + DispatchedAll(registry.commandTypes, registry.serverCommandHandlers, identity, messages, received)
      ensures exited ==>
        webSocket == None &&
        connectionTokenSource == (if old(webSocket).Some? then None else old(connectionTokenSource)) &&
        statusChanges == old(statusChanges) + (if old(webSocket).Some? then [false] else []) &&
        transport == old(transport) + [ReturnBuffer] +
          DisconnectActions(ExitSocket(old(webSocket), old(Listening()), messages), closeCompletes)
      ensures !exited ==>
        webSocket == old(webSocket) && statusChanges == old(statusChanges) && transport == old(transport)
    {
      received, exited := ReceiveMessages(messages);
      if exited {
        ghost var before := transport;
        transport := transport + [ReturnBuffer];
        DisconnectServer(closeCompletes);
        assert transport[|before|] == ReturnBuffer;
      }
    }

    /**
     * The `while` loop of the receive loop: go on while the socket is Open and the token is live; every
     * message received is passed to `Receive`, and the loop stops after the first one that is not text.
     */
    method ReceiveMessages(messages: seq<Incoming>) returns (received: nat, stopped: bool)
      requires Valid() && Identified()
      modifies this`webSocket, registry`invocations
      ensures Valid()
      ensures received == Consumed(old(Listening()), messages)
      ensures stopped <==> !old(Listening()) || TextRun(messages) < |messages|
      ensures registry.invocations ==
        old(registry.invocations) + DispatchedAll(registry.commandTypes, registry.serverCommandHandlers, identity, messages, received)
      ensures webSocket == ExitSocket(old(webSocket), old(Listening()), messages)
    {
      // Only `Receive` needs the extractor's verdict, and it is passed on as it stands.
      hide Identified;
      if !Listening() {
        return 0, true;
      }
      ghost var log, catalogue, handlers := registry.invocations, registry.commandTypes, registry.serverCommandHandlers;
      ghost var run := TextRun(messages);
      received := 0;
      while received < |messages|
        invariant received <= run
        invariant webSocket == Some(Open)
        invariant registry.commandTypes == catalogue && registry.serverCommandHandlers == handlers
        invariant registry.invocations == log + DispatchedAll(catalogue, handlers, identity, messages, received)
      {
        ghost var before := registry.invocations;
        var keepGoing := Receive(messages[received]);
        RecordStep(log, before, catalogue, handlers, identity, messages, received);
        if !keepGoing {
          assert run == received;
          return received + 1, true;
        }
        assert received != run;
        received := received + 1;
      }
      assert run == |messages|;
      stopped := false;
    }

    /**
     * One pass of the receive loop's body on an Open socket: a Close frame leaves the socket
     * CloseReceived, which ends the loop at its next test; a text frame is processed; a receive error
     * ends the loop.
     */
    method Receive(message: Incoming) returns (keepGoing: bool)
      requires Valid() && Identified() && webSocket == Some(Open)
      modifies this`webSocket, registry`invocations
      ensures Valid()
      ensures keepGoing <==> message.TextMessage?
      ensures webSocket == if message.CloseMessage? then Some(CloseReceived) else old(webSocket)
      ensures registry.invocations == old(registry.invocations) +
        (if message.TextMessage? then Dispatched(registry.commandTypes, registry.serverCommandHandlers, identity, message.json) else [])
    {
      match message {
        case CloseMessage =>
          webSocket := Some(CloseReceived);
          keepGoing := false;
        case TextMessage(json) =>
          var _ := ProcessReceivedMessage(json);
          keepGoing := true;
        case ReceiveFault =>
          keepGoing := false;
      }
    }

    /** `DisposeAsync`: once only, disconnect and mark the client disposed. */
    method DisposeAsync(closeCompletes: bool)
      requires Valid()
      modifies this`webSocket, this`connectionTokenSource, this`statusChanges, this`transport, this`disposed
      ensures Valid()
      ensures old(disposed) ==>
        disposed && webSocket == old(webSocket) && connectionTokenSource == old(connectionTokenSource) &&
        statusChanges == old(statusChanges) && transport == old(transport)
      ensures !old(disposed) ==>
        disposed && webSocket == None &&
        connectionTokenSource == (if old(webSocket).Some? then None else old(connectionTokenSource)) &&
        statusChanges == old(statusChanges) + (if old(webSocket).Some? then [false] else []) &&
        transport == old(transport) + DisconnectActions(old(webSocket), closeCompletes)
    {
      if disposed {
        return;
      }
      DisconnectServer(closeCompletes);
      disposed := true;
    }
  }

  /** Two disconnects in a row raise `false` once: the second finds no socket. */
  method DisconnectTwiceRaisesOnce(client: TabletClient, first: bool, second: bool)
    requires client.Valid() && client.webSocket.Some?
    modifies client
    ensures client.webSocket == None && client.connectionTokenSource == None
    ensures client.statusChanges == old(client.statusChanges) + [false]
  {
    client.DisconnectServer(first);
    client.DisconnectServer(second);
  }

  /** A monitor tick that finds the probe failing while the socket reports Open still disconnects. */
  method HalfOpenSocketDisconnects(client: TabletClient)
    requires client.Valid() && client.webSocket == Some(Open)
    modifies client
    ensures client.webSocket == None
    ensures client.statusChanges == old(client.statusChanges) + [false]
  {
    var ticks, disconnected := client.MonitorConnection([true, false], true);
    assert disconnected;
  }
}
