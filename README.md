# TwinSocket command channel, modelled in Dafny

TwinSocket links a teacher's laptop and the students' tablets of a relay-protection training stand
over a WebSocket. This project models the tablet side of that link and proves properties of the model.

- **Command payloads.** Six `IWebCommand` classes each advertise a constant `CommandName`
  discriminator, and each is serialized as a JSON object with every public property.
- **`CommandHandlerRegistry`.** It catalogues the command types by class name and keeps two handler
  tables: plain handlers, and handlers that also receive the sending server's identity. It also
  resolves the discriminator of a received document and dispatches each command to its handler.
- **Server naming.** `DataExtractor` turns a server name such as `Stand12` into a `ServerInfo`. The
  record holds the lower-cased name and the trailing number. `ServerNameValidator` checks a name
  against an expected prefix.
- **`TabletClient`.** It connects, disconnects, sends commands, runs the receive loop and runs the
  connection monitor. Each received text is decoded and dispatched through the registry.
- **`NetworkMonitor`.** It calls a disconnect callback when the Wi-Fi link goes down.

## How the system is represented

- **JSON documents.** A JSON document is the map of its root object's properties (`Commands.Frame`).
  A text that does not parse as a JSON object is `None`.
- **Command types.** A command's runtime type is the `Commands.Kind` of the value. The registry's
  dictionaries keyed by `Type` are maps keyed by `Kind`.
- **Handlers and their calls.** A handler delegate is either the empty lambda `NoOp` installed at
  registration or `Registered(id)`. Every call of a handler is appended to the registry's ghost log
  `invocations`.
- **Exceptions.** Each exception is a failure value: `Result` or `Outcome`, with one error
  constructor per exception.
- **The transport.** What `TabletClient` does to its `ClientWebSocket` is appended to a ghost log,
  `transport`. `ConnectionStatusChanged` events are appended to `statusChanges`.
- **Inputs from the environment.** The following are parameters of the operations that observe them:
  - whether a connect, close or send completes;
  - each TCP probe;
  - each received message;
  - each Wi-Fi probe;
  - the SSID.
- **`int.TryParse` and `int.Parse`.** Both use the default `NumberStyles.Integer`. Surrounding white
  space (U+0009–U+000D, U+0020) is trimmed. An optional `+` or `-` follows, then ASCII digits. The
  signed value must fit in 32 bits (`Text.TryParseInt32`).
- **Case handling.** `ToLowerInvariant` and `OrdinalIgnoreCase` are modelled on ASCII letters.

## Model

| member | source | states |
|---|---|---|
| Text.TrimStart | TwinSocket/HttpServices/ServerNaming/Validators/ServerNameValidator.cs:21-25 | the text `int.TryParse` reads is a suffix of its input that does not start with white space, and everything dropped before it is white space |
| Text.TrimEnd | TwinSocket/HttpServices/ServerNaming/Validators/ServerNameValidator.cs:21-25 | ...and a prefix of that which does not end with white space, everything dropped after it being white space |
| Text.TryParseDigits | TwinSocket/HttpServices/ServerNaming/Validators/DataExtractor.cs:34-39 | a run of ASCII digits parses exactly when it is non-empty and its value is at most Int32.MaxValue, and then to that value; the empty run does not parse |
| Text.TryParseInt32 | TwinSocket/HttpServices/ServerNaming/Validators/ServerNameValidator.cs:21-25 | nothing parses as an integer unless it contains a digit, and a text that parses holds only digits, signs and white space |
| Text.TryParsePadded | TwinSocket/HttpServices/ServerNaming/Validators/ServerNameValidator.cs:21-25 | white space, an optional `+` or `-`, a non-empty run of digits and white space parse exactly when the signed value lies in the Int32 range, and then to that signed value |
| Text.ParsedSplit | TwinSocket/HttpServices/ServerNaming/Validators/ServerNameValidator.cs:21-25 | conversely, every text that parses splits into white space, an optional sign, a non-empty digit run and white space, so `TryParsePadded` fixes its value |
| Text.TryParseNegative | TwinSocket/HttpServices/ServerNaming/Validators/ServerNameValidator.cs:21-25 | a minus sign followed by digits parses to the negated value, down to Int32.MinValue |
| Text.LeadingZeroIgnored | TwinSocket/HttpServices/ServerNaming/Validators/DataExtractor.cs:47-58 | a leading zero does not change the value of a digit run |
| Text.DigitsValuePrepend | TwinSocket/HttpServices/ServerNaming/Validators/DataExtractor.cs:47-58 | prepending a digit adds its value times the weight 10^length of the rest (induction) |
| Text.ToLowerInvariant | TwinSocket/HttpServices/ServerNaming/Models/ServerInfo.cs:9-12 | the result has no upper-case letter, equals the input under OrdinalIgnoreCase, and keeps every character that is not an upper-case letter |
| Text.ToLowerUpperAgree | TwinSocket/HttpServices/ServerNaming/Validators/ServerNameValidator.cs:12-19 | two characters are equal under OrdinalIgnoreCase exactly when their lower-case forms are equal |
| Text.ToLowerInvariantIdempotent | TwinSocket/HttpServices/ServerNaming/Models/ServerInfo.cs:9-12 | lower-casing leaves no upper-case letter, and lower-casing twice is lower-casing once |
| Text.LowerCaseUnchanged | TwinSocket/HttpServices/ServerNaming/Models/ServerInfo.cs:9-12 | lower-case text is left unchanged |
| Text.EqualsIgnoreCaseIffSameLower | TwinSocket/HttpServices/ServerNaming/Validators/ServerNameValidator.cs:12-19 | OrdinalIgnoreCase equality holds exactly when the lower-case forms coincide (both directions) |
| ServerInfoModel.NewServerInfo | TwinSocket/HttpServices/ServerNaming/Models/ServerInfo.cs:9-12 | the stored name has no upper-case letter, equals the given name ignoring case, and the stand number is kept |
| ServerInfoModel.CaseVariantsAreEqual | TwinSocket/HttpServices/ServerNaming/Models/ServerInfo.cs:9-12 | names that differ only in letter case build equal records |
| ServerInfoModel.LowerCaseNameKept | TwinSocket/HttpServices/ServerNaming/Models/ServerInfo.cs:9-12 | a lower-case name is stored as given |
| DataExtractor.MaximalDigitSuffixUnique | TwinSocket/HttpServices/ServerNaming/Validators/DataExtractor.cs:41-45 | the maximal trailing digit run can start at one position only |
| DataExtractor.ExtractNumberFromEnd | TwinSocket/HttpServices/ServerNaming/Validators/DataExtractor.cs:41-45 | the result is the input's maximal trailing run of digits: a suffix, all digits, preceded by a non-digit or nothing |
| DataExtractor.ExtractNumberFromEndAt | TwinSocket/HttpServices/ServerNaming/Validators/DataExtractor.cs:41-45 | if the maximal digit run starts at k, the extracted suffix is exactly input[k..] |
| DataExtractor.HasValidSuffix | TwinSocket/HttpServices/ServerNaming/Validators/DataExtractor.cs:34-39 | holds exactly when the name ends in a digit and the value of its trailing digit run is at most Int32.MaxValue |
| DataExtractor.CreateItemFromInput | TwinSocket/HttpServices/ServerNaming/Validators/DataExtractor.cs:47-58 | fails exactly when the trailing digits do not parse as an Int32: with the empty-suffix error exactly when there is no trailing digit, with the overflow error exactly when the run exceeds Int32.MaxValue; on success the name is the lower-cased input and the stand number the value of the trailing digit run |
| DataExtractor.ExtractData | TwinSocket/HttpServices/ServerNaming/Validators/DataExtractor.cs:13-32 | the empty name and only it is rejected as empty; the only other failure is the format error; success stores the lower-cased name; test mode gives stand 12 for any non-empty name |
| DataExtractor.ExtractDataBySuffix | TwinSocket/HttpServices/ServerNaming/Validators/DataExtractor.cs:13-58 | outside test mode the result is decided by the maximal trailing digit run alone: non-empty and at most Int32.MaxValue gives its value as the stand number, otherwise the format error |
| DataExtractor.LeadingZerosIgnored | TwinSocket/HttpServices/ServerNaming/Validators/DataExtractor.cs:47-58 | a zero-padded suffix gives the same stand number as the unpadded one |
| DataExtractor.EarlierDigitsIgnored | TwinSocket/HttpServices/ServerNaming/Validators/DataExtractor.cs:41-45 | digits before the last non-digit play no part in the stand number |
| DataExtractor.NoSuffixRejected | TwinSocket/HttpServices/ServerNaming/Validators/DataExtractor.cs:20-29 | a name not ending in a digit is rejected, except in test mode, where it gets stand 12 |
| DataExtractor.OversizedSuffixRejected | TwinSocket/HttpServices/ServerNaming/Validators/DataExtractor.cs:26-29 | a trailing number above Int32.MaxValue is rejected |
| ServerNameValidator.IsValidServerName | TwinSocket/HttpServices/ServerNaming/Validators/ServerNameValidator.cs:12-19 | test mode accepts everything; otherwise the empty name and a name without the prefix (ignoring case) are rejected, and an accepted name has a digit after the prefix |
| ServerNameValidator.HasValidStandNumber | TwinSocket/HttpServices/ServerNaming/Validators/ServerNameValidator.cs:21-25 | a valid remainder holds a digit after the prefix; a remainder of digits only is valid exactly when it is non-empty and at most Int32.MaxValue |
| ServerNameValidator.ValidIffRemainderParses | TwinSocket/HttpServices/ServerNaming/Validators/ServerNameValidator.cs:12-25 | with the prefix present, a name is valid exactly when the rest parses as an Int32 |
| ServerNameValidator.PrefixCaseIgnored | TwinSocket/HttpServices/ServerNaming/Validators/ServerNameValidator.cs:17 | changing the letter case of the prefix part does not change validity |
| ServerNameValidator.EmptyRemainderRejected | TwinSocket/HttpServices/ServerNaming/Validators/ServerNameValidator.cs:21-25 | the prefix alone is not a valid name |
| ServerNameValidator.ValidNameExtractsItsNumber | TwinSocket/HttpServices/ServerNaming/Validators/ServerNameValidator.cs:12-25 | prefix plus any number of digits up to Int32.MaxValue is valid, and the extractor reads back exactly that number when the prefix does not end in a digit |
| ServerNameValidator.PaddedRemainderAccepted | TwinSocket/HttpServices/ServerNaming/Validators/ServerNameValidator.cs:12-25 | white space around the remainder and a `+` or `-` sign are accepted ("stand 12", "stand+12", "stand12 ") whenever the signed value fits an Int32 |
| ServerNameValidator.TrailingWhiteSpaceValidatedNotExtracted | TwinSocket/HttpServices/ServerNaming/Validators/ServerNameValidator.cs:21-25 | a name with white space after its digits passes the validator, while the extractor (DataExtractor.cs:41-45 stops at the white space) rejects it with the format error |
| ServerNameValidator.SignedRemainderAccepted | TwinSocket/HttpServices/ServerNaming/Validators/ServerNameValidator.cs:21-25 | a signed remainder such as `-3` passes the validator, while the extractor reports the unsigned 3 |
| Commands.ClassNameInjective | TwinSocket/HttpServices/Commands/CommandHandlerRegistry.cs:139 | distinct command classes have distinct names, so the catalogue loses no type |
| Commands.Command.CommandName | TwinSocket/HttpServices/Commands/StandStateCommand.cs:17 | each class advertises its own class name, except StandConnectCommand, which advertises "StandStateCommand" |
| Commands.Command.IntendedCommandName | TwinSocket/HttpServices/Commands/StandStateCommand.cs:72 | the class's own name, agreeing with `CommandName` for every class but StandConnectCommand |
| Commands.Default | TwinSocket/HttpServices/Commands/SensorCommand.cs:37 | a parameterless constructor yields its own type with stand number 0, `IsConnect` false and null references |
| Commands.NewEmergencyShutdown | TwinSocket/HttpServices/Commands/EmergencyShutdownCommand.cs:36-40 | copies the stand number out of the state and stores the state; advertises "EmergencyShutdownCommand" |
| Commands.NewNotification | TwinSocket/HttpServices/Commands/NotificationCommand.cs:20-25 | copies the stand number, stores the type and puts the state in `StandSrate` |
| Commands.NewRestoredState | TwinSocket/HttpServices/Commands/RestoredStateCommand.cs:45-49 | copies the stand number and stores the state as `RestoredState` |
| Commands.NewSensor | TwinSocket/HttpServices/Commands/SensorCommand.cs:43-48 | copies the stand number, stores the state and the display collection as given |
| Commands.NewStandConnect | TwinSocket/HttpServices/Commands/StandStateCommand.cs:44-49 | copies the stand number, stores the state and the flag; advertises "StandStateCommand" |
| Commands.NewStandState | TwinSocket/HttpServices/Commands/StandStateCommand.cs:97-101 | copies the stand number and stores the state |
| Commands.ToFrame | TwinSocket/HttpServices/Commands/StandStateCommand.cs:55-58 | the serialized object carries `CommandName` with the advertised discriminator and `StandNumber` with the stand number |
| Commands.ToIntendedFrame | TwinSocket/HttpServices/Commands/StandStateCommand.cs:12-17 | the same object with the class's own name as discriminator; identical to `ToFrame` for every class but StandConnectCommand |
| Commands.FromFrame | TwinSocket/HttpServices/Clients/Implementations/TabletClient.cs:216-217 | deserializing as type k yields a command of type k; an absent `StandNumber` leaves 0 |
| Commands.FrameRoundTrip | TwinSocket/HttpServices/Clients/Implementations/TabletClient.cs:216-217 | deserializing the serialized form of any command as its own type gives it back, field for field, under either discriminator |
| Commands.EmptyFrameDecodesToDefault | TwinSocket/HttpServices/Commands/EmergencyShutdownCommand.cs:25-31 | an object without properties decodes to what the parameterless constructor leaves |
| Commands.StandConnectDecodedAsStandState | TwinSocket/HttpServices/Commands/StandStateCommand.cs:17 | a serialized StandConnectCommand decoded as StandStateCommand keeps the number and state and drops `IsConnect` |
| Registry.NoOpTable | TwinSocket/HttpServices/Commands/CommandHandlerRegistry.cs:135-140 | the table built for a list of types has exactly those types as keys, each mapped to the empty handler |
| Registry.CatalogueLookup | TwinSocket/HttpServices/Commands/CommandHandlerRegistry.cs:135-140 | the catalogue's keys are exactly the class names of the listed types, each mapped to its own type (induction) |
| Registry.FullCatalogue | TwinSocket/HttpServices/Commands/CommandHandlerRegistry.cs:128-141 | the built catalogue resolves every command class name to its type and holds no other names |
| Registry.CommandHandlerRegistry.constructor | TwinSocket/HttpServices/Commands/CommandHandlerRegistry.cs:22-29 | after construction every command type has the empty handler in both tables and the catalogue is complete |
| Registry.CommandHandlerRegistry.RegisterCommandTypesFromAssembly | TwinSocket/HttpServices/Commands/CommandHandlerRegistry.cs:128-141 | each listed type gets the empty handler in both tables and its class name in the catalogue; other entries are kept |
| Registry.CommandHandlerRegistry.RegisterCommandHandler | TwinSocket/HttpServices/Commands/CommandHandlerRegistry.cs:36-41 | replaces the type's plain handler, keeping every other entry and the registry invariant |
| Registry.CommandHandlerRegistry.RegisterServerCommandHandler | TwinSocket/HttpServices/Commands/CommandHandlerRegistry.cs:49-53 | replaces the type's server handler, keeping every other entry and the registry invariant |
| Registry.CommandHandlerRegistry.ExecuteCommand | TwinSocket/HttpServices/Commands/CommandHandlerRegistry.cs:59-67 | calls the handler of the command's runtime type exactly once if there is one, otherwise nothing |
| Registry.CommandHandlerRegistry.ExecuteCommandAsync | TwinSocket/HttpServices/Commands/CommandHandlerRegistry.cs:88-96 | the same single call as `ExecuteCommand` |
| Registry.CommandHandlerRegistry.ExecuteCommandForServer | TwinSocket/HttpServices/Commands/CommandHandlerRegistry.cs:74-82 | without a server handler nothing happens; otherwise the name goes through the extractor, whose failure escapes with no call, and on success the handler is called once with the extracted identity |
| Registry.ResolveCommandType | TwinSocket/HttpServices/Commands/CommandHandlerRegistry.cs:101-122 | each exception exactly in its case: not JSON; no `CommandName`; null or empty; a value that is not a string; a non-empty unregistered name, reported by that name. Success exactly for a registered non-empty name, to the type stored under it |
| Registry.SerializedFrameResolves | TwinSocket/HttpServices/Commands/CommandHandlerRegistry.cs:101-122 | every serialized command resolves to its own type, except StandConnectCommand, which resolves to StandStateCommand |
| Registry.StandConnectNeverResolved | TwinSocket/HttpServices/Commands/StandStateCommand.cs:17 | StandConnectCommand is catalogued but no serialized command ever resolves to it |
| Registry.IntendedFrameResolves | TwinSocket/HttpServices/Commands/StandStateCommand.cs:12-17 | with each class's own name as discriminator every command resolves to its own type and decodes back to itself |
| Registry.RegisteredNameResolves | TwinSocket/HttpServices/Commands/CommandHandlerRegistry.cs:116-119 | a document whose discriminator is a class name resolves to that class |
| Registry.DiscriminatorCaseSensitive | TwinSocket/HttpServices/Commands/CommandHandlerRegistry.cs:105-121 | a `commandName` property is not the discriminator, and a class name in the wrong letter case is an unknown type |
| Registry.CaseVariantOfClassName | TwinSocket/HttpServices/Commands/CommandHandlerRegistry.cs:139 | no two class names differ only in letter case |
| Client.TextRun | TwinSocket/HttpServices/Clients/Implementations/TabletClient.cs:116-130 | the leading run of text messages: all of them text, and the next one, if any, is not |
| Client.Consumed | TwinSocket/HttpServices/Clients/Implementations/TabletClient.cs:116-130 | the loop takes nothing when it does not run, otherwise the text run plus the message that ends it, or everything |
| Client.DisconnectActions | TwinSocket/HttpServices/Clients/Implementations/TabletClient.cs:146-179 | no socket means no action; otherwise disposal comes last and once, and a close handshake is sent exactly in state Open or CloseReceived |
| Client.SerializedCommandDispatched | TwinSocket/HttpServices/Clients/Implementations/TabletClient.cs:211-228 | a received serialized command other than StandConnectCommand reaches the server handler of its own type once, unchanged, with the server's identity |
| Client.StandConnectDispatchedAsStandState | TwinSocket/HttpServices/Clients/Implementations/TabletClient.cs:211-228 | a received StandConnectCommand reaches the StandStateCommand handler as a StandStateCommand without `IsConnect` |
| Client.RejectedServerNameDropsEverything | TwinSocket/HttpServices/Clients/Implementations/TabletClient.cs:221 | a server address the extractor rejects (the default empty one included) makes every received command dispatch nothing |
| Client.MalformedDocumentDispatchesNothing | TwinSocket/HttpServices/Clients/Implementations/TabletClient.cs:213-227 | a document whose type cannot be resolved dispatches nothing |
| Client.TabletClient.constructor | TwinSocket/HttpServices/Clients/Implementations/TabletClient.cs:29-33 | no socket, no token, not disposed, no events, no transport actions |
| Client.TabletClient.ConnectToServer | TwinSocket/HttpServices/Clients/Implementations/TabletClient.cs:66-102 | nothing when already Open; otherwise a fresh socket and token; on success the socket is Open, `true` is raised once, and the loop and monitor are started; on failure the socket is disposed and cleared and no event is raised |
| Client.TabletClient.DisconnectServer | TwinSocket/HttpServices/Clients/Implementations/TabletClient.cs:146-179 | nothing without a socket; otherwise both fields are cleared, `false` is raised once and the transport sees exactly `DisconnectActions` |
| Client.TabletClient.SendCommandToServer | TwinSocket/HttpServices/Clients/Implementations/TabletClient.cs:181-209 | true exactly when the socket is Open and the send completes; nothing is sent unless the socket is Open |
| Client.TabletClient.ProcessReceivedMessage | TwinSocket/HttpServices/Clients/Implementations/TabletClient.cs:211-228 | the handler calls made are exactly `Dispatched` for the document, and every failure is absorbed |
| Client.TabletClient.MonitorConnection | TwinSocket/HttpServices/Clients/Implementations/TabletClient.cs:51-64 | keeps ticking while the socket is Open and the probe succeeds; on the first tick where either fails it disconnects (socket and token source cleared, `false` raised, if a socket was present) and stops |
| Client.TabletClient.ReceiveLoop | TwinSocket/HttpServices/Clients/Implementations/TabletClient.cs:104-144 | takes `Consumed` messages and makes exactly their `DispatchedAll` handler calls; on exit the buffer is returned first, then the client disconnects in the socket state the loop ended in |
| Client.TabletClient.ReceiveMessages | TwinSocket/HttpServices/Clients/Implementations/TabletClient.cs:116-130 | the loop proper: messages taken, whether it stopped, handler calls, and the exit socket state (CloseReceived after a Close frame) |
| Client.TabletClient.Receive | TwinSocket/HttpServices/Clients/Implementations/TabletClient.cs:121-129 | a Close frame leaves the socket CloseReceived, a text frame is processed, a fault ends the loop |
| Client.TabletClient.DisposeAsync | TwinSocket/HttpServices/Clients/Implementations/TabletClient.cs:230-237 | the first call disconnects (socket and token source cleared as by `DisconnectServer`) and marks the client disposed; later calls change nothing |
| Client.DisconnectTwiceRaisesOnce | TwinSocket/HttpServices/Clients/Implementations/TabletClient.cs:146-179 | two disconnects in a row raise `false` once |
| Client.HalfOpenSocketDisconnects | TwinSocket/HttpServices/Clients/Implementations/TabletClient.cs:51-64 | a failing probe disconnects even while the socket still reports Open |
| Notification.EdgesAlternate | TwinSocket/HttpServices/Notification/NetworkMonitor.cs:44-61 | up-to-down and down-to-up changes alternate: their counts differ by the start state minus the end state, so the callback never fires twice without a recovery in between (induction) |
| Notification.NoDropNoCallback | TwinSocket/HttpServices/Notification/NetworkMonitor.cs:50-55 | a link that is never seen down never fires the callback (induction) |
| Notification.PersistentOutageFiresOnce | TwinSocket/HttpServices/Notification/NetworkMonitor.cs:50-55 | a link seen down throughout fires once if it started up, otherwise never (induction) |
| Notification.FallingEdgesStep | TwinSocket/HttpServices/Notification/NetworkMonitor.cs:44-61 | one more event sets the state to the new observation and adds one callback exactly on an up-to-down change, as `OnNetworkChanged` does |
| Notification.ReplayNetworkChanges | TwinSocket/HttpServices/Notification/NetworkMonitor.cs:44-61 | after any run of change events handled by `OnNetworkChanged` the flag is the last observation and the callback has run once per up-to-down change (`FallingEdges`) |
| Notification.NetworkMonitor.constructor | TwinSocket/HttpServices/Notification/NetworkMonitor.cs:16-25 | the link is assumed up; nothing is subscribed and no callback has run |
| Notification.NetworkMonitor.StartMonitoring | TwinSocket/HttpServices/Notification/NetworkMonitor.cs:30-37 | the handler is attached exactly once however often monitoring starts; the SSID is recorded |
| Notification.NetworkMonitor.OnNetworkChanged | TwinSocket/HttpServices/Notification/NetworkMonitor.cs:44-61 | the flag follows the probe, and the callback runs exactly when the link was up and is now down |
| Notification.NetworkMonitor.Dispose | TwinSocket/HttpServices/Notification/NetworkMonitor.cs:66-70 | the handler is detached |

## Findings

| source | as written | input that shows it | evidently intended | confidence | as-written member | corrected member |
|---|---|---|---|---|---|---|
| TwinSocket/HttpServices/Commands/StandStateCommand.cs:17 | `StandConnectCommand.CommandName` returns the name of `StandStateCommand` | any `new StandConnectCommand(state, true)`, sent and received | the class's own name, as every other command class does | high (not executed) | Registry.SerializedFrameResolves | Registry.IntendedFrameResolves |

With the discriminator as written, a received StandConnectCommand resolves to StandStateCommand. It is
decoded as one (`Commands.StandConnectDecodedAsStandState`) and handed to the StandStateCommand handler
with `IsConnect` lost (`Client.StandConnectDispatchedAsStandState`). The StandConnectCommand handler is
never called (`Registry.StandConnectNeverResolved`). `Commands.ToIntendedFrame` serializes each command
with its own class name, and with it every command resolves to its own type and round-trips
(`Registry.IntendedFrameResolves`). The client and the registry work on received documents, so their
contracts hold under either serialization.

## Left out

- **`null` strings.** A `null` string has no counterpart in `string`. The `string.IsNullOrEmpty`
  checks are modelled by their empty-string half.
- **`null` stand states.** The `New*` constructors take a `StandState` value, which cannot be null.
  In the program every one of those constructors reads `StandNumber` from its argument
  (EmergencyShutdownCommand.cs:38, NotificationCommand.cs:22, RestoredStateCommand.cs:47,
  SensorCommand.cs:45, StandStateCommand.cs:46 and :99), so a null argument throws
  `NullReferenceException`. That exception is not modelled. A null state inside a decoded document
  is modelled (`Option<StandState>`).
- **Non-ASCII characters.** Case mapping and digit recognition cover ASCII only. `char.IsDigit`
  also accepts other Unicode decimal digits, which `ExtractNumberFromEnd` takes into the suffix but
  `int.TryParse` does not read as digits. In the program, `HasValidSuffix` then fails
  (DataExtractor.cs:26-38), and `ExtractData` throws the format `ArgumentException` before
  `int.Parse` is reached. The model stops the suffix at the first non-ASCII digit instead, so it
  accepts such a name. For example, "Stand١2" is rejected by the program, but
  `DataExtractor.ExtractData` returns `Success(ServerInfo("stand١2", 2))`.
  Culture-specific sign symbols and the trailing `'\0'` characters that `int.TryParse` tolerates are
  not modelled either.
- **JSON text.** UTF-8 encoding, parsing and `JsonSerializer` output are replaced by the parsed
  object map. A JSON root that is not an object is treated like unparseable text. Nested `StandState`
  and `SensorDisplay` objects are opaque values.
- **Case-insensitive property matching.** `ProcessReceivedMessage` deserializes with
  `PropertyNameCaseInsensitive`. `Commands.FromFrame` matches property names exactly. This is the same
  on every document `ToFrame` produces.
- **Numbers and enums on the wire.** A number given as a string, and a `NotificationType` written by
  name, are not decoded. The model only reads them as numbers.
- **`IWebCommand` itself.** Registering a handler under the `IWebCommand` interface type is not
  modelled. Handlers are keyed by the six concrete command types.
- **Concurrency and timing.**
  - `Task.Run`, the fire-and-forget tasks and the 1-second connect timeout are not modelled.
  - The 1-second monitor delay, the 2-second TCP probe timeout and the 1-second delay in
    `OnNetworkChanged` are not modelled either.
  - Races between the receive loop, the monitor and user calls are not modelled: each operation runs
    to completion on its own.
  - A cancellation that interrupts an await is folded into the parameter saying whether the step
    completed.
- **The captured token.** The loops test the token source they were started with. The model tests
  the client's current field, which refers to that same source until `DisconnectServerAsync` clears
  it. A token source's `Dispose` is not modelled.
- **Socket states.** Only a received Close frame changes the socket state. Other changes made by the
  transport itself (Aborted, CloseSent) are not produced.
- **Received messages.** Each received message is one whole JSON document. The client rents a
  4096-byte buffer and decodes each `ReceiveAsync` result on its own, without looking at
  `EndOfMessage`. A longer message would be handled as several fragments that do not parse. This
  split is not modelled.
- **Binary frames.** A binary frame is decoded as UTF-8 and processed like a text frame. The model
  has text messages only, so binary frames are not modelled.
- **`Client.TabletClient.ReceiveLoop`.** It only starts at connect time and runs until it exits or
  the given messages run out. A loop still waiting when the messages run out is reported as not
  exited.
- **`TabletClient.Dispose()`.** This synchronous wrapper blocks on `DisposeAsync` and is not modelled
  separately.
- **Server address.** `TabletClient` takes the server address once, at construction. The program
  reads `LaptopServerOptions.ServerAddress`, which has a setter, again on every connect and for
  every received message. A change of address while the client runs is not modelled.
- **Environment probes.**
  - `IsServerAvailableAsync` (the TCP probe), `IsConnectedToCurrentNetwork` and `GetCurrentWifiSsid`
    query the operating system. Their answers are parameters.
  - The address-change event is represented by calls of `OnNetworkChanged`.
  - The disconnect callback is represented by a count of its invocations. What it does, and its
    awaiting, are not modelled.
- **`Debug.WriteLine` logging.** Not modelled.
- **`LaptopServer`, `AdminRightsManager`, `NotificationService` and the multi-server client.** They
  use the core but are not part of this model.
