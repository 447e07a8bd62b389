/**
 * `CommandHandlerRegistry`: the catalogue from discriminator to command type, the two handler tables,
 * discriminator resolution for received documents, and handler dispatch.
 */
module Registry {
  import opened Wrappers
  import opened Text
  import opened Commands
  import opened ServerInfoModel
  import opened DataExtractor

  /** A registered delegate: the default empty lambda or a caller's closure, known only by an id. */
  datatype Handler = NoOp | Registered(id: nat)

  /** One call of a handler, as the ghost invocation log records it. */
  datatype Invocation =
    | Invoked(handler: Handler, command: Command)
    | InvokedWithServer(handler: Handler, server: ServerInfo, command: Command)

  /** The exceptions `ExtractCommandType` throws. */
  datatype CommandTypeError =
    | JsonException                      // the text is not a JSON document
    | KeyNotFound                        // KeyNotFoundException: no "CommandName" property
    | NameNotAString                     // InvalidOperationException from GetString on a number, bool, object or array
    | NullOrEmptyName                    // InvalidOperationException: "CommandName" is null or ""
    | UnknownCommandType(name: string)   // InvalidOperationException: "Unknown command type"

  /** The name table the registration loop builds from a list of types: `_commandTypes[t.Name] = t`. */
  function Catalogue(kinds: seq<Kind>): map<string, Kind>
  {
    if kinds == [] then map[]
    else Catalogue(kinds[..|kinds| - 1])[ClassName(kinds[|kinds| - 1]) := kinds[|kinds| - 1]]
  }

  /** A handler table holding the empty lambda for each of the given types. */
  function NoOpTable(kinds: seq<Kind>): (table: map<Kind, Handler>)
    ensures table.Keys == set k | k in kinds
    ensures forall k :: k in table ==> table[k] == NoOp
  {
    if kinds == [] then map[]
    else
      var init, last := kinds[..|kinds| - 1], kinds[|kinds| - 1];
      assert kinds == init + [last];
      NoOpTable(init)[last := NoOp]
  }

  /** The set of all concrete command types. */
  function KindSet(): set<Kind>
  {
    set k | k in AllKinds
  }

  /** The catalogue maps exactly the class names of the listed types, each to its own type. */
  lemma {:induction false} CatalogueLookup(kinds: seq<Kind>)
    ensures Catalogue(kinds).Keys == set k | k in kinds :: ClassName(k)
    ensures forall k :: k in kinds ==> Catalogue(kinds)[ClassName(k)] == k
  {
    if kinds != [] {
      var init, last := kinds[..|kinds| - 1], kinds[|kinds| - 1];
      CatalogueLookup(init);
      assert kinds == init + [last];
      forall k | k in kinds ensures Catalogue(kinds)[ClassName(k)] == k {
        ClassNameInjective(k, last);
      }
    }
  }

  /** The full catalogue resolves every class name to its type and nothing else. */
  lemma FullCatalogue()
    ensures forall k :: ClassName(k) in Catalogue(AllKinds) && Catalogue(AllKinds)[ClassName(k)] == k
    ensures forall name :: name in Catalogue(AllKinds) ==> exists k :: ClassName(k) == name
  {
    CatalogueLookup(AllKinds);
    forall k ensures k in AllKinds {
      match k
      case EmergencyShutdownKind => assert AllKinds[0] == k;
      case NotificationKind => assert AllKinds[1] == k;
      case RestoredStateKind => assert AllKinds[2] == k;
      case SensorKind => assert AllKinds[3] == k;
      case StandConnectKind => assert AllKinds[4] == k;
      case StandStateKind => assert AllKinds[5] == k;
    }
  }

  /** Growing a prefix by one element extends both tables by that element. */
  lemma ExtendPrefix(kinds: seq<Kind>, i: nat)
    requires i < |kinds|
    ensures NoOpTable(kinds[..i + 1]) == NoOpTable(kinds[..i])[kinds[i] := NoOp]
    ensures Catalogue(kinds[..i + 1]) == Catalogue(kinds[..i])[ClassName(kinds[i]) := kinds[i]]
  {
    assert kinds[..i + 1][..i] == kinds[..i];
  }

  lemma UnionUpdate<K, V>(m: map<K, V>, t: map<K, V>, k: K, v: V)
    ensures (m + t)[k := v] == m + t[k := v]
  {
  }

  class CommandHandlerRegistry {
    var commandHandlers: map<Kind, Handler>
    var serverCommandHandlers: map<Kind, Handler>
    var commandTypes: map<string, Kind>
    /** The test flag of the injected `DataExtractor`. */
    const skipValidationForTesting: bool
    /** Every handler call so far, in order. */
    ghost var invocations: seq<Invocation>

    /** The catalogue is the one built at construction, and every type has a slot in both handler tables. */
    ghost predicate Valid()
      reads this
    {
      commandTypes == Catalogue(AllKinds) &&
      commandHandlers.Keys == KindSet() &&
      serverCommandHandlers.Keys == KindSet()
    }

    /** `new CommandHandlerRegistry(new DataExtractor(skipValidationForTesting))`. */
    constructor (skipValidationForTesting: bool)
      ensures Valid()
      ensures this.skipValidationForTesting == skipValidationForTesting
      ensures commandTypes == Catalogue(AllKinds)
      ensures commandHandlers == NoOpTable(AllKinds) && serverCommandHandlers == NoOpTable(AllKinds)
      ensures invocations == []
    {
      this.skipValidationForTesting := skipValidationForTesting;
      commandHandlers, serverCommandHandlers, commandTypes := map[], map[], map[];
      invocations := [];
      new;
      RegisterCommandTypesFromAssembly(AllKinds);
    }

    /** The registration loop: each type gets a no-op in both tables and its class name in the catalogue. */
    method RegisterCommandTypesFromAssembly(kinds: seq<Kind>)
      modifies this`commandHandlers, this`serverCommandHandlers, this`commandTypes
      ensures commandHandlers == old(commandHandlers) + NoOpTable(kinds)
      ensures serverCommandHandlers == old(serverCommandHandlers) + NoOpTable(kinds)
      ensures commandTypes == old(commandTypes) + Catalogue(kinds)
    {
      var i := 0;
      while i < |kinds|
        invariant 0 <= i <= |kinds|
        invariant commandHandlers == old(commandHandlers) + NoOpTable(kinds[..i])
        invariant serverCommandHandlers == old(serverCommandHandlers) + NoOpTable(kinds[..i])
        invariant commandTypes == old(commandTypes) + Catalogue(kinds[..i])
      {
        var k := kinds[i];
        ExtendPrefix(kinds, i);
        UnionUpdate(old(commandHandlers), NoOpTable(kinds[..i]), k, NoOp);
        UnionUpdate(old(serverCommandHandlers), NoOpTable(kinds[..i]), k, NoOp);
        UnionUpdate(old(commandTypes), Catalogue(kinds[..i]), ClassName(k), k);
        commandHandlers := commandHandlers[k := NoOp];
        serverCommandHandlers := serverCommandHandlers[k := NoOp];
        commandTypes := commandTypes[ClassName(k) := k];
        i := i + 1;
      }
      assert kinds[..i] == kinds;
    }

    /** `RegisterCommandHandler<T>`: replaces T's plain handler, latest wins. */
    method RegisterCommandHandler(k: Kind, handler: nat)
      requires Valid()
      modifies this`commandHandlers
      ensures Valid()
      ensures commandHandlers == old(commandHandlers)[k := Registered(handler)]
    {
      commandHandlers := commandHandlers[k := Registered(handler)];
      assert k in KindSet() by { FullCatalogue(); CatalogueLookup(AllKinds); }
    }

    /** `RegisterServerCommandHandler<T>`: replaces T's server handler, latest wins. */
    method RegisterServerCommandHandler(k: Kind, handler: nat)
      requires Valid()
      modifies this`serverCommandHandlers
      ensures Valid()
      ensures serverCommandHandlers == old(serverCommandHandlers)[k := Registered(handler)]
    {
      serverCommandHandlers := serverCommandHandlers[k := Registered(handler)];
      assert k in KindSet() by { FullCatalogue(); CatalogueLookup(AllKinds); }
    }

    /** `ExecuteCommand(command)`: calls the plain handler of the command's runtime type once, if any. */
    method ExecuteCommand(command: Command)
      modifies this`invocations
      ensures command.KindOf() in commandHandlers ==>
        invocations == old(invocations) + [Invoked(commandHandlers[command.KindOf()], command)]
      ensures command.KindOf() !in commandHandlers ==> invocations == old(invocations)
    {
      var commandType := command.KindOf();
      if commandType in commandHandlers {
        invocations := invocations + [Invoked(commandHandlers[commandType], command)];
      }
    }

    /** `ExecuteCommandAsync(command)`: the same lookup, the handler run on a pool thread and awaited. */
    method ExecuteCommandAsync(command: Command)
      modifies this`invocations
      ensures command.KindOf() in commandHandlers ==>
        invocations == old(invocations) + [Invoked(commandHandlers[command.KindOf()], command)]
      ensures command.KindOf() !in commandHandlers ==> invocations == old(invocations)
    {
      ExecuteCommand(command);
    }

    /**
     * `ExecuteCommand(serverName, command)`: when the type has a server handler, the name is run through
     * the extractor first (its exception escapes), then the handler is called once with the result.
     */
    method ExecuteCommandForServer(serverName: string, command: Command) returns (outcome: Outcome<ExtractError>)
      modifies this`invocations
      ensures command.KindOf() !in serverCommandHandlers ==> outcome == Pass && invocations == old(invocations)
      ensures command.KindOf() in serverCommandHandlers ==>
        match ExtractData(skipValidationForTesting, serverName)
        case Failure(e) => outcome == Fail(e) && invocations == old(invocations)
        case Success(info) =>
          outcome == Pass &&
          invocations == old(invocations) + [InvokedWithServer(serverCommandHandlers[command.KindOf()], info, command)]
    {
      var commandType := command.KindOf();
      if commandType in serverCommandHandlers {
        var handler := serverCommandHandlers[commandType];
        match ExtractData(skipValidationForTesting, serverName)
        case Failure(e) =>
          return Fail(e);
        case Success(info) =>
          invocations := invocations + [InvokedWithServer(handler, info, command)];
      }
      return Pass;
    }

    /** `ExtractCommandType(json)`, resolved against this registry's catalogue. */
    function ExtractCommandType(json: Frame): (r: Result<Kind, CommandTypeError>)
      reads this`commandTypes
    {
      ResolveCommandType(commandTypes, json)
    }
  }

  /**
   * The body of `ExtractCommandType(json)`: the root's "CommandName" property (matched
   * case-sensitively) must be a non-empty string registered in the catalogue `commandTypes`.
   */
  function ResolveCommandType(commandTypes: map<string, Kind>, json: Frame): (r: Result<Kind, CommandTypeError>)
    ensures r == Failure(JsonException) <==> json.None?
    ensures r == Failure(KeyNotFound) <==> json.Some? && CommandNameProperty !in json.value
    ensures r == Failure(NullOrEmptyName) <==>
      json.Some? && CommandNameProperty in json.value &&
      (json.value[CommandNameProperty] == Null || json.value[CommandNameProperty] == Str(""))
    ensures r.Success? <==>
      json.Some? && CommandNameProperty in json.value && json.value[CommandNameProperty].Str? &&
      json.value[CommandNameProperty].s != "" && json.value[CommandNameProperty].s in commandTypes
    ensures r.Success? ==> r.value == commandTypes[json.value[CommandNameProperty].s]
    ensures r == Failure(NameNotAString) <==>
      json.Some? && CommandNameProperty in json.value &&
      !json.value[CommandNameProperty].Null? && !json.value[CommandNameProperty].Str?
    ensures r.Failure? && r.error.UnknownCommandType? <==>
      json.Some? && CommandNameProperty in json.value && json.value[CommandNameProperty].Str? &&
      json.value[CommandNameProperty].s != "" && json.value[CommandNameProperty].s !in commandTypes
    ensures r.Failure? && r.error.UnknownCommandType? ==> r.error.name == json.value[CommandNameProperty].s
  {
    match json
    case None => Failure(JsonException)
    case Some(root) =>
      if CommandNameProperty !in root then Failure(KeyNotFound)
      else match root[CommandNameProperty]
        case Null => Failure(NullOrEmptyName)
        case Str(commandName) =>
          if commandName == "" then Failure(NullOrEmptyName)
          else if commandName in commandTypes then Success(commandTypes[commandName])
          else Failure(UnknownCommandType(commandName))
        case _ => Failure(NameNotAString)
  }

  /**
   * Every serialized command resolves to its own type, except a StandConnectCommand: its advertised
   * discriminator is "StandStateCommand", so it resolves to StandStateCommand.
   */
  lemma SerializedFrameResolves(r: CommandHandlerRegistry, c: Command)
    requires r.Valid()
    ensures r.ExtractCommandType(Some(ToFrame(c))) ==
            Success(if c.StandConnectCommand? then StandStateKind else c.KindOf())
  {
    FullCatalogue();
  }

  /** No serialized command ever resolves to the StandConnectCommand type, though it is catalogued. */
  lemma StandConnectNeverResolved(r: CommandHandlerRegistry, c: Command)
    requires r.Valid()
    ensures ClassName(StandConnectKind) in r.commandTypes
    ensures r.ExtractCommandType(Some(ToFrame(c))) != Success(StandConnectKind)
  {
    SerializedFrameResolves(r, c);
  }

  /** With the discriminator each class intends, every serialized command resolves to its own type. */
  lemma IntendedFrameResolves(r: CommandHandlerRegistry, c: Command)
    requires r.Valid()
    ensures r.ExtractCommandType(Some(ToIntendedFrame(c))) == Success(c.KindOf())
    ensures FromFrame(c.KindOf(), ToIntendedFrame(c)) == Success(c)
  {
    FullCatalogue();
    FrameRoundTrip(c);
  }

  /** A registered name resolves to exactly the type stored under it. */
  lemma RegisteredNameResolves(r: CommandHandlerRegistry, k: Kind, fields: Fields)
    requires r.Valid()
    requires CommandNameProperty in fields && fields[CommandNameProperty] == Str(ClassName(k))
    ensures r.ExtractCommandType(Some(fields)) == Success(k)
  {
    FullCatalogue();
  }

  /**
   * Matching is exact: a property spelt with another letter case is not the discriminator, and a
   * discriminator value differing from a class name in letter case only is unknown.
   */
  lemma DiscriminatorCaseSensitive(r: CommandHandlerRegistry, k: Kind, wrongCase: string)
    requires r.Valid()
    requires wrongCase != ClassName(k) && EqualsIgnoreCase(wrongCase, ClassName(k))
    ensures r.ExtractCommandType(Some(map["commandName" := Str(ClassName(k))])) == Failure(KeyNotFound)
    ensures r.ExtractCommandType(Some(map[CommandNameProperty := Str(wrongCase)])) ==
            Failure(UnknownCommandType(wrongCase))
  {
    FullCatalogue();
    assert "commandName" != CommandNameProperty by { assert "commandName"[0] != CommandNameProperty[0]; }
    if wrongCase in r.commandTypes {
      var k' :| ClassName(k') == wrongCase;
      CaseVariantOfClassName(k, k');
    }
  }

  /** No two class names differ only in letter case. */
  lemma CaseVariantOfClassName(k: Kind, k': Kind)
    requires EqualsIgnoreCase(ClassName(k'), ClassName(k))
    ensures k == k'
  {
    assert ToUpper(ClassName(k')[0]) == ToUpper(ClassName(k)[0]);
  }
}
