/**
 * The six `IWebCommand` payload classes, their constant `CommandName` discriminators, their
 * constructors, and their serialized form as a JSON object (a map from property name to value).
 * The JSON text itself is not modelled: a received text is represented by the document it parses to.
 */
module Commands {
  import opened Wrappers
  import opened Text

  /** A stand's state (a domain class outside the model); only its `StandNumber` is read here. */
  datatype StandState = StandState(standNumber: Int32, id: nat)

  /** One entry of a sensor display collection (a domain class outside the model). */
  datatype SensorDisplay = SensorDisplay(id: nat)

  /** The `NotificationType` enum, serialized by its underlying number. */
  type NotificationType = Int32

  /** The runtime type of a command (`command.GetType()`): one kind per concrete command class. */
  datatype Kind =
    | EmergencyShutdownKind
    | NotificationKind
    | RestoredStateKind
    | SensorKind
    | StandConnectKind
    | StandStateKind

  /** Every concrete class implementing `IWebCommand`, in the order the assembly lists them. */
  const AllKinds: seq<Kind> :=
    [EmergencyShutdownKind, NotificationKind, RestoredStateKind, SensorKind, StandConnectKind, StandStateKind]

  /** `Type.Name` of each command class. */
  function ClassName(k: Kind): string
  {
    match k
    case EmergencyShutdownKind => "EmergencyShutdownCommand"
    case NotificationKind => "NotificationCommand"
    case RestoredStateKind => "RestoredStateCommand"
    case SensorKind => "SensorCommand"
    case StandConnectKind => "StandConnectCommand"
    case StandStateKind => "StandStateCommand"
  }

  /** Distinct classes have distinct names. */
  lemma ClassNameInjective(k1: Kind, k2: Kind)
    ensures ClassName(k1) == ClassName(k2) ==> k1 == k2
  {
  }

  /**
   * A command object with its settable properties. Reference-typed properties (the stand state and the
   * display collection) can be null, which is what the parameterless constructors leave in them.
   */
  datatype Command =
    | EmergencyShutdownCommand(standNumber: Int32, standState: Option<StandState>)
    | NotificationCommand(standNumber: Int32, notificationType: NotificationType, standSrate: Option<StandState>)
    | RestoredStateCommand(standNumber: Int32, restoredState: Option<StandState>)
    | SensorCommand(standNumber: Int32, standState: Option<StandState>, sensorDisplays: Option<seq<SensorDisplay>>)
    | StandConnectCommand(standNumber: Int32, standState: Option<StandState>, isConnect: bool)
    | StandStateCommand(standNumber: Int32, standState: Option<StandState>)
  {
    function KindOf(): Kind
    {
      match this
      case EmergencyShutdownCommand(_, _) => EmergencyShutdownKind
      case NotificationCommand(_, _, _) => NotificationKind
      case RestoredStateCommand(_, _) => RestoredStateKind
      case SensorCommand(_, _, _) => SensorKind
      case StandConnectCommand(_, _, _) => StandConnectKind
      case StandStateCommand(_, _) => StandStateKind
    }

    /** The `CommandName` getter of each class, as written: `StandConnectCommand` returns `nameof(StandStateCommand)`. */
    function CommandName(): (name: string)
      ensures !StandConnectCommand? ==> name == ClassName(KindOf())
      ensures StandConnectCommand? ==> name == ClassName(StandStateKind) && name != ClassName(KindOf())
    {
      match this
      case EmergencyShutdownCommand(_, _) => "EmergencyShutdownCommand"
      case NotificationCommand(_, _, _) => "NotificationCommand"
      case RestoredStateCommand(_, _) => "RestoredStateCommand"
      case SensorCommand(_, _, _) => "SensorCommand"
      case StandConnectCommand(_, _, _) => "StandStateCommand"
      case StandStateCommand(_, _) => "StandStateCommand"
    }

    /** The discriminator every class evidently intends to advertise: its own class name. */
    function IntendedCommandName(): (name: string)
      ensures name == ClassName(KindOf())
      ensures !StandConnectCommand? ==> name == CommandName()
    {
      ClassName(KindOf())
    }
  }

  /** What the parameterless constructor of each class leaves: zero, false and null everywhere. */
  function Default(k: Kind): (c: Command)
    ensures c.KindOf() == k
    ensures c.standNumber == 0
    ensures c.StandConnectCommand? ==> !c.isConnect
    ensures c.SensorCommand? ==> c.sensorDisplays.None?
    ensures (c.EmergencyShutdownCommand? || c.SensorCommand? || c.StandConnectCommand? || c.StandStateCommand?) ==>
      c.standState.None?
    ensures c.NotificationCommand? ==> c.notificationType == 0 && c.standSrate.None?
    ensures c.RestoredStateCommand? ==> c.restoredState.None?
  {
    match k
    case EmergencyShutdownKind => EmergencyShutdownCommand(0, None)
    case NotificationKind => NotificationCommand(0, 0, None)
    case RestoredStateKind => RestoredStateCommand(0, None)
    case SensorKind => SensorCommand(0, None, None)
    case StandConnectKind => StandConnectCommand(0, None, false)
    case StandStateKind => StandStateCommand(0, None)
  }

  /** `new EmergencyShutdownCommand(s)`. */
  function NewEmergencyShutdown(s: StandState): (c: Command)
    ensures c.KindOf() == EmergencyShutdownKind && c.CommandName() == "EmergencyShutdownCommand"
    ensures c.standNumber == s.standNumber && c.standState == Some(s)
  {
    EmergencyShutdownCommand(s.standNumber, Some(s))
  }

  /** `new NotificationCommand(s, t)`: the state goes to the misspelt `StandSrate` property. */
  function NewNotification(s: StandState, t: NotificationType): (c: Command)
    ensures c.KindOf() == NotificationKind && c.CommandName() == "NotificationCommand"
    ensures c.standNumber == s.standNumber && c.notificationType == t && c.standSrate == Some(s)
  {
    NotificationCommand(s.standNumber, t, Some(s))
  }

  /** `new RestoredStateCommand(s)`: the state goes to `RestoredState`, not `StandState`. */
  function NewRestoredState(s: StandState): (c: Command)
    ensures c.KindOf() == RestoredStateKind && c.CommandName() == "RestoredStateCommand"
    ensures c.standNumber == s.standNumber && c.restoredState == Some(s)
  {
    RestoredStateCommand(s.standNumber, Some(s))
  }

  /** `new SensorCommand(s, displays)`: the collection is stored as given. */
  function NewSensor(s: StandState, displays: Option<seq<SensorDisplay>>): (c: Command)
    ensures c.KindOf() == SensorKind && c.CommandName() == "SensorCommand"
    ensures c.standNumber == s.standNumber && c.standState == Some(s) && c.sensorDisplays == displays
  {
    SensorCommand(s.standNumber, Some(s), displays)
  }

  /** `new StandConnectCommand(s, isConnect)`; note the discriminator it advertises. */
  function NewStandConnect(s: StandState, isConnect: bool): (c: Command)
    ensures c.KindOf() == StandConnectKind && c.CommandName() == "StandStateCommand"
    ensures c.standNumber == s.standNumber && c.standState == Some(s) && c.isConnect == isConnect
  {
    StandConnectCommand(s.standNumber, Some(s), isConnect)
  }

  /** `new StandStateCommand(s)`. */
  function NewStandState(s: StandState): (c: Command)
    ensures c.KindOf() == StandStateKind && c.CommandName() == "StandStateCommand"
    ensures c.standNumber == s.standNumber && c.standState == Some(s)
  {
    StandStateCommand(s.standNumber, Some(s))
  }

  /** A JSON value as far as these payloads need it. */
  datatype Value =
    | Null
    | Str(s: string)
    | Number(n: int)
    | Bool(b: bool)
    | StateObject(state: StandState)
    | DisplayArray(displays: seq<SensorDisplay>)

  /** The properties of a JSON object. */
  type Fields = map<string, Value>

  /** A received text after `JsonDocument.Parse`: `None` when it is not a JSON object. */
  type Frame = Option<Fields>

  const CommandNameProperty: string := "CommandName"

  function StateValue(s: Option<StandState>): Value
  {
    match s
    case None => Null
    case Some(st) => StateObject(st)
  }

  /** The data properties of a command under their wire names (everything but `CommandName`). */
  function DataFields(c: Command): Fields
  {
    match c
    case EmergencyShutdownCommand(n, s) =>
      map["StandNumber" := Number(n), "StandState" := StateValue(s)]
    case NotificationCommand(n, t, s) =>
      map["StandNumber" := Number(n), "NotificationType" := Number(t), "StandSrate" := StateValue(s)]
    case RestoredStateCommand(n, s) =>
      map["StandNumber" := Number(n), "RestoredState" := StateValue(s)]
    case SensorCommand(n, s, d) =>
      map["StandNumber" := Number(n), "StandState" := StateValue(s),
          "SensorDisplays" := (match d case None => Null case Some(ds) => DisplayArray(ds))]
    case StandConnectCommand(n, s, b) =>
      map["StandNumber" := Number(n), "StandState" := StateValue(s), "IsConnect" := Bool(b)]
    case StandStateCommand(n, s) =>
      map["StandNumber" := Number(n), "StandState" := StateValue(s)]
  }

  /** `ToSerializedString()`: every public property, the `CommandName` getter included. */
  function ToFrame(c: Command): (fields: Fields)
    ensures CommandNameProperty in fields && fields[CommandNameProperty] == Str(c.CommandName())
    ensures "StandNumber" in fields && fields["StandNumber"] == Number(c.standNumber)
  {
    DataFields(c)[CommandNameProperty := Str(c.CommandName())]
  }

  /** The same serialization with the discriminator each class evidently intends. */
  function ToIntendedFrame(c: Command): (fields: Fields)
    ensures CommandNameProperty in fields && fields[CommandNameProperty] == Str(ClassName(c.KindOf()))
    ensures !c.StandConnectCommand? ==> fields == ToFrame(c)
  {
    DataFields(c)[CommandNameProperty := Str(c.IntendedCommandName())]
  }

  /** Why `JsonSerializer.Deserialize` rejects a document for a given type. */
  datatype DecodeError = PropertyTypeMismatch(property: string)

  /** An `int` property: absent keeps the default; a number that fits is taken; anything else throws. */
  function DecodeInt32(fields: Fields, name: string, default: Int32): Result<Int32, DecodeError>
  {
    if name !in fields then Success(default)
    else match fields[name]
      case Number(n) => if MinInt32 <= n <= MaxInt32 then Success(n) else Failure(PropertyTypeMismatch(name))
      case _ => Failure(PropertyTypeMismatch(name))
  }

  /** A `bool` property. */
  function DecodeBool(fields: Fields, name: string, default: bool): Result<bool, DecodeError>
  {
    if name !in fields then Success(default)
    else match fields[name]
      case Bool(b) => Success(b)
      case _ => Failure(PropertyTypeMismatch(name))
  }

  /** A `StandState` property: null or an object. */
  function DecodeState(fields: Fields, name: string): Result<Option<StandState>, DecodeError>
  {
    if name !in fields then Success(None)
    else match fields[name]
      case Null => Success(None)
      case StateObject(s) => Success(Some(s))
      case _ => Failure(PropertyTypeMismatch(name))
  }

  /** The `SensorDisplays` collection property: null or an array. */
  function DecodeDisplays(fields: Fields, name: string): Result<Option<seq<SensorDisplay>>, DecodeError>
  {
    if name !in fields then Success(None)
    else match fields[name]
      case Null => Success(None)
      case DisplayArray(ds) => Success(Some(ds))
      case _ => Failure(PropertyTypeMismatch(name))
  }

  /**
   * `JsonSerializer.Deserialize(json, type)`: build the parameterless instance of `k` and set each of
   * its properties found in the document. Unknown properties (among them `CommandName`, which has no
   * setter) are ignored.
   */
  function FromFrame(k: Kind, fields: Fields): (r: Result<Command, DecodeError>)
    ensures r.Success? ==> r.value.KindOf() == k
    ensures r.Success? && "StandNumber" !in fields ==> r.value.standNumber == 0
  {
    var n :- DecodeInt32(fields, "StandNumber", 0);
    match k
    case EmergencyShutdownKind =>
      var s :- DecodeState(fields, "StandState");
      Success(EmergencyShutdownCommand(n, s))
    case NotificationKind =>
      var t :- DecodeInt32(fields, "NotificationType", 0);
      var s :- DecodeState(fields, "StandSrate");
      Success(NotificationCommand(n, t, s))
    case RestoredStateKind =>
      var s :- DecodeState(fields, "RestoredState");
      Success(RestoredStateCommand(n, s))
    case SensorKind =>
      var s :- DecodeState(fields, "StandState");
      var d :- DecodeDisplays(fields, "SensorDisplays");
      Success(SensorCommand(n, s, d))
    case StandConnectKind =>
      var s :- DecodeState(fields, "StandState");
      var b :- DecodeBool(fields, "IsConnect", false);
      Success(StandConnectCommand(n, s, b))
    case StandStateKind =>
      var s :- DecodeState(fields, "StandState");
      Success(StandStateCommand(n, s))
  }

  /** Decoding the serialized form of any command as its own type gives the command back, field for field. */
  lemma FrameRoundTrip(c: Command)
    ensures FromFrame(c.KindOf(), ToFrame(c)) == Success(c)
    ensures FromFrame(c.KindOf(), ToIntendedFrame(c)) == Success(c)
  {
    NamedDataFieldsDecode(c, c.CommandName());
    NamedDataFieldsDecode(c, c.IntendedCommandName());
  }

  /** Whatever discriminator is added to a command's data fields, decoding ignores it. */
  lemma NamedDataFieldsDecode(c: Command, name: string)
    ensures FromFrame(c.KindOf(), DataFields(c)[CommandNameProperty := Str(name)]) == Success(c)
  {
  }

  /** A document without properties decodes to what the parameterless constructor leaves. */
  lemma EmptyFrameDecodesToDefault(k: Kind)
    ensures FromFrame(k, map[]) == Success(Default(k))
  {
  }

  /**
   * A StandConnectCommand document decoded as a StandStateCommand keeps the stand number and the state
   * and silently drops `IsConnect`.
   */
  lemma StandConnectDecodedAsStandState(n: Int32, s: Option<StandState>, isConnect: bool)
    ensures FromFrame(StandStateKind, ToFrame(StandConnectCommand(n, s, isConnect))) ==
            Success(StandStateCommand(n, s))
  {
  }
}
