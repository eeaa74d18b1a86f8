/**
 * Values shared by every part of the chat controller model: participants,
 * messages, the JSON values that travel in message dictionaries, settings,
 * the errors the controller raises and the effects it leaves for the
 * delivery layer.
 */
module Domain {

  datatype Option<T> = None | Some(value: T)

  /** A Python call either returns a value or raises one of the errors below. */
  datatype Result<T> = Success(value: T) | Failure(error: Error)
  {
    predicate IsFailure() { Failure? }

    function PropagateFailure<U>(): Result<U>
      requires Failure?
    {
      Failure(error)
    }

    function Extract(): T
      requires Success?
    {
      value
    }
  }

  /** Participant.type: 'H' or 'B'. */
  datatype Kind = Human | Bot

  /** Message.type (a one-letter text choice in the store). */
  datatype MessageType = System | Text | Voice | Media | Attachment | Audio | Video | Image

  /**
   * The stored one-letter codes. SYSTEM, TEXT, VOICE, MEDIA and ATTACHMENT
   * are 'S', 'T', 'V', 'M' and 'A'; the model only relies on the codes being
   * pairwise distinct for the three types that the older model file does not
   * declare.
   */
  function TypeCode(t: MessageType): string
  {
    match t
    case System => "S"
    case Text => "T"
    case Voice => "V"
    case Media => "M"
    case Attachment => "A"
    case Audio => "a"
    case Video => "v"
    case Image => "I"
  }

  /** Message.ApprovalStatus: NO = 0, AUTOMATICALLY_APPROVED = 1, APPROVED_BY_BOT_MANAGER = 2. */
  datatype Approval = No | Automatic | ByManager
  {
    function Code(): (c: nat)
      ensures c <= 2
      ensures (c == 0) == (this == No)
    {
      match this
      case No => 0
      case Automatic => 1
      case ByManager => 2
    }
  }

  /** A value of request data: JSON (integers only) or an uploaded file. */
  datatype Json =
    | JNull
    | JBool(b: bool)
    | JNum(n: int)
    | JStr(s: string)
    | JArr(items: seq<Json>)
    | JObj(fields: map<string, Json>)
    | JFile(upload: Upload)   // an uploaded file in multipart request data

  /** Python truthiness of a JSON value. */
  predicate Truthy(j: Json)
  {
    match j
    case JNull => false
    case JBool(b) => b
    case JNum(n) => n != 0
    case JStr(s) => s != ""
    case JArr(items) => items != []
    case JObj(fields) => fields != map[]
    case JFile(u) => u.name != ""
  }

  /** dict.get(key, default) */
  function Get(d: map<string, Json>, key: string, default: Json): Json
  {
    if key in d then d[key] else default
  }

  /** A file uploaded with a message (the stored FieldFile). */
  datatype Upload = Upload(name: string, size: int, contentType: string, url: string)

  datatype Participant = Participant(
    id: string,
    conversation: string,
    name: string,
    kind: Kind,
    required: bool)

  /**
   * A stored message. `pk` is the internal integer key, `mId` the externally
   * visible identifier, `quoted` the internal key of the quoted message.
   */
  datatype Message = Message(
    pk: nat,
    mId: string,
    conversation: string,
    mtype: MessageType,
    sender: Option<string>,
    time: int,
    quoted: Option<nat>,
    text: string,
    metadata: map<string, Json>,
    approval: Approval,
    localId: Option<string>,
    sentByManager: bool,
    file: Option<Upload>,
    externalFileUrl: Option<string>,
    originalFileName: Option<string>,
    mimeType: Option<string>,
    options: seq<string>)

  /** A bot class that CHAT_INSTALLED_BOTS / INSTALLED_BOTS can name. */
  datatype BotKind = EchoBot | CalculatorBot | PlainBot | ExternalBot(cls: string)

  /**
   * An installed-bot entry. The newer settings hold (module, class,
   * required, args, kwargs); the older ones (module, class, *a), where an
   * absent `args` or `kwargs` is None here.
   */
  datatype BotSpec = BotSpec(kind: BotKind, required: bool, args: Option<Json>, kwargs: Option<Json>)

  /** The settings the chat core reads. */
  datatype Settings = Settings(
    manager: Option<string>,          // CHAT_BOT_MANAGER
    enableQueue: bool,                // CHAT_ENABLE_QUEUE
    enableRooms: bool,                // CHAT_ENABLE_ROOMS
    limits: map<string, int>,         // CHAT_LIMITS
    installed: map<string, BotSpec>)  // CHAT_INSTALLED_BOTS / INSTALLED_BOTS

  /** `manager and ...`: a configured manager is present and non-empty. */
  predicate ManagerConfigured(s: Settings)
  {
    s.manager.Some? && s.manager.value != ""
  }

  /** One entry of a Django ValidationError's '__all__' list. */
  datatype ErrorItem = ErrorItem(code: Option<string>, uniqueCheck: set<string>)

  datatype Error =
    | ValueError(msg: string)
    | AttributeError(msg: string)       // an attribute read on None, or a missing attribute
    | TypeError(msg: string)
    | KeyError(key: string)
    | StopIteration
    | DoesNotExist(what: string)
    | DjangoValidationError(fieldErrors: set<string>, nonField: seq<ErrorItem>)  // error_dict: the failing fields, then '__all__' 
    | RestValidationError(field: string, msg: string)
    | ParseError(msg: string)
    | PermissionDenied
    | TooLarge(limit: int)              // APIException with status 413

  /** The message of an `.id` read on None. */
  const NoneId := "'NoneType' object has no attribute 'id'"

  /** What the delivery layer is asked to do; nothing here is executed. */
  datatype Effect =
    | BroadcastMessage(conversation: string, pk: nat, humansOnly: bool)
    | MessageToManager(conversation: string, pk: nat)
    | WsMessageToBot(conversation: string, carried: Option<nat>, target: string, overrides: Json)
    | BroadcastState(conversation: string, participants: seq<Participant>)
    | DeliverMessage(bot: string, pk: nat, overrides: Json, queued: bool)
    | DeliverStatus(bot: string, participants: seq<Participant>, queued: bool)
    | InvokeBot(bot: string, pk: nat, args: Json, kwargs: Json)
    | GroupAdd(group: string)
    | GroupDiscard(group: string)

  /** A callback registered with transaction.on_commit. */
  datatype Deferred =
    | FanOut(pk: nat)
    | Redirect(pk: nat, targets: Json, overrides: Json)

  function Digit(d: nat): char
    requires d < 10
  {
    "0123456789"[d]
  }

  /** str(n) for a natural number. */
  function NatText(n: nat): (s: string)
    ensures |s| > 0
    decreases n
  {
    if n < 10 then [Digit(n)] else NatText(n / 10) + [Digit(n % 10)]
  }

  /** The identifier the store gives the n-th created row (uuid4 in the source). */
  function NewId(n: nat): string
  {
    "id-" + NatText(n)
  }

  /** Concatenation regroups freely. */
  lemma AppendAssoc<T>(a: seq<T>, b: seq<T>, c: seq<T>)
    ensures a + b + c == a + (b + c)
  {
  }

  // ---------------------------------------------------------------- Python text helpers

  /** str.isspace() for one character. */
  predicate IsSpace(c: char)
  {
    var k := c as int;
    || 9 <= k <= 13 || 28 <= k <= 32 || k == 0x85 || k == 0xA0 || k == 0x1680
    || 0x2000 <= k <= 0x200A || k == 0x2028 || k == 0x2029 || k == 0x202F
    || k == 0x205F || k == 0x3000
  }

  function TrimStart(s: string): (r: string)
    ensures |r| <= |s| && r == s[|s| - |r|..]
    ensures r != [] ==> !IsSpace(r[0])
  {
    if s != [] && IsSpace(s[0]) then TrimStart(s[1..]) else s
  }

  function TrimEnd(s: string): (r: string)
    ensures |r| <= |s| && r == s[..|r|]
    ensures r != [] ==> !IsSpace(r[|r| - 1])
  {
    if s != [] && IsSpace(s[|s| - 1]) then TrimEnd(s[..|s| - 1]) else s
  }

  /** str.strip(): the text without leading and trailing white space. */
  function Strip(s: string): (r: string)
    ensures r != [] ==> !IsSpace(r[0]) && !IsSpace(r[|r| - 1])
  {
    TrimEnd(TrimStart(s))
  }

  /** Every character of `x` is white space. */
  predicate AllSpace(x: string)
  {
    forall i :: 0 <= i < |x| ==> IsSpace(x[i])
  }

  /** lstrip removes only white space: the dropped prefix is all spaces. */
  lemma {:induction false} TrimStartDropsSpace(s: string)
    ensures AllSpace(s[..|s| - |TrimStart(s)|])
  {
    if s != [] && IsSpace(s[0]) {
      var k := |s| - |TrimStart(s)|;
      TrimStartDropsSpace(s[1..]);
      assert s[..k] == [s[0]] + s[1..][..k - 1];
    }
  }

  /** rstrip removes only white space: the dropped suffix is all spaces. */
  lemma {:induction false} TrimEndDropsSpace(s: string)
    ensures AllSpace(s[|TrimEnd(s)|..])
  {
    if s != [] && IsSpace(s[|s| - 1]) {
      var s' := s[..|s| - 1];
      TrimEndDropsSpace(s');
      assert s[|TrimEnd(s)|..] == s'[|TrimEnd(s')|..] + [s[|s| - 1]];
    }
  }

  /**
   * strip removes only white space: lstrip's dropped prefix of `s`, then
   * rstrip's dropped suffix of what lstrip kept, are all spaces.
   */
  lemma StripDropsSpace(s: string)
    ensures var t := TrimStart(s);
            && Strip(s) == t[..|Strip(s)|]
            && AllSpace(s[..|s| - |t|]) && AllSpace(t[|Strip(s)|..])
  {
    TrimStartDropsSpace(s);
    TrimEndDropsSpace(TrimStart(s));
  }
}
