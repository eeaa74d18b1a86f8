/**
 * The message serialiser of the older tree (blab-controller/chat/serializers.py):
 * per-field conditions that decide which fields a message or a request
 * dictionary carries, the conversion of request data into the values the
 * store saves, the size limits on uploads, the representation sent to
 * clients, and the classification of a failed save as an ignorable duplicate.
 */
module Serializers {
  import opened Domain
  import opened Models

  /** The conditions MessageSerializer attaches to its fields. */
  datatype Condition =
    | Always                     // the default of ConditionalFields.__getitem__
    | OnlyType(t: MessageType)   // _only_type(t)
    | OnlyNotType(t: MessageType) // _only_not_type(t)
    | WithFile                   // _only_with_file
    | WithOptions                // _only_with_options

  /** A condition is applied to a stored message or to a request dictionary. */
  datatype Subject = Instance(m: Message) | Dict(d: map<string, Json>)

  /** The message type whose stored code is `code`, if any. */
  function CodeType(code: string): (r: Option<MessageType>)
    ensures r.Some? ==> TypeCode(r.value) == code
    ensures r.None? ==> forall t: MessageType :: TypeCode(t) != code
  {
    if code == "S" then Some(System)
    else if code == "T" then Some(Text)
    else if code == "V" then Some(Voice)
    else if code == "M" then Some(Media)
    else if code == "A" then Some(Attachment)
    else if code == "a" then Some(Audio)
    else if code == "v" then Some(Video)
    else if code == "I" then Some(Image)
    else None
  }

  /**
   * The type a condition compares: `m.type` of a message, or the value under
   * "type" of a dictionary when it is a type code (a text choice compares
   * equal to its code and to nothing else).
   */
  function SubjectType(s: Subject): Option<MessageType>
  {
    match s
    case Instance(m) => Some(m.mtype)
    case Dict(d) => if "type" in d && d["type"].JStr? then CodeType(d["type"].s) else None
  }

  /** The types whose messages carry a file. */
  const FileTypes: set<MessageType> := {Attachment, Voice, Audio, Video, Image}

  predicate Holds(c: Condition, s: Subject)
  {
    match c
    case Always => true
    case OnlyType(t) => SubjectType(s) == Some(t)
    case OnlyNotType(t) => SubjectType(s) != Some(t)
    case WithFile => SubjectType(s).Some? && SubjectType(s).value in FileTypes
    case WithOptions =>
      match s
      // `m.options` is the manager of the reverse relation, an object Python treats as true
      case Instance(_) => true
      case Dict(d) => Truthy(Get(d, "options", JArr([])))
  }

  /** _only_with_file is false exactly for SYSTEM, TEXT and MEDIA and for a dictionary without a type code. */
  lemma WithFileTypes(s: Subject)
    ensures Holds(WithFile, s) <==>
              SubjectType(s).Some? && SubjectType(s).value !in {System, Text, Media}
  {
    if SubjectType(s).Some? {
      match SubjectType(s).value
      case System =>
      case Text =>
      case Voice =>
      case Media =>
      case Attachment =>
      case Audio =>
      case Video =>
      case Image =>
    }
  }

  /** `_only_not_type(t)` is the negation of `_only_type(t)`; a dictionary with no "type" is "not t" for every t. */
  lemma NotTypeNegates(t: MessageType, s: Subject)
    ensures Holds(OnlyNotType(t), s) <==> !Holds(OnlyType(t), s)
    ensures s.Dict? && "type" !in s.d ==> Holds(OnlyNotType(t), s) && !Holds(OnlyType(t), s)
  {
  }

  /** `self._conditions.get(field_name, lambda _m: True)` */
  function LookupIn(conditions: map<string, Condition>, field: string): (c: Condition)
    ensures field !in conditions ==> c == Always
    ensures field in conditions ==> c == conditions[field]
  {
    if field in conditions then conditions[field] else Always
  }

  /** Registering a field replaces its condition and leaves every other field's condition alone. */
  lemma RegisterReplaces(conditions: map<string, Condition>, field: string, c: Condition, other: string)
    ensures LookupIn(conditions[field := c], field) == c
    ensures other != field ==> LookupIn(conditions[field := c], other) == LookupIn(conditions, other)
  {
  }

  /** ConditionalFields: a mutable map from field names to conditions. */
  class ConditionalFields {
    var conditions: map<string, Condition>

    constructor ()
      ensures conditions == map[]
    {
      conditions := map[];
    }

    /** __call__(field_name, condition) */
    method Register(field: string, c: Condition)
      modifies this
      ensures conditions == old(conditions)[field := c]
    {
      conditions := conditions[field := c];
    }

    /** __getitem__(field_name) */
    function Lookup(field: string): (c: Condition)
      reads this
      ensures field !in conditions ==> c == Always
    {
      LookupIn(conditions, field)
    }
  }

  /** The conditions MessageSerializer registers while its class body runs. */
  function MessageConditionTable(): map<string, Condition>
  {
    map[
      "additional_metadata" := OnlyType(System),
      "event" := OnlyType(System),
      "quoted_message_id" := OnlyNotType(System),
      "sender_id" := OnlyNotType(System),
      "local_id" := OnlyNotType(System),
      "text" := OnlyNotType(System),
      "file_url" := WithFile,
      "file_size" := WithFile,
      "file_name" := WithFile,
      "file" := WithFile,
      "options" := WithOptions]
  }

  /** The class body of MessageSerializer: its conditional(...) calls, in order. */
  method MessageSerializerConditions() returns (cf: ConditionalFields)
    ensures fresh(cf)
    ensures cf.conditions == MessageConditionTable()
  {
    cf := new ConditionalFields();
    cf.Register("additional_metadata", OnlyType(System));
    cf.Register("event", OnlyType(System));
    cf.Register("quoted_message_id", OnlyNotType(System));
    cf.Register("sender_id", OnlyNotType(System));
    cf.Register("local_id", OnlyNotType(System));
    cf.Register("text", OnlyNotType(System));
    cf.Register("file_url", WithFile);
    cf.Register("file_size", WithFile);
    cf.Register("file_name", WithFile);
    cf.Register("file", WithFile);
    cf.Register("options", WithOptions);
  }

  // ---------------------------------------------------------------- file names

  /** The position of the last `c` in `s`, if any. */
  function LastIndex(s: string, c: char): (r: Option<nat>)
    ensures r.Some? ==> r.value < |s| && s[r.value] == c
    ensures r.Some? ==> forall k :: r.value < k < |s| ==> s[k] != c
    ensures r.None? ==> forall k :: 0 <= k < |s| ==> s[k] != c
  {
    if s == [] then None
    else if s[|s| - 1] == c then Some(|s| - 1)
    else LastIndex(s[..|s| - 1], c)
  }

  /** s.rsplit(c, 1)[0] */
  function BeforeLast(s: string, c: char): string
  {
    match LastIndex(s, c)
    case None => s
    case Some(i) => s[..i]
  }

  /** s.rsplit(c, 1)[-1] */
  function AfterLast(s: string, c: char): string
  {
    match LastIndex(s, c)
    case None => s
    case Some(i) => s[i + 1..]
  }

  /** The name get_file_name derives from an external URL. */
  function UrlFileName(url: string): (name: string)
    ensures forall k :: 0 <= k < |name| ==> name[k] != '/'
  {
    AfterLast(BeforeLast(url, '?'), '/')
  }

  /** The last occurrence of `c` is the one at `i` when nothing after `i` is a `c`. */
  lemma LastIndexAt(s: string, c: char, i: nat)
    requires i < |s| && s[i] == c
    requires forall k :: i < k < |s| ==> s[k] != c
    ensures LastIndex(s, c) == Some(i)
  {
  }

  /** A URL ".../name?query" names the file `name`, whatever the query holds besides '?'. */
  lemma {:induction false} UrlFileNameWithQuery(prefix: string, name: string, query: string)
    requires forall k :: 0 <= k < |name| ==> name[k] != '/'
    requires forall k :: 0 <= k < |query| ==> query[k] != '?'
    ensures UrlFileName(prefix + "/" + name + "?" + query) == name
  {
    var url := prefix + "/" + name + "?" + query;
    var q := |prefix| + 1 + |name|;
    assert url[q] == '?';
    forall k | q < k < |url| ensures url[k] != '?' {
      assert url[k] == query[k - q - 1];
    }
    LastIndexAt(url, '?', q);
    var path := url[..q];
    assert path == prefix + "/" + name;
    assert path[|prefix|] == '/';
    forall k | |prefix| < k < |path| ensures path[k] != '/' {
      assert path[k] == name[k - |prefix| - 1];
    }
    LastIndexAt(path, '/', |prefix|);
    assert path[|prefix| + 1..] == name;
  }

  /** A URL ".../name" without any '?' names the file `name`. */
  lemma {:induction false} UrlFileNameWithoutQuery(prefix: string, name: string)
    requires forall k :: 0 <= k < |name| ==> name[k] != '/' && name[k] != '?'
    requires forall k :: 0 <= k < |prefix| ==> prefix[k] != '?'
    ensures UrlFileName(prefix + "/" + name) == name
  {
    var url := prefix + "/" + name;
    forall k | 0 <= k < |url| ensures url[k] != '?' {
      if k < |prefix| {
        assert url[k] == prefix[k];
      } else if k > |prefix| {
        assert url[k] == name[k - |prefix| - 1];
      }
    }
    assert BeforeLast(url, '?') == url;
    assert url[|prefix|] == '/';
    forall k | |prefix| < k < |url| ensures url[k] != '/' {
      assert url[k] == name[k - |prefix| - 1];
    }
    LastIndexAt(url, '/', |prefix|);
    assert url[|prefix| + 1..] == name;
  }

  /** `if message.file:` — a stored file is true when it has a name. */
  predicate HasFile(m: Message)
  {
    m.file.Some? && m.file.value.name != ""
  }

  /** MessageSerializer.get_file_name */
  function GetFileName(m: Message): (r: Option<string>)
    ensures m.mtype !in FileTypes ==> r == None
    ensures m.mtype in FileTypes && HasFile(m) ==> r == m.originalFileName
    ensures m.mtype in FileTypes && !HasFile(m) ==>
              (r.Some? <==> m.externalFileUrl.Some? && m.externalFileUrl.value != "")
    ensures r.Some? && !HasFile(m) ==>
              forall k :: 0 <= k < |r.value| ==> r.value[k] != '/'
  {
    if !Holds(WithFile, Instance(m)) then None
    else if HasFile(m) then m.originalFileName
    else if m.externalFileUrl.Some? && m.externalFileUrl.value != "" then
      Some(UrlFileName(m.externalFileUrl.value))
    else None
  }

  /** MessageSerializer.get_file_url */
  function GetFileUrl(m: Message): (r: Option<string>)
    ensures m.mtype !in FileTypes ==> r == None
    ensures m.mtype in FileTypes && HasFile(m) ==> r == Some(m.file.value.url)
    ensures m.mtype in FileTypes && !HasFile(m) ==>
              (r.Some? <==> m.externalFileUrl.Some? && m.externalFileUrl.value != "")
    ensures r.Some? && !HasFile(m) ==> r == m.externalFileUrl
  {
    if !Holds(WithFile, Instance(m)) then None
    else if HasFile(m) then Some(m.file.value.url)
    else if m.externalFileUrl.Some? && m.externalFileUrl.value != "" then m.externalFileUrl
    else None
  }

  // ---------------------------------------------------------------- create

  /** The CHAT_LIMITS key that bounds uploads of type `t`, if any. */
  function LimitKey(t: MessageType): (k: Option<string>)
    ensures k.Some? <==> t in FileTypes
  {
    match t
    case Attachment => Some("MAX_ATTACHMENT_SIZE")
    case Audio => Some("MAX_AUDIO_SIZE")
    case Video => Some("MAX_VIDEO_SIZE")
    case Image => Some("MAX_IMAGE_SIZE")
    case Voice => Some("MAX_VOICE_SIZE")
    case _ => None
  }

  /** The upload limit for a message type; a missing key or a type without a key means 0. */
  function FileLimit(t: Option<MessageType>, limits: map<string, int>): (limit: int)
    ensures t.None? || t.value !in FileTypes ==> limit == 0
    ensures t.Some? && LimitKey(t.value).Some? && LimitKey(t.value).value !in limits ==> limit == 0
    ensures t.Some? && LimitKey(t.value).Some? && LimitKey(t.value).value in limits ==>
              limit == limits[LimitKey(t.value).value]
  {
    if t.None? then 0
    else match LimitKey(t.value)
      case None => 0
      case Some(k) => if k in limits then limits[k] else 0
  }

  /** The type code a validated dictionary carries, if any. */
  function DictType(d: map<string, Json>): Option<MessageType>
  {
    SubjectType(Dict(d))
  }

  /** The error MessageSerializer.create raises before it writes anything, if any. */
  function CreateRejection(d: map<string, Json>, limits: map<string, int>): (r: Option<Error>)
    ensures DictType(d) == Some(System) ==>
              r == Some(RestValidationError("type", NoSystemMessages))
    ensures DictType(d) != Some(System) ==>
              (r.None? <==> !(Truthy(Get(d, "file", JNull)) && Get(d, "file", JNull).JFile?
                              && Get(d, "file", JNull).upload.size > FileLimit(DictType(d), limits)))
    ensures r.Some? && DictType(d) != Some(System) ==>
              r == Some(TooLarge(FileLimit(DictType(d), limits)))
  {
    if DictType(d) == Some(System) then
      Some(RestValidationError("type", NoSystemMessages))
    else
      var f := Get(d, "file", JNull);
      var limit := FileLimit(DictType(d), limits);
      if Truthy(f) && f.JFile? && f.upload.size > limit then Some(TooLarge(limit)) else None
  }

  /** A file with no type limit configured is refused as soon as it is not empty. */
  lemma UnlimitedTypeRefusesFiles(d: map<string, Json>, limits: map<string, int>, u: Upload)
    requires DictType(d).Some? && DictType(d).value in {Text, Media}
    requires "file" in d && d["file"] == JFile(u) && u.name != "" && u.size > 0
    ensures CreateRejection(d, limits) == Some(TooLarge(0))
  {
  }

  /** The option texts of validated `options` entries, in order. */
  function OptionTexts(items: seq<Json>): (texts: seq<string>)
    ensures |texts| <= |items|
  {
    if items == [] then []
    else
      var o := items[0];
      var rest := OptionTexts(items[1..]);
      if o.JObj? && "option_text" in o.fields && o.fields["option_text"].JStr? then
        [o.fields["option_text"].s] + rest
      else rest
  }

  /** An optional text field of the validated data: a string, or null / absent. */
  function OptText(d: map<string, Json>, key: string): Option<string>
  {
    if key in d && d[key].JStr? then Some(d[key].s) else None
  }

  /** The approval status a validated value names, if it is one of 0, 1, 2. */
  function ApprovalOf(j: Json): Option<Approval>
  {
    if j == JNum(0) then Some(No)
    else if j == JNum(1) then Some(Automatic)
    else if j == JNum(2) then Some(ByManager)
    else None
  }

  /** The row `m` stores the conversation, sender and approval status that `d` names. */
  predicate Carries(m: Message, d: map<string, Json>)
  {
    && Get(d, "conversation_id", JNull) == JStr(m.conversation)
    && m.sender == OptText(d, "sender_id")
    && ApprovalOf(Get(d, "approval_status", JNum(0))) == Some(m.approval)
  }

  /**
   * Message(**validated_data): the unsaved row, or None when a field fails
   * its own validation (an unknown type, a non-text conversation id, an
   * approval status outside 0..2).
   */
  function DraftOf(d: map<string, Json>, options: seq<Json>): (r: Option<Message>)
    ensures r.Some? ==> DictType(d) == Some(r.value.mtype) && Carries(r.value, d)
    ensures r.Some? ==> r.value.sender == OptText(d, "sender_id")
                        && r.value.localId == OptText(d, "local_id")
                        && r.value.options == OptionTexts(options)
  {
    var t := DictType(d);
    var conv := Get(d, "conversation_id", JNull);
    var approval := ApprovalOf(Get(d, "approval_status", JNum(0)));
    if t.None? || !conv.JStr? || approval.None? then None
    else
      var file := Get(d, "file", JNull);
      var quoted := Get(d, "quoted_message_id", JNull);
      var text := Get(d, "text", JStr(""));
      Some(Message(
        pk := 0, mId := "", conversation := conv.s, mtype := t.value,
        sender := OptText(d, "sender_id"), time := 0,
        quoted := if quoted.JNum? && quoted.n >= 0 then Some(quoted.n) else None,
        text := if text.JStr? then text.s else "",
        metadata := map[], approval := approval.value,
        localId := OptText(d, "local_id"),
        sentByManager := Get(d, "sent_by_manager", JBool(false)) == JBool(true),
        file := if file.JFile? && file.upload.name != "" then Some(file.upload) else None,
        externalFileUrl := OptText(d, "external_file_url"),
        originalFileName := OptText(d, "original_file_name"),
        mimeType := OptText(d, "mime_type"),
        options := OptionTexts(options)))
  }

  /**
   * MessageSerializer.create: refuse system messages and oversized files,
   * then save the message with its options. A failed field validation
   * raises Django's ValidationError with no non-field entries.
   */
  method Create(db: Database, d: map<string, Json>, limits: map<string, int>) returns (r: Result<Message>)
    requires db.Valid()
    modifies db`messages, db`nextKey, db`clock
    ensures db.Valid()
    ensures CreateRejection(d, limits).Some? ==>
              r == Failure(CreateRejection(d, limits).value) && db.messages == old(db.messages)
    ensures var options := if "options" in d && d["options"].JArr? then d["options"].items else [];
            CreateRejection(d, limits).None? && DraftOf(d - {"options"}, options).None? ==>
              r == Failure(DjangoValidationError({}, [])) && db.messages == old(db.messages)
    ensures var options := if "options" in d && d["options"].JArr? then d["options"].items else [];
            var draft := DraftOf(d - {"options"}, options);
            CreateRejection(d, limits).None? && draft.Some? ==>
              var m := Stamp(draft.value, |old(db.messages)|, old(db.nextKey), old(db.clock));
              var err := FullClean(m, old(db.messages), old(db.participants));
              if err.None? then r == Success(m) && db.messages == old(db.messages) + [m]
              else r == Failure(err.value) && db.messages == old(db.messages)
    ensures r.Success? ==> Carries(r.value, d)
  {
    var rejection := CreateRejection(d, limits);
    if rejection.Some? {
      return Failure(rejection.value);
    }
    var options := if "options" in d && d["options"].JArr? then d["options"].items else [];
    var draft := DraftOf(d - {"options"}, options);
    if draft.None? {
      return Failure(DjangoValidationError({}, []));
    }
    r := db.SaveMessage(draft.value);
  }

  // ---------------------------------------------------------------- to_internal_value

  /** MessageOptionSerializer.to_internal_value: a bare string becomes an option at position 0. */
  function OptionToInternal(o: Json): (r: Json)
    ensures o.JStr? ==> r.JObj? && r.fields.Keys == {"option_text", "position"}
                        && r.fields["option_text"] == o && r.fields["position"] == JNum(0)
    ensures !o.JStr? ==> r == o
  {
    if o.JStr? then JObj(map["option_text" := o, "position" := JNum(0)]) else o
  }

  /** The writable fields ModelSerializer.to_internal_value keeps as they are. */
  const PlainFields: set<string> := {"type", "text", "local_id", "file"}

  /** The entries of `d` whose field condition holds for `s`. */
  function Passing(conditions: map<string, Condition>, d: map<string, Json>, s: Subject): map<string, Json>
  {
    map f | f in d && Holds(LookupIn(conditions, f), s) :: d[f]
  }

  /** The request data left after popping every field whose condition fails on it. */
  function Kept(conditions: map<string, Condition>, data: map<string, Json>): map<string, Json>
  {
    Passing(conditions, data, Dict(data))
  }

  // ---- the REST framework's error messages
  const NoSystemMessages := "You cannot create system messages."
  const NotAValidString := "Not a valid string."
  const MayNotBeNull := "This field may not be null."
  const FieldRequired := "This field is required."
  const NotAFile := "The submitted data was not a file. Check the encoding type on the form."
  const ExpectedList := "Expected a list of items."
  const QuotedMissing := "The quoted message does not exist."
  const TooLongStart := "Ensure this field has no more than "
  const TooLongEnd := " characters."

  /** The max_length of the text and local_id columns. */

  /**
   * A model CharField as the REST framework validates it: None only where
   * the column is nullable, a string or a number (made text by `str`) and
   * nothing else, white space trimmed, then at most `maxLength` characters.
   */
  function CharValue(field: string, j: Json, maxLength: nat, allowNull: bool,
                     pyStr: Json -> string): (r: Result<Json>)
    ensures r.Success? ==> (j == JNull && allowNull && r.value == JNull)
                           || (r.value.JStr? && |r.value.s| <= maxLength)
    ensures j.JStr? ==> (r.Success? <==> |Strip(j.s)| <= maxLength)
    ensures j.JStr? && r.Success? ==> r.value == JStr(Strip(j.s))
    ensures j.JNull? ==> (r.Success? <==> allowNull)
    ensures (j.JBool? || j.JArr? || j.JObj? || j.JFile?) ==>
              r == Failure(RestValidationError(field, NotAValidString))
    ensures r.Failure? ==> r.error.RestValidationError? && r.error.field == field
  {
    if j.JNull? then
      if allowNull then Success(JNull) else Failure(RestValidationError(field, MayNotBeNull))
    else if !(j.JStr? || j.JNum?) then Failure(RestValidationError(field, NotAValidString))
    else
      var v := Strip(StrOf(j, pyStr));
      if |v| > maxLength then
        Failure(RestValidationError(field, TooLongStart + NatText(maxLength) + TooLongEnd))
      else Success(JStr(v))
  }

  /**
   * The required `type` choice field: not None, and `str` of the value is
   * one of the type codes, which becomes the internal value.
   */
  function TypeValue(j: Json, pyStr: Json -> string): (r: Result<Json>)
    ensures r.Success? <==> !j.JNull? && CodeType(StrOf(j, pyStr)).Some?
    ensures r.Success? ==> r.value == JStr(StrOf(j, pyStr))
    ensures j.JStr? && r.Success? ==> r.value == j
    ensures r.Failure? ==> r.error.RestValidationError? && r.error.field == "type"
  {
    if j.JNull? then Failure(RestValidationError("type", MayNotBeNull))
    else if CodeType(StrOf(j, pyStr)).Some? then Success(JStr(StrOf(j, pyStr)))
    else Failure(RestValidationError("type", "\"" + StrOf(j, pyStr) + "\" is not a valid choice."))
  }

  /** What the base class makes of the writable field `f`: type and the text columns are validated. */
  function BaseValue(f: string, j: Json, pyStr: Json -> string): Result<Json>
  {
    if f == "type" then TypeValue(j, pyStr)
    else if f == "text" then CharValue("text", j, TextMaxLength, false, pyStr)
    else if f == "local_id" then CharValue("local_id", j, LocalIdMaxLength, true, pyStr)
    else Success(j)
  }

  /**
   * The first error the base class's field validation finds, in the
   * serializer's field order: the required type, the local id, the text,
   * the file and the options.
   */
  function FieldError(kept: map<string, Json>, pyStr: Json -> string): (r: Option<Error>)
    ensures r.None? ==> "type" in kept
    ensures "type" !in kept ==> r == Some(RestValidationError("type", FieldRequired))
    ensures r.None? ==> "options" in kept ==> kept["options"].JArr?
  {
    if "type" !in kept then Some(RestValidationError("type", FieldRequired))
    else if TypeValue(kept["type"], pyStr).Failure? then Some(TypeValue(kept["type"], pyStr).error)
    else if "local_id" in kept && BaseValue("local_id", kept["local_id"], pyStr).Failure? then
      Some(BaseValue("local_id", kept["local_id"], pyStr).error)
    else if "text" in kept && BaseValue("text", kept["text"], pyStr).Failure? then
      Some(BaseValue("text", kept["text"], pyStr).error)
    else if "file" in kept && Truthy(kept["file"]) && !kept["file"].JFile? then
      Some(RestValidationError("file", NotAFile))
    else if "options" in kept && !kept["options"].JArr? then
      Some(RestValidationError("options", ExpectedList))
    else None
  }

  /** Once no field failed, every writable field present passes the base class's validation. */
  lemma FieldsValid(kept: map<string, Json>, pyStr: Json -> string)
    requires FieldError(kept, pyStr).None?
    ensures forall f :: f in kept && f in PlainFields ==> BaseValue(f, kept[f], pyStr).Success?
  {
    forall f | f in kept && f in PlainFields
      ensures BaseValue(f, kept[f], pyStr).Success?
    {
      assert f == "type" || f == "text" || f == "local_id" || f == "file";
    }
  }

  /** The writable fields as the base class leaves them, once none of them failed. */
  function BaseFields(kept: map<string, Json>, pyStr: Json -> string): map<string, Json>
    requires FieldError(kept, pyStr).None?
  {
    FieldsValid(kept, pyStr);
    map f | f in kept && f in PlainFields :: BaseValue(f, kept[f], pyStr).value
  }

  /**
   * The quoted message named by `quoted_message_id`: none for a false value,
   * the row with that external id, or a ValidationError. Identifiers are
   * opaque strings here, so a number never names a message.
   */
  function ResolveQuoted(q: Json, rows: seq<Message>): (r: Result<Option<nat>>)
    ensures !Truthy(q) ==> r == Success(None)
    ensures r.Success? && r.value.Some? ==>
              q.JStr? && r.value.value < |rows| && rows[r.value.value].mId == q.s
    ensures Truthy(q) && (q.JStr? || q.JNum?) && r.Failure? ==>
              r.error == RestValidationError("quoted_message_id", QuotedMissing)
  {
    if !Truthy(q) then Success(None)
    else if q.JNum? then
      Failure(RestValidationError("quoted_message_id", QuotedMissing))
    else if !q.JStr? then Failure(RestValidationError("quoted_message_id", NotAValidString))
    else match FindByMId(rows, q.s)
      case Some(k) => Success(Some(k))
      case None => Failure(RestValidationError("quoted_message_id", QuotedMissing))
  }

  /** Message.objects.get(m_id=...) over the stored rows: the index of the first match. */
  function FindByMId(rows: seq<Message>, mId: string): (r: Option<nat>)
    ensures r.Some? ==> r.value < |rows| && rows[r.value].mId == mId
    ensures r.None? ==> forall k :: 0 <= k < |rows| ==> rows[k].mId != mId
  {
    if rows == [] then None
    else if rows[|rows| - 1].mId == mId then
      match FindByMId(rows[..|rows| - 1], mId)
      case Some(k) => Some(k)
      case None => Some(|rows| - 1)
    else FindByMId(rows[..|rows| - 1], mId)
  }

  /** str(o): a string is itself, any other value goes through Python's str. */
  function StrOf(o: Json, pyStr: Json -> string): string
  {
    if o.JStr? then o.s else pyStr(o)
  }

  /** The options list to_internal_value builds: entries numbered from 1 in input order. */
  function NumberOptions(items: seq<Json>, pyStr: Json -> string): (r: seq<Json>)
    ensures |r| == |items|
    ensures forall i :: 0 <= i < |items| ==>
              r[i] == JObj(map["option_text" := JStr(StrOf(items[i], pyStr)), "position" := JNum(i + 1)])
  {
    seq(|items|, i requires 0 <= i < |items| =>
      JObj(map["option_text" := JStr(StrOf(items[i], pyStr)), "position" := JNum(i + 1)]))
  }

  /** Entries that all hold a text `option_text` give exactly those texts, in order. */
  lemma {:induction false} OptionTextsOfObjects(xs: seq<Json>)
    requires forall i :: 0 <= i < |xs| ==>
               xs[i].JObj? && "option_text" in xs[i].fields && xs[i].fields["option_text"].JStr?
    ensures OptionTexts(xs) == seq(|xs|, i requires 0 <= i < |xs| => xs[i].fields["option_text"].s)
  {
    if xs != [] {
      OptionTextsOfObjects(xs[1..]);
    }
  }

  /**
   * The options a created message stores are the request's entries, each
   * as `str` gives it, in request order: one text per entry.
   */
  lemma OptionTextsNumbered(items: seq<Json>, pyStr: Json -> string)
    ensures OptionTexts(NumberOptions(items, pyStr)) == seq(|items|, i requires 0 <= i < |items| => StrOf(items[i], pyStr))
  {
    OptionTextsOfObjects(NumberOptions(items, pyStr));
  }

  /** The file fields to_internal_value derives from an upload and an external URL. */
  function FileFields(kept: map<string, Json>): (r: map<string, Json>)
    ensures r.Keys <= {"file_size", "mime_type", "original_file_name", "external_file_url"}
  {
    var f := Get(kept, "file", JNull);
    var url := Get(kept, "external_file_url", JNull);
    var fromUpload :=
      if Truthy(f) && f.JFile? then
        map["file_size" := JNum(f.upload.size), "mime_type" := JStr(f.upload.contentType),
            "original_file_name" := JStr(f.upload.name)]
      else map[];
    if !Holds(WithFile, Dict(kept)) then map[]
    else if Truthy(url) then fromUpload["external_file_url" := url]
    else fromUpload
  }

  /** What MessageSerializer.to_internal_value returns for `data`. */
  function InternalValue(conditions: map<string, Condition>, data: map<string, Json>,
                         rows: seq<Message>, pyStr: Json -> string): Result<map<string, Json>>
  {
    var kept := Kept(conditions, data);
    if FieldError(kept, pyStr).Some? then Failure(FieldError(kept, pyStr).value)
    else
      var quoted :- ResolveQuoted(Get(kept, "quoted_message_id", JNull), rows);
      if "conversation_id" !in kept then Failure(KeyError("conversation_id"))
      else if "sender_id" !in kept then Failure(KeyError("sender_id"))
      else Success(Assembled(kept, quoted, pyStr))
  }

  /**
   * The internal value once every check passed: the writable fields as the
   * base class validated them, the file fields, the resolved quoted message,
   * the fields the controller fills in and the numbered options.
   */
  function Assembled(kept: map<string, Json>, quoted: Option<nat>, pyStr: Json -> string): map<string, Json>
    requires FieldError(kept, pyStr).None? && "conversation_id" in kept && "sender_id" in kept
  {
    var options := if "options" in kept then kept["options"].items else [];
    var d := BaseFields(kept, pyStr) + FileFields(kept);
    d["quoted_message_id" := (if quoted.Some? then JNum(quoted.value) else JNull)]
     ["conversation_id" := kept["conversation_id"]]
     ["sender_id" := kept["sender_id"]]
     ["approval_status" := Get(kept, "approval_status", JNum(0))]
     ["options" := JArr(NumberOptions(options, pyStr))]
  }

  /**
   * MessageSerializer.to_internal_value: pop every field whose condition
   * fails, let the base class keep the writable fields, resolve the quoted
   * message, add the file fields and the fields the controller fills in,
   * and number the options.
   */
  method ToInternalValue(cf: ConditionalFields, data: map<string, Json>, rows: seq<Message>,
                         pyStr: Json -> string)
    returns (r: Result<map<string, Json>>)
    ensures r == InternalValue(cf.conditions, data, rows, pyStr)
  {
    var kept := DropFailing(cf, data, Dict(data));
    var err := FieldError(kept, pyStr);
    if err.Some? {
      return Failure(err.value);
    }
    var quoted := ResolveQuoted(Get(kept, "quoted_message_id", JNull), rows);
    if quoted.Failure? {
      return Failure(quoted.error);
    }
    if "conversation_id" !in kept {
      return Failure(KeyError("conversation_id"));
    }
    if "sender_id" !in kept {
      return Failure(KeyError("sender_id"));
    }
    var d := BaseFields(kept, pyStr) + FileFields(kept);
    d := d["quoted_message_id" := (if quoted.value.Some? then JNum(quoted.value.value) else JNull)];
    d := d["conversation_id" := kept["conversation_id"]];
    d := d["sender_id" := kept["sender_id"]];
    d := d["approval_status" := Get(kept, "approval_status", JNum(0))];
    var options := AppendOptions(if "options" in kept then kept["options"].items else [], pyStr);
    d := d["options" := JArr(options)];
    r := Success(d);
  }

  /**
   * The first lines of to_internal_value and of to_representation: collect
   * the fields of `d` whose condition fails on `s`, then pop them.
   */
  method DropFailing(cf: ConditionalFields, d: map<string, Json>, s: Subject) returns (kept: map<string, Json>)
    ensures kept == Passing(cf.conditions, d, s)
  {
    // delete = [f for f in d if not conditional[f](s)]
    var delete: set<string> := {};
    var unseen := d.Keys;
    while unseen != {}
      invariant unseen <= d.Keys
      invariant delete == set f | f in d.Keys - unseen && !Holds(LookupIn(cf.conditions, f), s)
      decreases unseen
    {
      var f :| f in unseen;
      if !Holds(cf.Lookup(f), s) {
        delete := delete + {f};
      }
      unseen := unseen - {f};
    }
    // for f in delete: d.pop(f, None)
    kept := d;
    var pending := delete;
    while pending != {}
      invariant pending <= delete
      invariant kept == d - (delete - pending)
      decreases pending
    {
      var f :| f in pending;
      kept := kept - {f};
      pending := pending - {f};
    }
  }

  /** The loop that appends the numbered options. */
  method AppendOptions(items: seq<Json>, pyStr: Json -> string) returns (options: seq<Json>)
    ensures options == NumberOptions(items, pyStr)
  {
    options := [];
    var i := 0;
    while i < |items|
      invariant 0 <= i <= |items|
      invariant options == NumberOptions(items[..i], pyStr)
    {
      options := options + [JObj(map["option_text" := JStr(StrOf(items[i], pyStr)),
                                      "position" := JNum(i + 1)])];
      i := i + 1;
    }
    assert items[..i] == items;
  }

  /**
   * A writable request field reaches the internal value exactly when its
   * condition holds on the request, and then as the base class validated it.
   */
  lemma InternalValuePlainFields(conditions: map<string, Condition>, data: map<string, Json>,
                                 rows: seq<Message>, pyStr: Json -> string, f: string)
    requires f in PlainFields
    ensures var r := InternalValue(conditions, data, rows, pyStr);
            r.Success? ==>
              (f in r.value <==> f in data && Holds(LookupIn(conditions, f), Dict(data)))
              && (f in r.value ==> BaseValue(f, data[f], pyStr) == Success(r.value[f]))
  {
    var r := InternalValue(conditions, data, rows, pyStr);
    var kept := Kept(conditions, data);
    if r.Success? {
      var quoted := ResolveQuoted(Get(kept, "quoted_message_id", JNull), rows).value;
      assert r.value == Assembled(kept, quoted, pyStr);
      var base := BaseFields(kept, pyStr);
      FieldsValid(kept, pyStr);
      assert |f| == 4 || |f| == 8;
      assert f !in FileFields(kept) by {
        forall k | k in FileFields(kept) ensures |k| > 8 { }
      }
      var options := if "options" in kept then kept["options"].items else [];
      ControllerKeysKeep(base + FileFields(kept), f, if quoted.Some? then JNum(quoted.value) else JNull,
                         kept["conversation_id"], kept["sender_id"], Get(kept, "approval_status", JNum(0)),
                         JArr(NumberOptions(options, pyStr)));
    }
  }

  /** The keys the controller fills in are longer than any writable field's name, so they leave those alone. */
  lemma ControllerKeysKeep(d: map<string, Json>, f: string, quoted: Json, conversation: Json, sender: Json,
                           approval: Json, options: Json)
    requires |f| == 4 || |f| == 8
    ensures var u := d["quoted_message_id" := quoted]["conversation_id" := conversation]["sender_id" := sender]
                      ["approval_status" := approval]["options" := options];
            (f in u <==> f in d) && (f in d ==> u[f] == d[f])
  {
  }

  /**
   * The base class's validation: a request without a type is refused, a
   * successful value has a valid type code, a text of at most 4000
   * characters and a local id of at most 32 (or None), all trimmed; a kept
   * text or local id that is too long after trimming is refused.
   */
  lemma InternalValueBaseValidation(conditions: map<string, Condition>, data: map<string, Json>,
                                    rows: seq<Message>, pyStr: Json -> string)
    ensures "type" !in data ==>
              InternalValue(conditions, data, rows, pyStr) == Failure(RestValidationError("type", FieldRequired))
    ensures var r := InternalValue(conditions, data, rows, pyStr);
            r.Success? ==>
              && "type" in r.value && r.value["type"].JStr? && CodeType(r.value["type"].s).Some?
              && ("text" in r.value ==> r.value["text"].JStr? && |r.value["text"].s| <= TextMaxLength)
              && ("local_id" in r.value ==>
                    r.value["local_id"] == JNull
                    || (r.value["local_id"].JStr? && |r.value["local_id"].s| <= LocalIdMaxLength))
    ensures forall f :: f in {"text", "local_id"} && f in data && data[f].JStr?
                        && |Strip(data[f].s)| > (if f == "text" then TextMaxLength else LocalIdMaxLength)
                        && Holds(LookupIn(conditions, f), Dict(data)) ==>
              InternalValue(conditions, data, rows, pyStr).Failure?
  {
    if "type" !in data {
      assert "type" !in Kept(conditions, data);
    }
    forall f | f in {"text", "local_id"} && f in data && data[f].JStr?
                && |Strip(data[f].s)| > (if f == "text" then TextMaxLength else LocalIdMaxLength)
                && Holds(LookupIn(conditions, f), Dict(data))
      ensures InternalValue(conditions, data, rows, pyStr).Failure?
    {
      TooLongRefused(conditions, data, rows, pyStr, f);
    }
    InternalValueBounds(conditions, data, rows, pyStr);
  }

  /** A kept text or local id whose trimmed value is over its column length fails the base validation. */
  lemma TooLongRefused(conditions: map<string, Condition>, data: map<string, Json>,
                       rows: seq<Message>, pyStr: Json -> string, f: string)
    requires f == "text" || f == "local_id"
    requires f in data && data[f].JStr? && Holds(LookupIn(conditions, f), Dict(data))
    requires |Strip(data[f].s)| > (if f == "text" then TextMaxLength else LocalIdMaxLength)
    ensures InternalValue(conditions, data, rows, pyStr).Failure?
  {
    var kept := Kept(conditions, data);
    assert f in kept && kept[f] == data[f];
    assert BaseValue(f, kept[f], pyStr).Failure?;
    assert FieldError(kept, pyStr).Some?;
  }

  /** A successful internal value holds a valid type code and texts within their column lengths. */
  lemma InternalValueBounds(conditions: map<string, Condition>, data: map<string, Json>,
                            rows: seq<Message>, pyStr: Json -> string)
    ensures var r := InternalValue(conditions, data, rows, pyStr);
            r.Success? ==>
              && "type" in r.value && r.value["type"].JStr? && CodeType(r.value["type"].s).Some?
              && ("text" in r.value ==> r.value["text"].JStr? && |r.value["text"].s| <= TextMaxLength)
              && ("local_id" in r.value ==>
                    r.value["local_id"] == JNull
                    || (r.value["local_id"].JStr? && |r.value["local_id"].s| <= LocalIdMaxLength))
  {
    var r := InternalValue(conditions, data, rows, pyStr);
    if r.Success? {
      InternalValuePlainFields(conditions, data, rows, pyStr, "type");
      InternalValuePlainFields(conditions, data, rows, pyStr, "text");
      InternalValuePlainFields(conditions, data, rows, pyStr, "local_id");
      assert "type" in Kept(conditions, data);
    }
  }

  /** The conversation and sender come from the request; the approval status defaults to NO. */
  lemma InternalValueControllerFields(conditions: map<string, Condition>, data: map<string, Json>,
                                      rows: seq<Message>, pyStr: Json -> string)
    ensures var r := InternalValue(conditions, data, rows, pyStr);
            r.Success? ==>
              && r.value["conversation_id"] == data["conversation_id"]
              && r.value["sender_id"] == data["sender_id"]
              && ("approval_status" !in data ==> r.value["approval_status"] == JNum(0))
              && ("approval_status" in data && Holds(LookupIn(conditions, "approval_status"), Dict(data)) ==>
                    r.value["approval_status"] == data["approval_status"])
  {
  }

  /** The options of the request are numbered 1..n in input order. */
  lemma InternalValueOptions(conditions: map<string, Condition>, data: map<string, Json>,
                             rows: seq<Message>, pyStr: Json -> string)
    requires LookupIn(conditions, "options") == WithOptions
    ensures var r := InternalValue(conditions, data, rows, pyStr);
            var items := if "options" in data && data["options"].JArr? then data["options"].items else [];
            r.Success? ==> r.value["options"] == JArr(NumberOptions(items, pyStr))
  {
    var kept := Kept(conditions, data);
    if "options" in data && data["options"].JArr? && data["options"].items != [] {
      assert "options" in kept;
    }
  }

  /** A request quoting an identifier that no stored message has is refused. */
  lemma UnknownQuotedRefused(conditions: map<string, Condition>, data: map<string, Json>,
                             rows: seq<Message>, pyStr: Json -> string, q: string)
    requires "quoted_message_id" in data && data["quoted_message_id"] == JStr(q) && q != ""
    requires Holds(LookupIn(conditions, "quoted_message_id"), Dict(data))
    requires FieldError(Kept(conditions, data), pyStr).None?
    requires forall k :: 0 <= k < |rows| ==> rows[k].mId != q
    ensures InternalValue(conditions, data, rows, pyStr)
            == Failure(RestValidationError("quoted_message_id", QuotedMissing))
  {
    assert Get(Kept(conditions, data), "quoted_message_id", JNull) == JStr(q);
  }

  // ---------------------------------------------------------------- to_representation

  /** The fields of Meta.fields the base class represents (all but the write-only "file"). */
  const ReadableFields: set<string> := {
    "type", "time", "id", "sent_by_human", "event", "additional_metadata",
    "quoted_message_id", "sender_id", "local_id", "text",
    "file_url", "file_size", "file_name", "options"}

  function OptJson(o: Option<string>): Json
  {
    if o.Some? then JStr(o.value) else JNull
  }

  /** The options as the nested serialiser renders them, numbered in stored order. */
  function OptionObjects(texts: seq<string>): (r: seq<Json>)
    ensures |r| == |texts|
    ensures forall i :: 0 <= i < |texts| ==> r[i].JObj? && "option_text" in r[i].fields
                                             && r[i].fields["option_text"] == JStr(texts[i])
  {
    seq(|texts|, i requires 0 <= i < |texts| =>
      JObj(map["option_text" := JStr(texts[i]), "position" := JNum(i + 1)]))
  }

  /** `[o["option_text"] for o in result["options"]]` */
  function FlattenOptions(items: seq<Json>): (r: seq<Json>)
    requires forall i :: 0 <= i < |items| ==> items[i].JObj? && "option_text" in items[i].fields
    ensures |r| == |items|
    ensures forall i :: 0 <= i < |items| ==> r[i] == items[i].fields["option_text"]
  {
    seq(|items|, i requires 0 <= i < |items| => items[i].fields["option_text"])
  }

  /** super().to_representation(instance): every readable field with its value. */
  function BaseRepresentation(m: Message, rows: seq<Message>, ps: seq<Participant>): (r: map<string, Json>)
    ensures r.Keys == ReadableFields
  {
    map[
      "type" := JStr(TypeCode(m.mtype)),
      "time" := JNum(m.time),
      "id" := JStr(m.mId),
      "sent_by_human" := JBool(SentByHuman(m, ps)),
      "event" := JStr(m.text),
      "additional_metadata" := (if m.mtype == System then JObj(m.metadata) else JNull),
      "quoted_message_id" :=
        (if m.quoted.Some? && m.quoted.value < |rows| then JStr(rows[m.quoted.value].mId) else JNull),
      "sender_id" := OptJson(m.sender),
      "local_id" := OptJson(m.localId),
      "text" := JStr(m.text),
      "file_url" := OptJson(GetFileUrl(m)),
      "file_size" := (if HasFile(m) then JNum(m.file.value.size) else JNull),
      "file_name" := OptJson(GetFileName(m)),
      "options" := JArr(OptionObjects(m.options))]
  }

  /** What MessageSerializer.to_representation returns. */
  function Representation(conditions: map<string, Condition>, m: Message, rows: seq<Message>,
                          ps: seq<Participant>): map<string, Json>
  {
    var kept := Passing(conditions, BaseRepresentation(m, rows, ps), Instance(m));
    if "options" in kept then kept["options" := JArr(FlattenOptions(OptionObjects(m.options)))] else kept
  }

  /** MessageSerializer.to_representation: pop the fields whose condition fails, then flatten the options. */
  method ToRepresentation(cf: ConditionalFields, m: Message, rows: seq<Message>, ps: seq<Participant>)
    returns (result: map<string, Json>)
    ensures result == Representation(cf.conditions, m, rows, ps)
  {
    var base := BaseRepresentation(m, rows, ps);
    result := DropFailing(cf, base, Instance(m));
    if "options" in result {
      result := result["options" := JArr(FlattenOptions(OptionObjects(m.options)))];
    }
  }

  /** The readable fields whose condition holds for `m`. */
  function ShownFields(conditions: map<string, Condition>, m: Message): set<string>
  {
    set f | f in ReadableFields && Holds(LookupIn(conditions, f), Instance(m))
  }

  /** A representation carries exactly the readable fields whose condition holds. */
  lemma RepresentationShows(conditions: map<string, Condition>, m: Message, rows: seq<Message>,
                            ps: seq<Participant>)
    ensures Representation(conditions, m, rows, ps).Keys == ShownFields(conditions, m)
  {
  }

  /** MessageSerializer always shows the type, time, id, sender kind and options. */
  lemma CommonFieldsShown(m: Message)
    ensures var s := ShownFields(MessageConditionTable(), m);
            "type" in s && "time" in s && "id" in s && "sent_by_human" in s && "options" in s
  {
  }

  /** The event and its metadata are shown exactly for system messages. */
  lemma SystemFieldsShown(m: Message)
    ensures var s := ShownFields(MessageConditionTable(), m);
            && ("event" in s <==> m.mtype == System)
            && ("additional_metadata" in s <==> m.mtype == System)
  {
  }

  /** The sender, text, local id and quoted id are shown exactly for non-system messages. */
  lemma NonSystemFieldsShown(m: Message)
    ensures var s := ShownFields(MessageConditionTable(), m);
            && ("sender_id" in s <==> m.mtype != System)
            && ("text" in s <==> m.mtype != System)
            && ("local_id" in s <==> m.mtype != System)
            && ("quoted_message_id" in s <==> m.mtype != System)
  {
  }

  /** The file fields are shown exactly for the types that carry a file. */
  lemma FileFieldsShown(m: Message)
    ensures var s := ShownFields(MessageConditionTable(), m);
            && ("file_url" in s <==> m.mtype in FileTypes)
            && ("file_name" in s <==> m.mtype in FileTypes)
            && ("file_size" in s <==> m.mtype in FileTypes)
  {
  }

  /** The options of a representation are the option texts, in stored order. */
  lemma RepresentationOptions(conditions: map<string, Condition>, m: Message, rows: seq<Message>,
                              ps: seq<Participant>)
    requires LookupIn(conditions, "options") == WithOptions
    ensures var r := Representation(conditions, m, rows, ps);
            "options" in r && r["options"].JArr? && |r["options"].items| == |m.options|
            && forall i :: 0 <= i < |m.options| ==> r["options"].items[i] == JStr(m.options[i])
  {
    var kept := Passing(conditions, BaseRepresentation(m, rows, ps), Instance(m));
    assert "options" in kept;
  }

  // ---------------------------------------------------------------- create_message

  /**
   * A Django ValidationError whose only non-field entry is the
   * `local_id_unique` violation: the duplicate create_message ignores.
   */
  predicate IsDuplicateError(e: Error)
  {
    e.DjangoValidationError? && |e.nonField| == 1
    && e.nonField[0].code == Some("unique_together") && e.nonField[0].uniqueCheck == UniqueFields
  }

  /**
   * The outcome of create_message once the save returned `saved`, catching
   * Django's ValidationError: the duplicate yields None, every other error
   * is raised again.
   */
  function CreateMessageOutcome(saved: Result<Message>): (r: Result<Option<Message>>)
    ensures saved.Success? ==> r == Success(Some(saved.value))
    ensures saved.Failure? ==> (r == Success(None) <==> IsDuplicateError(saved.error))
    ensures saved.Failure? && !IsDuplicateError(saved.error) ==> r == Failure(saved.error)
  {
    match saved
    case Success(m) => Success(Some(m))
    case Failure(e) => if IsDuplicateError(e) then Success(None) else Failure(e)
  }

  /**
   * The same outcome as the older serializer module writes it: the `except`
   * names the REST framework's ValidationError, which has no `error_dict`,
   * so nothing is ever ignored.
   */
  function CreateMessageOutcomeAsWritten(saved: Result<Message>): (r: Result<Option<Message>>)
    ensures saved.Success? ==> r == Success(Some(saved.value))
    ensures saved.Failure? ==> r == Failure(saved.error)
  {
    match saved
    case Success(m) => Success(Some(m))
    case Failure(e) =>
      // only RestValidationError is caught; its error_dict is missing, so `err` is empty
      Failure(e)
  }

  /**
   * A failed save is ignored exactly when the message passed clean, its
   * local_id fits, and it collided with a stored message on (conversation,
   * sender, local_id); the other field faults do not stop the dedup.
   */
  lemma DuplicateIgnored(m: Message, rows: seq<Message>, ps: seq<Participant>)
    requires FullClean(m, rows, ps).Some?
    ensures CreateMessageOutcome(Failure(FullClean(m, rows, ps).value)) == Success(None)
            <==> && CleanError(m, ps).None? && "local_id" !in FieldFaults(m)
                 && exists i :: 0 <= i < |rows| && Collides(rows[i], m)
  {
    var e := FullClean(m, rows, ps).value;
    if CleanError(m, ps).Some? {
      assert e.nonField[0] == ErrorItem(None, {});
    } else if "local_id" !in FieldFaults(m) && exists i :: 0 <= i < |rows| && Collides(rows[i], m) {
      assert e.nonField == [UniqueItem];
    } else {
      assert e.nonField == [];
    }
  }

  /** A concrete duplicate: the older serializer raises where the intent was to return None. */
  lemma DuplicateRaisedAsWritten()
    ensures var p := Participant("p", "c", "human", Human, false);
            var first := Message(0, "m0", "c", Text, Some("p"), 0, None, "hi", map[], Automatic,
                                 Some("L"), false, None, None, None, None, []);
            var again := Stamp(first, 1, 1, 1);
            var err := FullClean(again, [first], [p]);
            && err == Some(DjangoValidationError({}, [UniqueItem]))
            && CreateMessageOutcomeAsWritten(Failure(err.value)) == Failure(err.value)
            && CreateMessageOutcome(Failure(err.value)) == Success(None)
  {
    var p := Participant("p", "c", "human", Human, false);
    var first := Message(0, "m0", "c", Text, Some("p"), 0, None, "hi", map[], Automatic,
                         Some("L"), false, None, None, None, None, []);
    var again := Stamp(first, 1, 1, 1);
    assert MemberOf([p], "p", "c") by { assert [p][0] == p; }
    assert Collides([first][0], again);
    assert FieldFaults(again) == {};
    assert CleanError(again, [p]).None?;
    var err := FullClean(again, [first], [p]);
    assert err.Some?;
    assert err.value.nonField == [UniqueItem];
    assert err == Some(DjangoValidationError({}, [UniqueItem]));
  }

  /**
   * create_message: validate the data, create the message, and classify a
   * failure. The post_save receivers run when the atomic block inside
   * `create` commits, that is right after this returns; callers model them.
   */
  method CreateMessage(db: Database, cf: ConditionalFields, data: map<string, Json>,
                       limits: map<string, int>, pyStr: Json -> string)
    returns (r: Result<Option<Message>>)
    requires db.Valid()
    modifies db`messages, db`nextKey, db`clock
    ensures db.Valid()
    ensures InternalValue(cf.conditions, data, old(db.messages), pyStr).Failure? ==>
              r == Failure(InternalValue(cf.conditions, data, old(db.messages), pyStr).error)
              && db.messages == old(db.messages)
    ensures r.Success? && r.value.Some? ==>
              db.messages == old(db.messages) + [r.value.value]
    ensures r.Failure? || r.value.None? ==> db.messages == old(db.messages)
    ensures r.Success? && r.value.Some? ==>
              InternalValue(cf.conditions, data, old(db.messages), pyStr).Success?
              && Carries(r.value.value, InternalValue(cf.conditions, data, old(db.messages), pyStr).value)
  {
    var v := ToInternalValue(cf, data, db.messages, pyStr);
    if v.Failure? {
      return Failure(v.error);
    }
    var saved := Create(db, v.value, limits);
    r := CreateMessageOutcome(saved);
  }
}
