/**
 * The conversation controller of the newer tree (blab_controller/chat/chats.py):
 * the lazily filled registry of Chat instances, bots whose required flag
 * comes from the installed-bot settings, the direct deliveries to internal
 * bots, and the commands the manager bot attaches to its messages:
 * self-approval, sending on behalf of another participant, approving or
 * redirecting the quoted message, and redirecting its own message.
 */
module ChatsNew {
  import opened Domain
  import opened Models
  import Serializers
  import SignalsOld
  import SignalsNew
  import ChatsOld

  /**
   * The parts of the Python runtime the controller relies on and the model
   * does not define: str() of a value, json.loads (None for a
   * JSONDecodeError) and the insertion order of a dictionary's keys.
   */
  datatype Runtime = Runtime(
    str: Json -> string,
    loads: string -> Option<Json>,
    keys: map<string, Json> -> seq<string>)

  const NoneConversation := "'NoneType' object has no attribute 'conversation'"
  const NoneMId := "'NoneType' object has no attribute 'm_id'"
  const NotSubscriptable := "'NoneType' object is not subscriptable"
  const NotJsonText := "the JSON object must be str, bytes or bytearray"
  const NoneNotIterable := "'NoneType' object is not iterable"
  const NotIterable := "object is not iterable"
  const UuidArguments := "one of the hex, bytes, bytes_le, fields, or int arguments must be given"
  const NoReplace := "object has no attribute 'replace'"
  const NotAMapping := "object is not a mapping"
  const BotNotInConversation := "Participant is not in the conversation"
  const MessageNotInConversation := "Message is not in the conversation"
  const NotABot := "Participant is not a bot"

  // ---------------------------------------------------------------- get_chat

  /**
   * get_chat: the registered controller or, when there is none yet, a new
   * one for a stored conversation (DoesNotExist when there is no such
   * conversation). A second call returns the controller the first one made.
   */
  method GetChat(reg: ChatsOld.Registry, db: Database, conversation: string) returns (r: Result<ChatsOld.Chat>)
    requires reg.Valid()
    modifies reg
    ensures reg.Valid()
    ensures conversation in old(reg.chats) ==>
              r == Success(old(reg.chats)[conversation]) && reg.chats == old(reg.chats)
    ensures conversation !in old(reg.chats) && conversation !in db.conversations ==>
              r == Failure(DoesNotExist("Conversation")) && reg.chats == old(reg.chats)
    ensures conversation !in old(reg.chats) && conversation in db.conversations ==>
              r.Success? && fresh(r.value) && reg.chats == old(reg.chats)[conversation := r.value]
    ensures r.Success? ==> r.value.conversation == conversation
                           && conversation in reg.chats && reg.chats[conversation] == r.value
  {
    var known := reg.GetChat(conversation);
    if known.Some? {
      return Success(known.value);
    }
    if conversation !in db.conversations {
      return Failure(DoesNotExist("Conversation"));
    }
    r := reg.NewChat(conversation);
  }

  // ---------------------------------------------------------------- _on_create

  /** The position of the first name that is not an installed bot, or |names| when all are. */
  function FirstUninstalled(names: seq<string>, installed: map<string, BotSpec>): (n: nat)
    ensures n <= |names|
    ensures forall i :: 0 <= i < n ==> names[i] in installed
    ensures n < |names| ==> names[n] !in installed
  {
    if names == [] || names[0] !in installed then 0
    else 1 + FirstUninstalled(names[1..], installed)
  }

  /**
   * The bot loop of _on_create: a BOT participant and its joined message
   * per name, until a name that is not installed raises TypeError (its
   * spec is None); the rows created before it stay.
   */
  method AddInstalledBots(db: Database, conversation: string, names: seq<string>, s: Settings)
    returns (r: Result<seq<Participant>>)
    requires db.Valid()
    modifies db`participants, db`messages, db`nextKey, db`clock
    ensures db.Valid()
    ensures var n := FirstUninstalled(names, s.installed);
            var rows := BotRows(conversation, names[..n], s.installed, old(db.nextKey));
            && db.participants == old(db.participants) + rows
            && db.messages == old(db.messages)
                              + JoinedRows(conversation, rows, |old(db.messages)|, old(db.nextKey), old(db.clock))
            && db.nextKey == old(db.nextKey) + 2 * n && db.clock == old(db.clock) + n
            && r == (if n < |names| then Failure(TypeError(NotSubscriptable)) else Success(rows))
  {
    ghost var key, pk, clock := db.nextKey, |db.messages|, db.clock;
    ghost var n := FirstUninstalled(names, s.installed);
    ghost var added: seq<Message> := [];
    var rows: seq<Participant> := [];
    var i := 0;
    while i < |names|
      invariant 0 <= i <= n
      invariant db.Valid()
      invariant rows == BotRows(conversation, names[..i], s.installed, key) && |rows| == i
      invariant added == JoinedRows(conversation, rows, pk, key, clock)
      invariant db.participants == old(db.participants) + rows
      invariant db.messages == old(db.messages) + added
      invariant db.nextKey == key + 2 * i && db.clock == clock + i && |added| == i
    {
      if names[i] !in s.installed {
        assert i == n;
        return Failure(TypeError(NotSubscriptable));
      }
      ChatsOld.BotRowsSnoc(conversation, names, s.installed, key, i);
      var bot := ChatsOld.AddBot(db, conversation, names, s.installed, i, key, pk, clock, rows);
      ChatsOld.JoinedRowsSnoc(conversation, rows, bot, pk, key, clock);
      ghost var joined := Stamp(JoinedDraft(conversation, bot.id), pk + |rows|, key + 2 * |rows| + 1, clock + |rows|);
      AppendAssoc(old(db.messages), added, [joined]);
      AppendAssoc(old(db.participants), rows, [bot]);
      added := added + [joined];
      rows := rows + [bot];
      i := i + 1;
    }
    assert i == n == |names| && names[..|names|] == names;
    r := Success(rows);
  }

  /**
   * _on_create: the conversation-created message, the human participant,
   * then the requested bots and the manager; a bot that is not installed
   * stops the loop with TypeError and leaves what was created before it.
   */
  method OnCreate(chat: ChatsOld.Chat, db: Database, s: Settings, nickname: string, bots: seq<string>)
    returns (r: Result<seq<Participant>>)
    requires db.Valid()
    modifies db`participants, db`messages, db`nextKey, db`clock
    ensures db.Valid()
    ensures var key, pk, clock := old(db.nextKey), |old(db.messages)|, old(db.clock);
            var conv := chat.conversation;
            var names := ChatsOld.IncludeBots(bots, s.manager);
            var n := FirstUninstalled(names, s.installed);
            var human := Participant(NewId(key + 1), conv, HumanName(nickname, NewId(key + 1)), Human, false);
            var rows := BotRows(conv, names[..n], s.installed, key + 2);
            && Opened(conv, human, rows, old(db.participants), old(db.messages), key, clock,
                      db.participants, db.messages)
            && r == (if n < |names| then Failure(TypeError(NotSubscriptable)) else Success([human] + rows))
  {
    ghost var key, pk, clock := db.nextKey, |db.messages|, db.clock;
    ghost var p0, m0 := db.participants, db.messages;
    var conv := chat.conversation;
    var created := db.CreateSystemMessage(SystemDraft(conv, Created, map[], Automatic));
    var human := ChatsOld.CreateHumanParticipant(db, conv, nickname);
    ghost var m1, k1, c1 := db.messages, db.nextKey, db.clock;
    assert m1 == m0 + [Stamp(SystemDraft(conv, Created, map[], Automatic), pk, key, clock)];
    assert |m1| == pk + 1 && k1 == key + 2 && c1 == clock + 1;
    assert human == Participant(NewId(key + 1), conv, HumanName(nickname, NewId(key + 1)), Human, false);
    var names := ChatsOld.IncludeBots(bots, s.manager);
    ghost var rows := BotRows(conv, names[..FirstUninstalled(names, s.installed)], s.installed, k1);
    var added := AddInstalledBots(db, conv, names, s);
    assert db.participants == p0 + [human] + rows;
    AppendAssoc(p0, [human], rows);
    assert db.messages == m1 + JoinedRows(conv, rows, |m1|, k1, c1);
    if added.Failure? {
      return Failure(added.error);
    }
    r := Success([human] + added.value);
  }

  /**
   * on_create_conversation: register a new Chat, then _on_create. The
   * controller stays registered even when a bot turns out not to be
   * installed.
   */
  method OnCreateConversation(reg: ChatsOld.Registry, db: Database, s: Settings, nickname: string,
                              bots: seq<string>, conversation: string)
    returns (r: Result<seq<Participant>>)
    requires reg.Valid() && db.Valid()
    modifies reg, db`participants, db`messages, db`nextKey, db`clock
    ensures reg.Valid() && db.Valid()
    ensures conversation in old(reg.chats) ==>
              r == Failure(ValueError(ChatsOld.AlreadyCreated)) && reg.chats == old(reg.chats)
              && db.participants == old(db.participants) && db.messages == old(db.messages)
    ensures conversation !in old(reg.chats) ==>
              && conversation in reg.chats && reg.chats[conversation].conversation == conversation
              && |db.participants| > |old(db.participants)|
              && db.participants[|old(db.participants)|]
                 == Participant(NewId(old(db.nextKey) + 1), conversation,
                                HumanName(nickname, NewId(old(db.nextKey) + 1)), Human, false)
    ensures conversation !in old(reg.chats) ==>
              var names := ChatsOld.IncludeBots(bots, s.manager);
              (r.Success? <==> forall i :: 0 <= i < |names| ==> names[i] in s.installed)
              && (r.Failure? ==> r.error == TypeError(NotSubscriptable))
              && (r.Success? ==> db.participants == old(db.participants) + r.value && |r.value| == 1 + |names|)
    ensures conversation !in old(reg.chats) ==>
              var key, pk, clock := old(db.nextKey), |old(db.messages)|, old(db.clock);
              var names := ChatsOld.IncludeBots(bots, s.manager);
              var n := FirstUninstalled(names, s.installed);
              var human := Participant(NewId(key + 1), conversation, HumanName(nickname, NewId(key + 1)), Human, false);
              var rows := BotRows(conversation, names[..n], s.installed, key + 2);
              && Opened(conversation, human, rows, old(db.participants), old(db.messages), key, clock,
                        db.participants, db.messages)
              && (r.Success? ==> r.value == [human] + rows)
  {
    ghost var key, clock, p0, m0 := db.nextKey, db.clock, db.participants, db.messages;
    var chat := reg.NewChat(conversation);
    if chat.Failure? {
      return Failure(chat.error);
    }
    ghost var names := ChatsOld.IncludeBots(bots, s.manager);
    ghost var n := FirstUninstalled(names, s.installed);
    ghost var human := Participant(NewId(key + 1), conversation, HumanName(nickname, NewId(key + 1)), Human, false);
    ghost var rows := BotRows(conversation, names[..n], s.installed, key + 2);
    assert chat.value.conversation == conversation;
    assert db.nextKey == key && db.clock == clock && db.participants == p0 && db.messages == m0;
    r := OnCreate(chat.value, db, s, nickname, bots);
    assert Opened(conversation, human, rows, p0, m0, key, clock, db.participants, db.messages);
    assert r == (if n < |names| then Failure(TypeError(NotSubscriptable)) else Success([human] + rows));
    BotRowsInOrder(conversation, names[..n], s.installed, key + 2);
    ghost var created := [human] + rows;
    assert db.participants == p0 + created;
    assert db.participants[|p0|] == created[0];
    assert (forall i :: 0 <= i < |names| ==> names[i] in s.installed) <==> n == |names|;
  }

  /**
   * The bots a new conversation gets, in request order and then the
   * manager, up to the first one that is not installed; each carries the
   * required flag of its installed-bot spec.
   */
  lemma CreatedBotsRequired(conv: string, names: seq<string>, s: Settings, key: nat)
    ensures var n := FirstUninstalled(names, s.installed);
            var rows := BotRows(conv, names[..n], s.installed, key);
            && |rows| == n
            && forall i :: 0 <= i < n ==>
                 && rows[i].kind == Bot && rows[i].name == names[i] && rows[i].conversation == conv
                 && rows[i].required == s.installed[names[i]].required
  {
    var n := FirstUninstalled(names, s.installed);
    BotRowsInOrder(conv, names[..n], s.installed, key);
  }

  // ---------------------------------------------------------------- the manager's command

  /**
   * `json.loads(message_data.get("command", "{}"))`: a text that does not
   * decode to an object is read as {}; a value that is not text cannot be
   * decoded at all and raises TypeError.
   */
  function DecodeCommand(command: Json, loads: string -> Option<Json>): (r: Result<map<string, Json>>)
    ensures r.Failure? <==> !command.JStr?
    ensures r.Failure? ==> r.error == TypeError(NotJsonText)
    ensures command.JStr? && loads(command.s).Some? && loads(command.s).value.JObj? ==>
              r == Success(loads(command.s).value.fields)
    ensures command.JStr? && !(loads(command.s).Some? && loads(command.s).value.JObj?) ==>
              r == Success(map[])
  {
    if !command.JStr? then Failure(TypeError(NotJsonText))
    else match loads(command.s)
      case Some(JObj(fields)) => Success(fields)
      case _ => Success(map[])
  }

  /** from_manager: a BOT whose name is CHAT_BOT_MANAGER. */
  predicate FromManager(p: Participant, s: Settings)
  {
    p.kind == Bot && s.manager == Some(p.name)
  }

  /** `isinstance(j.get(key, False), bool) and ...`: only the JSON value true switches a flag on. */
  predicate Flag(j: map<string, Json>, key: string)
  {
    Get(j, key, JBool(false)) == JBool(true)
  }

  /** `Participant.objects.get(id=...)`, kept only when the row belongs to `conversation`. */
  function Principal(ps: seq<Participant>, conversation: string, id: string): (r: Option<Participant>)
    ensures r.Some? ==> r.value in ps && r.value.id == id && r.value.conversation == conversation
    ensures r.None? && FindParticipant(ps, id).Some? ==> FindParticipant(ps, id).value.conversation != conversation
  {
    match FindParticipant(ps, id)
    case Some(p) => if p.conversation == conversation then Some(p) else None
    case None => None
  }

  /**
   * The sender the message is saved with: the manager's on_behalf_of
   * participant when the command names one; a principal that does not
   * exist or belongs to another conversation raises AttributeError.
   */
  function SenderOf(p: Participant, j: map<string, Json>, ps: seq<Participant>, conversation: string,
                    str: Json -> string): (r: Result<string>)
    ensures var proxy := Get(j, "on_behalf_of", JNull);
            && (!Truthy(proxy) ==> r == Success(p.id))
            && (Truthy(proxy) && r.Success? ==>
                  r.value == Serializers.StrOf(proxy, str)
                  && exists q :: q in ps && q.conversation == conversation && q.id == r.value)
            && (Truthy(proxy) ==>
                  (r.Failure? <==> Principal(ps, conversation, Serializers.StrOf(proxy, str)).None?))
    ensures r.Failure? ==> r.error == AttributeError(NoneId)
  {
    var proxy := Get(j, "on_behalf_of", JNull);
    if !Truthy(proxy) then Success(p.id)
    else match Principal(ps, conversation, Serializers.StrOf(proxy, str))
      case None => Failure(AttributeError(NoneId))
      case Some(q) => Success(q.id)
  }

  /** A value Django's UUIDField turns into an identifier without parsing text: a bool or an int in range. */
  predicate NumericUuid(q: Json)
  {
    q.JBool? || (q.JNum? && 0 <= q.n < 0x1_0000_0000_0000_0000_0000_0000_0000_0000)
  }

  /**
   * The quoted message of a manager's message: None when the data names
   * none or names one of another conversation. A message that does not
   * exist leaves None in place and the conversation check on it raises
   * AttributeError; a value that is not an identifier at all fails
   * validation.
   */
  function QuotedOf(data: map<string, Json>, rows: seq<Message>, conversation: string): (r: Result<Option<nat>>)
    ensures var q := Get(data, "quoted_message_id", JNull);
            && (!Truthy(q) ==> r == Success(None))
            && (r.Success? && r.value.Some? ==>
                  && q.JStr? && r.value.value < |rows|
                  && rows[r.value.value].mId == q.s && rows[r.value.value].conversation == conversation)
            && (Truthy(q) && r.Success? && r.value.None? ==>
                  q.JStr? && exists k :: 0 <= k < |rows| && rows[k].mId == q.s)
            && (r == Failure(AttributeError(NoneConversation)) <==>
                  Truthy(q) && (NumericUuid(q) || (q.JStr? && forall k :: 0 <= k < |rows| ==> rows[k].mId != q.s)))
            && (r.Failure? && r.error != AttributeError(NoneConversation) ==>
                  Truthy(q) && !q.JStr? && !NumericUuid(q))
  {
    var q := Get(data, "quoted_message_id", JNull);
    if !Truthy(q) then Success(None)
    else if NumericUuid(q) then Failure(AttributeError(NoneConversation))
    else if !q.JStr? then Failure(DjangoValidationError({}, [ErrorItem(Some("invalid"), {})]))
    else match Serializers.FindByMId(rows, q.s)
      case None => Failure(AttributeError(NoneConversation))
      case Some(k) => if rows[k].conversation == conversation then Success(Some(k)) else Success(None)
  }

  /** What save_message decides before it writes anything. */
  datatype Decision = Decision(command: map<string, Json>, sender: string, approval: Approval, quoted: Option<nat>)

  /**
   * The checks and decisions of save_message up to create_message: the
   * conversation check, the approval gate, and for the manager the decoded
   * command, its self-approval, its principal and its quoted message.
   */
  function Decide(conversation: string, p: Participant, data: map<string, Json>, s: Settings,
                  rows: seq<Message>, ps: seq<Participant>, rt: Runtime): (r: Result<Decision>)
    ensures p.conversation != conversation ==> r == Failure(ValueError(ChatsOld.OtherConversation))
    ensures r.Failure? && p.conversation == conversation ==> FromManager(p, s)
    ensures r.Success? && !FromManager(p, s) ==>
              r.value == Decision(map[], p.id, ChatsOld.ApprovalFor(p.kind, s), None)
    ensures r.Success? ==> (r.value.approval == ByManager <==> FromManager(p, s) && Flag(r.value.command, "self_approve"))
    ensures r.Success? && r.value.approval != ByManager ==> r.value.approval == ChatsOld.ApprovalFor(p.kind, s)
    ensures r.Success? ==>
              r.value.sender == p.id || exists q :: q in ps && q.conversation == conversation && q.id == r.value.sender
    ensures r.Success? && r.value.quoted.Some? ==>
              r.value.quoted.value < |rows| && rows[r.value.quoted.value].conversation == conversation
  {
    if p.conversation != conversation then Failure(ValueError(ChatsOld.OtherConversation))
    else if !FromManager(p, s) then Success(Decision(map[], p.id, ChatsOld.ApprovalFor(p.kind, s), None))
    else
      var j :- DecodeCommand(Get(data, "command", JStr("{}")), rt.loads);
      var sender :- SenderOf(p, j, ps, conversation, rt.str);
      var quoted :- QuotedOf(data, rows, conversation);
      var approval := if Flag(j, "self_approve") then ByManager else ChatsOld.ApprovalFor(p.kind, s);
      Success(Decision(j, sender, approval, quoted))
  }

  /**
   * `{**message_data, **overridden_data, "sent_by_manager": from_manager}`,
   * where a message not from the manager has lost its "command" entry.
   */
  function SaveData(data: map<string, Json>, conversation: string, d: Decision, fromManager: bool)
    : map<string, Json>
  {
    ChatsOld.Overridden(if fromManager then data else data - {"command"}, conversation, d.sender, d.approval)
      ["sent_by_manager" := JBool(fromManager)]
  }

  /**
   * The controller's entries win over the client's, only the manager's
   * message keeps its command, and every other entry is the client's.
   */
  lemma SaveDataWins(data: map<string, Json>, conversation: string, d: Decision, fromManager: bool)
    ensures var v := SaveData(data, conversation, d, fromManager);
            && v["conversation_id"] == JStr(conversation) && v["sender_id"] == JStr(d.sender)
            && Serializers.ApprovalOf(v["approval_status"]) == Some(d.approval)
            && v["sent_by_manager"] == JBool(fromManager)
            && ("command" in v <==> fromManager && "command" in data)
            && forall k :: k in data && k !in {"conversation_id", "sender_id", "approval_status", "sent_by_manager", "command"}
                 ==> k in v && v[k] == data[k]
  {
    var base := if fromManager then data else data - {"command"};
    ChatsOld.OverriddenWins(base, conversation, d.sender, d.approval);
  }

  /**
   * What the serializer makes of the data keeps the decided conversation,
   * sender and approval status, as long as no condition hides the approval.
   */
  lemma SaveDataCarried(data: map<string, Json>, conditions: map<string, Serializers.Condition>,
                        rows: seq<Message>, pyStr: Json -> string, conversation: string, d: Decision,
                        fromManager: bool)
    requires "approval_status" !in conditions
    ensures var v := Serializers.InternalValue(conditions, SaveData(data, conversation, d, fromManager), rows, pyStr);
            v.Success? ==>
              && Get(v.value, "conversation_id", JNull) == JStr(conversation)
              && Serializers.OptText(v.value, "sender_id") == Some(d.sender)
              && Serializers.ApprovalOf(Get(v.value, "approval_status", JNum(0))) == Some(d.approval)
  {
    SaveDataWins(data, conversation, d, fromManager);
    Serializers.InternalValueControllerFields(conditions, SaveData(data, conversation, d, fromManager), rows, pyStr);
  }

  /** What the manager's command does to its quoted message. */
  datatype Action = Keep | Approve(pk: nat) | Forward(pk: nat, targets: Json, overrides: Json)

  /** `match action`: "approve" and "redirect" act on the quoted message, anything else is only logged. */
  function ActionOf(d: Decision): (a: Action)
    ensures a.Approve? || a.Forward? ==> d.quoted == Some(a.pk)
    ensures a.Approve? <==> d.quoted.Some? && Get(d.command, "action", JStr("")) == JStr("approve")
    ensures a.Forward? <==> d.quoted.Some? && Get(d.command, "action", JStr("")) == JStr("redirect")
    ensures a.Forward? ==> a.targets == Get(d.command, "bots", JArr([])) && a.overrides == Get(d.command, "overrides", JNull)
  {
    var action := Get(d.command, "action", JStr(""));
    if d.quoted.None? then Keep
    else if action == JStr("approve") then Approve(d.quoted.value)
    else if action == JStr("redirect") then
      Forward(d.quoted.value, Get(d.command, "bots", JArr([])), Get(d.command, "overrides", JNull))
    else Keep
  }

  // ---------------------------------------------------------------- _redirect_message

  /** `for part in targets`: the items of a list, the characters of a text, the keys of a dictionary. */
  function Parts(targets: Json, keys: map<string, Json> -> seq<string>): (r: Result<seq<Json>>)
    ensures r.Failure? <==> !(targets.JArr? || targets.JStr? || targets.JObj?)
    ensures r.Failure? ==> r.error.TypeError?
    ensures targets.JArr? ==> r == Success(targets.items)
    ensures targets.JStr? ==>
              r.Success? && |r.value| == |targets.s|
              && forall i :: 0 <= i < |targets.s| ==> r.value[i] == JStr([targets.s[i]])
    ensures targets.JObj? ==>
              r.Success? && |r.value| == |keys(targets.fields)|
              && forall i :: 0 <= i < |r.value| ==> r.value[i] == JStr(keys(targets.fields)[i])
  {
    match targets
    case JArr(items) => Success(items)
    case JStr(text) => Success(seq(|text|, i requires 0 <= i < |text| => JStr([text[i]])))
    case JObj(fields) =>
      var ks := keys(fields);
      Success(seq(|ks|, i requires 0 <= i < |ks| => JStr(ks[i])))
    case JNull => Failure(TypeError(NoneNotIterable))
    case _ => Failure(TypeError(NotIterable))
  }

  /**
   * One target: notify the websocket bot it names, then find the BOT
   * participant of the conversation with that name or id and ask for the
   * message to be delivered to it. A target that is not text fails when
   * it is read as a UUID; a target that names no BOT raises AttributeError.
   */
  function RedirectStep(s: Settings, m: Message, cps: seq<Participant>, part: Json, overrides: Json,
                        str: Json -> string): SignalsOld.Outcome
  {
    var ws := WsMessageToBot(m.conversation, Some(m.pk), Serializers.StrOf(part, str), overrides);
    if part.JNull? then SignalsOld.Outcome([ws], Some(TypeError(UuidArguments)))
    else if !part.JStr? then SignalsOld.Outcome([ws], Some(AttributeError(NoReplace)))
    else match SignalsOld.FirstBot(cps, part.s)
      case None => SignalsOld.Outcome([ws], Some(AttributeError(NoneId)))
      case Some(b) => SignalsOld.Outcome([ws, DeliverMessage(b.id, m.pk, overrides, s.enableQueue)], None)
  }

  /** The target loop over `parts`, stopping at the first error. */
  function RedirectParts(s: Settings, m: Message, cps: seq<Participant>, parts: seq<Json>, overrides: Json,
                         str: Json -> string): SignalsOld.Outcome
  {
    if parts == [] then SignalsOld.Outcome([], None)
    else
      var r := RedirectParts(s, m, cps, parts[..|parts| - 1], overrides, str);
      if r.error.Some? then r
      else
        var step := RedirectStep(s, m, cps, parts[|parts| - 1], overrides, str);
        SignalsOld.Outcome(r.effects + step.effects, step.error)
  }

  /** _redirect_message(message, targets, field_overrides) */
  function Redirected(s: Settings, m: Message, cps: seq<Participant>, targets: Json, overrides: Json,
                      rt: Runtime): SignalsOld.Outcome
  {
    match Parts(targets, rt.keys)
    case Failure(e) => SignalsOld.Outcome([], Some(e))
    case Success(parts) => RedirectParts(s, m, cps, parts, overrides, rt.str)
  }

  /** The bot a text target reaches. */
  predicate Reaches(cps: seq<Participant>, part: Json)
  {
    part.JStr? && SignalsOld.FirstBot(cps, part.s).Some?
  }

  lemma RedirectPartsSnoc(s: Settings, m: Message, cps: seq<Participant>, parts: seq<Json>, overrides: Json,
                          str: Json -> string, i: nat)
    requires i < |parts| && RedirectParts(s, m, cps, parts[..i], overrides, str).error.None?
    ensures var r, step := RedirectParts(s, m, cps, parts[..i], overrides, str),
                           RedirectStep(s, m, cps, parts[i], overrides, str);
            RedirectParts(s, m, cps, parts[..i + 1], overrides, str) == SignalsOld.Outcome(r.effects + step.effects, step.error)
  {
    assert parts[..i + 1][..i] == parts[..i];
  }

  /** One more target: the outbox after it is the outbox before it plus the target's own effects. */
  lemma RedirectPartsExtend(o: seq<Effect>, s: Settings, m: Message, cps: seq<Participant>, parts: seq<Json>,
                            overrides: Json, str: Json -> string, i: nat)
    requires i < |parts| && RedirectParts(s, m, cps, parts[..i], overrides, str).error.None?
    ensures var step := RedirectStep(s, m, cps, parts[i], overrides, str);
            o + RedirectParts(s, m, cps, parts[..i + 1], overrides, str).effects
              == o + RedirectParts(s, m, cps, parts[..i], overrides, str).effects + step.effects
            && RedirectParts(s, m, cps, parts[..i + 1], overrides, str).error == step.error
  {
    RedirectPartsSnoc(s, m, cps, parts, overrides, str, i);
    AppendAssoc(o, RedirectParts(s, m, cps, parts[..i], overrides, str).effects,
                RedirectStep(s, m, cps, parts[i], overrides, str).effects);
  }

  /** The redirect succeeds exactly when every target is text naming a BOT of the conversation. */
  lemma {:induction false} RedirectPartsSucceed(s: Settings, m: Message, cps: seq<Participant>, parts: seq<Json>,
                                                overrides: Json, str: Json -> string)
    ensures RedirectParts(s, m, cps, parts, overrides, str).error.None?
            <==> forall i :: 0 <= i < |parts| ==> Reaches(cps, parts[i])
  {
    if parts != [] {
      var init := parts[..|parts| - 1];
      RedirectPartsSucceed(s, m, cps, init, overrides, str);
      assert forall i :: 0 <= i < |init| ==> init[i] == parts[i];
    }
  }

  /** The last target of a list whose every target reaches a bot adds its notice and its delivery. */
  lemma RedirectPartsLast(s: Settings, m: Message, cps: seq<Participant>, parts: seq<Json>,
                          overrides: Json, str: Json -> string)
    requires parts != [] && forall i :: 0 <= i < |parts| ==> Reaches(cps, parts[i])
    ensures var last := parts[|parts| - 1];
            && Reaches(cps, last)
            && RedirectParts(s, m, cps, parts, overrides, str).effects
            == RedirectParts(s, m, cps, parts[..|parts| - 1], overrides, str).effects
               + [WsMessageToBot(m.conversation, Some(m.pk), last.s, overrides),
                  DeliverMessage(SignalsOld.FirstBot(cps, last.s).value.id, m.pk, overrides, s.enableQueue)]
  {
    var init := parts[..|parts| - 1];
    assert forall i :: 0 <= i < |init| ==> Reaches(cps, init[i]) by {
      forall i | 0 <= i < |init| ensures Reaches(cps, init[i]) { assert init[i] == parts[i]; }
    }
    RedirectPartsSucceed(s, m, cps, init, overrides, str);
    assert Reaches(cps, parts[|parts| - 1]);
  }

  /** Every target of a prefix of the list reaches a bot when every target of the list does. */
  lemma ReachPrefix(cps: seq<Participant>, parts: seq<Json>, n: nat)
    requires n <= |parts| && forall i :: 0 <= i < |parts| ==> Reaches(cps, parts[i])
    ensures forall i :: 0 <= i < n ==> Reaches(cps, parts[..n][i])
  {
    forall i | 0 <= i < n ensures Reaches(cps, parts[..n][i]) { assert parts[..n][i] == parts[i]; }
  }

  /** Two effects per target when every target reaches a bot. */
  lemma {:induction false} RedirectPartsLength(s: Settings, m: Message, cps: seq<Participant>, parts: seq<Json>,
                                               overrides: Json, str: Json -> string)
    requires forall i :: 0 <= i < |parts| ==> Reaches(cps, parts[i])
    ensures |RedirectParts(s, m, cps, parts, overrides, str).effects| == 2 * |parts|
  {
    if parts != [] {
      ReachPrefix(cps, parts, |parts| - 1);
      RedirectPartsLength(s, m, cps, parts[..|parts| - 1], overrides, str);
      RedirectPartsLast(s, m, cps, parts, overrides, str);
    }
  }

  /** The effects of target `i`: its notice, then its delivery. */
  lemma {:induction false} RedirectPartsEffectAt(s: Settings, m: Message, cps: seq<Participant>, parts: seq<Json>,
                                                 overrides: Json, str: Json -> string, i: nat)
    requires forall i :: 0 <= i < |parts| ==> Reaches(cps, parts[i])
    requires i < |parts|
    ensures var effects := RedirectParts(s, m, cps, parts, overrides, str).effects;
            && |effects| == 2 * |parts|
            && Reaches(cps, parts[i])
            && effects[2 * i] == WsMessageToBot(m.conversation, Some(m.pk), parts[i].s, overrides)
            && effects[2 * i + 1]
               == DeliverMessage(SignalsOld.FirstBot(cps, parts[i].s).value.id, m.pk, overrides, s.enableQueue)
  {
    var init := parts[..|parts| - 1];
    ReachPrefix(cps, parts, |parts| - 1);
    RedirectPartsLength(s, m, cps, init, overrides, str);
    RedirectPartsLast(s, m, cps, parts, overrides, str);
    if i < |init| {
      RedirectPartsEffectAt(s, m, cps, init, overrides, str, i);
      assert init[i] == parts[i];
    }
  }

  /**
   * When every target reaches a bot, the effects are, target by target, the
   * websocket notice followed by one delivery of the message itself to that
   * bot, with the overrides.
   */
  lemma RedirectPartsEffects(s: Settings, m: Message, cps: seq<Participant>, parts: seq<Json>,
                             overrides: Json, str: Json -> string)
    requires forall i :: 0 <= i < |parts| ==> Reaches(cps, parts[i])
    ensures var r := RedirectParts(s, m, cps, parts, overrides, str);
            && |r.effects| == 2 * |parts|
            && forall i :: 0 <= i < |parts| ==>
                 && Reaches(cps, parts[i])
                 && r.effects[2 * i] == WsMessageToBot(m.conversation, Some(m.pk), parts[i].s, overrides)
                 && r.effects[2 * i + 1]
                    == DeliverMessage(SignalsOld.FirstBot(cps, parts[i].s).value.id, m.pk, overrides, s.enableQueue)
  {
    if parts != [] {
      RedirectPartsEffectAt(s, m, cps, parts, overrides, str, 0);
    }
    forall i | 0 <= i < |parts| {
      RedirectPartsEffectAt(s, m, cps, parts, overrides, str, i);
    }
  }

  /** Once a target has failed, the later ones change nothing. */
  lemma {:induction false} RedirectPartsErrorSticks(s: Settings, m: Message, cps: seq<Participant>, parts: seq<Json>,
                                                    overrides: Json, str: Json -> string, i: nat)
    requires i <= |parts|
    requires RedirectParts(s, m, cps, parts[..i], overrides, str).error.Some?
    ensures RedirectParts(s, m, cps, parts, overrides, str) == RedirectParts(s, m, cps, parts[..i], overrides, str)
    decreases |parts| - i
  {
    if i < |parts| {
      assert parts[..|parts| - 1][..i] == parts[..i];
      RedirectPartsErrorSticks(s, m, cps, parts[..|parts| - 1], overrides, str, i);
    } else {
      assert parts[..i] == parts;
    }
  }

  // ---------------------------------------------------------------- deliveries to internal bots

  /** `field_overrides or {}`: a false value is no override, a true one must be a dictionary. */
  function OverrideFields(overrides: Json): (r: Result<map<string, Json>>)
    ensures r.Failure? <==> Truthy(overrides) && !overrides.JObj?
    ensures r.Success? && overrides.JObj? ==> r.value == overrides.fields
    ensures r.Success? && !overrides.JObj? ==> r.value == map[]
  {
    if !Truthy(overrides) then Success(map[])
    else if overrides.JObj? then Success(overrides.fields)
    else Failure(TypeError(NotAMapping))
  }

  /**
   * deliver_message_to_bot: after the three membership checks and the
   * lookup of the bot's installed spec, the bot receives the message's
   * representation with the overrides on top. `representation` stands for
   * MessageSerializer().to_representation(message).
   */
  function DeliverMessageToBot(conversation: string, m: Message, bot: Participant, overrides: Json, s: Settings,
                               representation: map<string, Json>)
    : (r: Result<(BotSpec, map<string, Json>)>)
    ensures bot.conversation != conversation ==> r == Failure(ValueError(BotNotInConversation))
    ensures bot.conversation == conversation && m.conversation != conversation ==>
              r == Failure(ValueError(MessageNotInConversation))
    ensures bot.conversation == conversation && m.conversation == conversation && bot.kind != Bot ==>
              r == Failure(ValueError(NotABot))
    ensures r.Success? <==>
              && bot.conversation == conversation && m.conversation == conversation && bot.kind == Bot
              && bot.name in s.installed && OverrideFields(overrides).Success?
    ensures r.Success? ==>
              && r.value.0 == s.installed[bot.name]
              && r.value.1.Keys == representation.Keys + OverrideFields(overrides).value.Keys
              && forall k :: k in r.value.1 ==>
                   r.value.1[k] == if k in OverrideFields(overrides).value then OverrideFields(overrides).value[k]
                                   else representation[k]
  {
    if bot.conversation != conversation then Failure(ValueError(BotNotInConversation))
    else if m.conversation != conversation then Failure(ValueError(MessageNotInConversation))
    else if bot.kind != Bot then Failure(ValueError(NotABot))
    else if bot.name !in s.installed then Failure(KeyError(bot.name))
    else
      var fields :- OverrideFields(overrides);
      Success((s.installed[bot.name], representation + fields))
  }

  /** deliver_status_to_bot: the membership checks, then the bot's installed spec receives the status. */
  function DeliverStatusToBot(conversation: string, bot: Participant, s: Settings): (r: Result<BotSpec>)
    ensures bot.conversation != conversation ==> r == Failure(ValueError(BotNotInConversation))
    ensures bot.conversation == conversation && bot.kind != Bot ==> r == Failure(ValueError(NotABot))
    ensures r.Success? <==> bot.conversation == conversation && bot.kind == Bot && bot.name in s.installed
    ensures r.Success? ==> r.value == s.installed[bot.name]
    ensures bot.conversation == conversation && bot.kind == Bot && bot.name !in s.installed ==>
              r == Failure(KeyError(bot.name))
  {
    if bot.conversation != conversation then Failure(ValueError(BotNotInConversation))
    else if bot.kind != Bot then Failure(ValueError(NotABot))
    else if bot.name !in s.installed then Failure(KeyError(bot.name))
    else Success(s.installed[bot.name])
  }

  /**
   * Every delivery a redirect asks for passes the controller's membership
   * checks: it can only fail because the bot is not installed or the
   * overrides are not a dictionary.
   */
  lemma RedirectDeliveryAccepted(s: Settings, m: Message, ps: seq<Participant>, parts: seq<Json>,
                                 overrides: Json, str: Json -> string, i: nat, representation: map<string, Json>)
    requires i < |parts|
    requires RedirectParts(s, m, ParticipantsOf(ps, m.conversation), parts, overrides, str).error.None?
    ensures var cps := ParticipantsOf(ps, m.conversation);
            && parts[i].JStr? && SignalsOld.FirstBot(cps, parts[i].s).Some?
            && var b := SignalsOld.FirstBot(cps, parts[i].s).value;
               && b in ps
               && DeliverMessage(b.id, m.pk, overrides, s.enableQueue)
                  in RedirectParts(s, m, cps, parts, overrides, str).effects
               && (DeliverMessageToBot(m.conversation, m, b, overrides, s, representation).Success?
                   <==> b.name in s.installed && OverrideFields(overrides).Success?)
  {
    var cps := ParticipantsOf(ps, m.conversation);
    RedirectPartsSucceed(s, m, cps, parts, overrides, str);
    RedirectPartsEffects(s, m, cps, parts, overrides, str);
    assert Reaches(cps, parts[i]);
    var r := RedirectParts(s, m, cps, parts, overrides, str);
    assert r.effects[2 * i + 1] in r.effects;
  }

  // ---------------------------------------------------------------- the methods

  /** The body of the target loop for one target. */
  method RedirectPart(db: Database, s: Settings, m: Message, cps: seq<Participant>, part: Json, overrides: Json,
                      str: Json -> string)
    returns (err: Option<Error>)
    requires db.Valid()
    modifies db`outbox
    ensures db.Valid()
    ensures var r := RedirectStep(s, m, cps, part, overrides, str); db.outbox == old(db.outbox) + r.effects && err == r.error
  {
    db.Emit(WsMessageToBot(m.conversation, Some(m.pk), Serializers.StrOf(part, str), overrides));
    if part.JNull? {
      return Some(TypeError(UuidArguments));
    }
    if !part.JStr? {
      return Some(AttributeError(NoReplace));
    }
    var b := SignalsOld.FirstBot(cps, part.s);
    if b.None? {
      return Some(AttributeError(NoneId));
    }
    db.Emit(DeliverMessage(b.value.id, m.pk, overrides, s.enableQueue));
    err := None;
  }

  /** The target loop of _redirect_message, stopping at the first target that raises. */
  method RedirectTargets(db: Database, s: Settings, m: Message, cps: seq<Participant>, ps: seq<Json>,
                         overrides: Json, str: Json -> string)
    returns (err: Option<Error>)
    requires db.Valid()
    modifies db`outbox
    ensures db.Valid()
    ensures var r := RedirectParts(s, m, cps, ps, overrides, str);
            db.outbox == old(db.outbox) + r.effects && err == r.error
  {
    err := None;
    var i := 0;
    while i < |ps|
      invariant 0 <= i <= |ps|
      invariant db.Valid()
      invariant db.outbox == old(db.outbox) + RedirectParts(s, m, cps, ps[..i], overrides, str).effects
      invariant RedirectParts(s, m, cps, ps[..i], overrides, str).error.None? && err.None?
    {
      RedirectPartsExtend(old(db.outbox), s, m, cps, ps, overrides, str, i);
      err := RedirectPart(db, s, m, cps, ps[i], overrides, str);
      if err.Some? {
        RedirectPartsErrorSticks(s, m, cps, ps, overrides, str, i + 1);
        return;
      }
      i := i + 1;
    }
    assert ps[..|ps|] == ps;
  }

  /** _redirect_message: the targets, then the loop over them against the participants of the message's conversation. */
  method RedirectMessage(db: Database, s: Settings, m: Message, targets: Json, overrides: Json, rt: Runtime)
    returns (err: Option<Error>)
    requires db.Valid()
    modifies db`outbox
    ensures db.Valid()
    ensures var r := Redirected(s, m, ParticipantsOf(old(db.participants), m.conversation), targets, overrides, rt);
            db.outbox == old(db.outbox) + r.effects && err == r.error
  {
    var parts := Parts(targets, rt.keys);
    if parts.Failure? {
      return Some(parts.error);
    }
    var cps := ParticipantsOf(db.participants, m.conversation);
    err := RedirectTargets(db, s, m, cps, parts.value, overrides, rt.str);
  }

  /** The store writes of the manager's action on its quoted message. */
  method PerformAction(db: Database, s: Settings, a: Action, rt: Runtime) returns (err: Option<Error>)
    requires db.Valid()
    requires a.Approve? || a.Forward? ==> a.pk < |db.messages|
    modifies db
    ensures db.Valid()
    ensures a.Keep? ==> err.None? && db.messages == old(db.messages) && db.outbox == old(db.outbox)
    ensures a.Approve? ==>
              var approved := old(db.messages)[a.pk].(approval := ByManager);
              && err.None?
              && db.messages == old(db.messages)[a.pk := approved]
              && (old(db.inAtomic) ==> db.outbox == old(db.outbox)
                                       && db.onCommit == old(db.onCommit) + [Deferred.FanOut(a.pk)])
              && (!old(db.inAtomic) ==>
                    db.outbox == old(db.outbox) + SignalsNew.FanOutEffects(s, approved, old(db.participants)))
    ensures a.Forward? ==>
              var m := old(db.messages)[a.pk];
              var r := Redirected(s, m, ParticipantsOf(old(db.participants), m.conversation), a.targets, a.overrides, rt);
              db.messages == old(db.messages) && db.outbox == old(db.outbox) + r.effects && err == r.error
    ensures !(a.Approve? && old(db.inAtomic)) ==> db.onCommit == old(db.onCommit)
    ensures db.participants == old(db.participants) && db.conversations == old(db.conversations)
    ensures db.inAtomic == old(db.inAtomic)
  {
    match a
    case Keep =>
      err := None;
    case Approve(pk) =>
      // quoted_message.save() runs the post_save receiver of the approved message
      db.SetApproval(pk, ByManager);
      SignalsNew.MessageWatcher(db, s, db.messages[pk]);
      err := None;
    case Forward(pk, targets, overrides) =>
      err := RedirectMessage(db, s, db.messages[pk], targets, overrides, rt);
  }

  /**
   * The self-redirect after create_message: for a message that was not
   * created the log call raises AttributeError; otherwise the redirect is
   * registered with transaction.on_commit, which runs it at once outside
   * an atomic block.
   */
  method SelfRedirect(db: Database, s: Settings, created: Option<Message>, j: map<string, Json>, rt: Runtime)
    returns (err: Option<Error>)
    requires db.Valid()
    modifies db
    ensures db.Valid()
    ensures created.None? ==>
              err == Some(AttributeError(NoneMId)) && db.outbox == old(db.outbox) && db.onCommit == old(db.onCommit)
    ensures created.Some? && old(db.inAtomic) ==>
              && err.None? && db.outbox == old(db.outbox)
              && db.onCommit == old(db.onCommit)
                                + [Redirect(created.value.pk, Get(j, "bots", JArr([])), Get(j, "overrides", JNull))]
    ensures created.Some? && !old(db.inAtomic) ==>
              var m := created.value;
              var r := Redirected(s, m, ParticipantsOf(old(db.participants), m.conversation),
                                  Get(j, "bots", JArr([])), Get(j, "overrides", JNull), rt);
              db.outbox == old(db.outbox) + r.effects && err == r.error && db.onCommit == old(db.onCommit)
    ensures db.messages == old(db.messages) && db.participants == old(db.participants)
    ensures db.conversations == old(db.conversations) && db.inAtomic == old(db.inAtomic)
  {
    if created.None? {
      return Some(AttributeError(NoneMId));
    }
    var targets := Get(j, "bots", JArr([]));
    if db.inAtomic {
      db.Defer(Redirect(created.value.pk, targets, Get(j, "overrides", JNull)));
      err := None;
    } else {
      err := RedirectMessage(db, s, created.value, targets, Get(j, "overrides", JNull), rt);
    }
  }

  /**
   * The effects of the manager's action on its quoted message, as asked of
   * the delivery layer: the redirect's, or, outside an atomic block, the
   * fan-out of the approved message.
   */
  function ActionOutcome(s: Settings, a: Action, rows: seq<Message>, ps: seq<Participant>, inAtomic: bool,
                         rt: Runtime): SignalsOld.Outcome
    requires a.Approve? || a.Forward? ==> a.pk < |rows|
  {
    if a.Forward? then
      Redirected(s, rows[a.pk], ParticipantsOf(ps, rows[a.pk].conversation), a.targets, a.overrides, rt)
    else if a.Approve? && !inAtomic then
      SignalsOld.Outcome(SignalsNew.FanOutEffects(s, rows[a.pk].(approval := ByManager), ps), None)
    else SignalsOld.Outcome([], None)
  }

  /**
   * Moderation: when the manager approves a quoted message outside an
   * atomic block, the save's fan-out broadcasts that message, once and in
   * the one form the avoid rule chooses, and raises nothing; inside an
   * atomic block nothing is sent before the commit.
   */
  lemma ApprovalBroadcasts(s: Settings, a: Action, rows: seq<Message>, ps: seq<Participant>, rt: Runtime)
    requires a.Approve? && a.pk < |rows|
    ensures var m := rows[a.pk];
            var b := BroadcastMessage(m.conversation, m.pk, SignalsNew.AvoidNonManagerBots(s, m));
            var act := ActionOutcome(s, a, rows, ps, false, rt);
            && act.error.None? && b in act.effects
            && (forall e :: e in act.effects && e.BroadcastMessage? ==> e == b)
    ensures ActionOutcome(s, a, rows, ps, true, rt) == SignalsOld.Outcome([], None)
  {
    SignalsNew.FanOutBroadcast(s, rows[a.pk].(approval := ByManager), ps);
  }

  /** The messages after the manager's action: an approval sets the quoted message's status. */
  function Acted(a: Action, rows: seq<Message>): (r: seq<Message>)
    requires a.Approve? ==> a.pk < |rows|
    ensures |r| == |rows|
    ensures forall k :: 0 <= k < |rows| && !(a.Approve? && k == a.pk) ==> r[k] == rows[k]
    ensures a.Approve? ==> r[a.pk] == rows[a.pk].(approval := ByManager)
  {
    if a.Approve? then rows[a.pk := rows[a.pk].(approval := ByManager)] else rows
  }

  /** create_message with the decided data. */
  method StoreDecided(chat: ChatsOld.Chat, db: Database, cf: Serializers.ConditionalFields, s: Settings,
                      p: Participant, data: map<string, Json>, d: Decision, rt: Runtime)
    returns (r: Result<Option<Message>>)
    requires db.Valid()
    modifies db`messages, db`nextKey, db`clock
    ensures db.Valid()
    ensures r.Success? && r.value.Some? ==>
              var m := r.value.value;
              && db.messages == old(db.messages) + [m]
              && m.conversation == chat.conversation && m.sender == Some(d.sender)
              && ("approval_status" !in cf.conditions ==> m.approval == d.approval)
    ensures r.Failure? || r.value.None? ==> db.messages == old(db.messages)
  {
    var fromManager := FromManager(p, s);
    var v := SaveData(data, chat.conversation, d, fromManager);
    ghost var rows := db.messages;
    r := Serializers.CreateMessage(db, cf, v, s.limits, rt.str);
    if "approval_status" !in cf.conditions {
      SaveDataCarried(data, cf.conditions, rows, rt.str, chat.conversation, d, fromManager);
    } else {
      SaveDataWins(data, chat.conversation, d, fromManager);
      Serializers.InternalValueControllerFields(cf.conditions, v, rows, rt.str);
    }
  }

  /**
   * create_message with the decided data, then the manager's self-redirect.
   * The message is stored, or the store is left as it was.
   */
  method CreateAndRedirect(chat: ChatsOld.Chat, db: Database, cf: Serializers.ConditionalFields, s: Settings,
                           p: Participant, data: map<string, Json>, d: Decision, rt: Runtime)
    returns (r: Result<Option<Message>>)
    requires db.Valid()
    modifies db
    ensures db.Valid()
    ensures r.Success? && r.value.Some? ==>
              var m := r.value.value;
              && db.messages == old(db.messages) + [m]
              && m.conversation == chat.conversation && m.sender == Some(d.sender)
              && ("approval_status" !in cf.conditions ==> m.approval == d.approval)
    ensures |old(db.messages)| <= |db.messages| <= |old(db.messages)| + 1
    ensures db.messages[..|old(db.messages)|] == old(db.messages)
    ensures |db.outbox| >= |old(db.outbox)| && db.outbox[..|old(db.outbox)|] == old(db.outbox)
    ensures r.Success? && r.value.None? ==> db.messages == old(db.messages)
    ensures !(FromManager(p, s) && Flag(d.command, "self_redirect")) ==>
              && db.outbox == old(db.outbox) && db.onCommit == old(db.onCommit)
              && (r.Failure? ==> db.messages == old(db.messages))
    ensures r.Success? && FromManager(p, s) && Flag(d.command, "self_redirect") ==>
              r.value.Some? &&
              (old(db.inAtomic) ==>
                 db.outbox == old(db.outbox)
                 && db.onCommit == old(db.onCommit)
                                   + [Redirect(r.value.value.pk, Get(d.command, "bots", JArr([])),
                                               Get(d.command, "overrides", JNull))])
    ensures r.Success? && r.value.Some? && FromManager(p, s) && Flag(d.command, "self_redirect")
            && !old(db.inAtomic) ==>
              var m := r.value.value;
              && db.onCommit == old(db.onCommit)
              && db.outbox == old(db.outbox)
                              + Redirected(s, m, ParticipantsOf(old(db.participants), m.conversation),
                                           Get(d.command, "bots", JArr([])), Get(d.command, "overrides", JNull), rt).effects
    ensures db.participants == old(db.participants) && db.conversations == old(db.conversations)
    ensures db.inAtomic == old(db.inAtomic)
  {
    r := StoreDecided(chat, db, cf, s, p, data, d, rt);
    assert db.messages[..|old(db.messages)|] == old(db.messages);
    if r.Failure? || !(FromManager(p, s) && Flag(d.command, "self_redirect")) {
      return;
    }
    ghost var out := db.outbox;
    var err := SelfRedirect(db, s, r.value, d.command, rt);
    assert db.outbox[..|out|] == out;
    if err.Some? {
      r := Failure(err.value);
    }
  }

  /**
   * save_message: the decisions, the manager's action on its quoted
   * message, the stored message with the decided conversation, sender and
   * approval status, and the manager's self-redirect.
   */
  method SaveMessage(chat: ChatsOld.Chat, db: Database, cf: Serializers.ConditionalFields, s: Settings,
                     p: Participant, data: map<string, Json>, rt: Runtime)
    returns (r: Result<Option<Message>>)
    requires db.Valid()
    modifies db
    ensures db.Valid()
    ensures var d := Decide(chat.conversation, p, data, s, old(db.messages), old(db.participants), rt);
            d.Failure? ==>
              && r == Failure(d.error) && db.messages == old(db.messages)
              && db.outbox == old(db.outbox) && db.onCommit == old(db.onCommit)
    ensures var d := Decide(chat.conversation, p, data, s, old(db.messages), old(db.participants), rt);
            d.Success? ==> Saved(chat, old(db.messages), old(db.participants), old(db.outbox), old(db.onCommit),
                                 old(db.inAtomic), db.messages, db.outbox, db.onCommit, cf.conditions, s, p, d.value, rt, r)
    ensures var d := Decide(chat.conversation, p, data, s, old(db.messages), old(db.participants), rt);
            r.Success? ==> d.Success?
    ensures db.participants == old(db.participants) && db.conversations == old(db.conversations)
    ensures db.inAtomic == old(db.inAtomic)
  {
    var d := Decide(chat.conversation, p, data, s, db.messages, db.participants, rt);
    if d.Failure? {
      return Failure(d.error);
    }
    r := SaveDecided(chat, db, cf, s, p, data, d.value, rt);
  }

  /**
   * What save_message leaves once the decisions are made: the action's
   * effects come first and its error stops the save; otherwise the
   * messages are the acted-on rows plus the stored message, which carries
   * the decided conversation, sender and approval; without a self-redirect
   * the outbox holds exactly the action's effects and the commit queue
   * exactly its deferred fan-out; with one, inside an atomic block, the
   * redirect is queued after it.
   */
  ghost predicate Saved(chat: ChatsOld.Chat, rows: seq<Message>, ps: seq<Participant>, outbox: seq<Effect>,
                        onCommit: seq<Deferred>, inAtomic: bool, rows': seq<Message>, outbox': seq<Effect>,
                        onCommit': seq<Deferred>, conditions: map<string, Serializers.Condition>, s: Settings, p: Participant,
                        d: Decision, rt: Runtime, r: Result<Option<Message>>)
    requires ActionOf(d).Approve? || ActionOf(d).Forward? ==> ActionOf(d).pk < |rows|
  {
    var a := ActionOf(d);
    var act := ActionOutcome(s, a, rows, ps, inAtomic, rt);
    var acted := Acted(a, rows);
    var redirect := FromManager(p, s) && Flag(d.command, "self_redirect");
    && |outbox'| >= |outbox| + |act.effects|
    && outbox'[..|outbox| + |act.effects|] == outbox + act.effects
    && (act.error.Some? ==>
          && r == Failure(act.error.value) && rows' == rows
          && outbox' == outbox + act.effects && onCommit' == onCommit)
    && (act.error.None? ==>
          && |acted| <= |rows'| <= |acted| + 1 && rows'[..|acted|] == acted
          && (r.Success? && r.value.Some? ==> rows' == acted + [r.value.value])
          && (r.Success? && r.value.None? ==> rows' == acted)
          && (!redirect ==>
                && (r.Failure? ==> rows' == acted)
                && outbox' == outbox + act.effects
                && onCommit' == onCommit + ActionDeferred(a, inAtomic)))
    && (r.Success? && r.value.Some? ==>
          var m := r.value.value;
          && |rows'| == |rows| + 1 && rows'[|rows|] == m
          && m.conversation == chat.conversation && m.sender == Some(d.sender)
          && ("approval_status" !in conditions ==> m.approval == d.approval))
    && (r.Success? && redirect ==>
          r.value.Some? &&
          (inAtomic ==>
             onCommit' == onCommit + ActionDeferred(a, true)
                          + [Redirect(r.value.value.pk, Get(d.command, "bots", JArr([])),
                                      Get(d.command, "overrides", JNull))]))
  }

  /** save_message after the decisions: the manager's action, then the store and the self-redirect. */
  method SaveDecided(chat: ChatsOld.Chat, db: Database, cf: Serializers.ConditionalFields, s: Settings,
                     p: Participant, data: map<string, Json>, d: Decision, rt: Runtime)
    returns (r: Result<Option<Message>>)
    requires db.Valid()
    requires ActionOf(d).Approve? || ActionOf(d).Forward? ==> ActionOf(d).pk < |db.messages|
    modifies db
    ensures db.Valid()
    ensures Saved(chat, old(db.messages), old(db.participants), old(db.outbox), old(db.onCommit),
                  old(db.inAtomic), db.messages, db.outbox, db.onCommit, cf.conditions, s, p, d, rt, r)
    ensures db.participants == old(db.participants) && db.conversations == old(db.conversations)
    ensures db.inAtomic == old(db.inAtomic)
  {
    var a := ActionOf(d);
    ghost var act := ActionOutcome(s, a, db.messages, db.participants, db.inAtomic, rt);
    ghost var acted := Acted(a, db.messages);
    var err := PerformAction(db, s, a, rt);
    assert db.outbox == old(db.outbox) + act.effects;
    assert db.onCommit == old(db.onCommit) + ActionDeferred(a, old(db.inAtomic));
    if err.Some? {
      return Failure(err.value);
    }
    assert db.messages == acted;
    ghost var out := db.outbox;
    r := CreateAndRedirect(chat, db, cf, s, p, data, d, rt);
    assert db.outbox[..|out|] == out;
  }

  /** The callbacks the manager's action leaves for the commit: the approved message's fan-out inside an atomic block. */
  function ActionDeferred(a: Action, inAtomic: bool): (r: seq<Deferred>)
    ensures r != [] <==> a.Approve? && inAtomic
  {
    if a.Approve? && inAtomic then [Deferred.FanOut(a.pk)] else []
  }
}
