/**
 * The conversation controller of the older tree (blab-controller/chat/chats.py):
 * the insert-once registry of Chat instances, the participants and system
 * messages of a new conversation, joining, and the approval gate of
 * save_message.
 */
module ChatsOld {
  import opened Domain
  import opened Models
  import Serializers

  /** The controller of one conversation. */
  class Chat {
    const conversation: string

    constructor (conversation: string)
      ensures this.conversation == conversation
    {
      this.conversation := conversation;
    }
  }

  const SettingsHasNoGet := "'Settings' object has no attribute 'get'"
  const AlreadyCreated := "Chat instance already created for this conversation"

  /** Chat._all_chats: the class-level registry, keyed by conversation id. */
  class Registry {
    var chats: map<string, Chat>

    /** Every registered Chat is filed under its own conversation. */
    ghost predicate Valid()
      reads this
    {
      forall id :: id in chats ==> chats[id].conversation == id
    }

    constructor ()
      ensures Valid() && chats == map[]
    {
      chats := map[];
    }

    /** Chat(conversation): registers a new controller, once per conversation. */
    method NewChat(conversation: string) returns (r: Result<Chat>)
      requires Valid()
      modifies this
      ensures Valid()
      ensures conversation in old(chats) ==> r == Failure(ValueError(AlreadyCreated)) && chats == old(chats)
      ensures conversation !in old(chats) ==>
                && r.Success? && fresh(r.value) && r.value.conversation == conversation
                && chats == old(chats)[conversation := r.value]
    {
      if conversation in chats {
        return Failure(ValueError(AlreadyCreated));
      }
      var chat := new Chat(conversation);
      chats := chats[conversation := chat];
      r := Success(chat);
    }

    /** get_chat: the registered controller, or None; it never creates one. */
    function GetChat(conversation: string): (r: Option<Chat>)
      requires Valid()
      reads this
      ensures r.Some? <==> conversation in chats
      ensures r.Some? ==> r.value.conversation == conversation
    {
      if conversation in chats then Some(chats[conversation]) else None
    }
  }

  /** The older tree has no required bots: no bot spec marks one. */
  const NoSpecs: map<string, BotSpec> := map[]

  /** `bots` followed by the manager bot when CHAT_BOT_MANAGER is not None. */
  function IncludeBots(bots: seq<string>, manager: Option<string>): (r: seq<string>)
    ensures |r| >= |bots| && r[..|bots|] == bots
    ensures manager.None? ==> r == bots
    ensures manager.Some? ==> |r| == |bots| + 1 && r[|bots|] == manager.value
  {
    bots + (if manager.Some? then [manager.value] else [])
  }

  /** _create_human_participant: a HUMAN row, renamed to "ANON_" + id when the nickname is empty. */
  method CreateHumanParticipant(db: Database, conversation: string, nickname: string) returns (p: Participant)
    requires db.Valid()
    modifies db`participants, db`nextKey
    ensures db.Valid()
    ensures p == Participant(NewId(old(db.nextKey)), conversation, HumanName(nickname, NewId(old(db.nextKey))), Human, false)
    ensures db.participants == old(db.participants) + [p] && db.nextKey == old(db.nextKey) + 1
  {
    p := db.CreateParticipant(conversation, Human, nickname, false);
    if nickname == "" {
      db.RenameParticipant(|db.participants| - 1, "ANON_" + p.id);
      p := p.(name := "ANON_" + p.id);
      assert db.participants == old(db.participants) + [p];
    }
  }

  lemma BotRowsSnoc(conversation: string, names: seq<string>, installed: map<string, BotSpec>, key: nat, i: nat)
    requires i < |names|
    ensures BotRows(conversation, names[..i + 1], installed, key)
            == BotRows(conversation, names[..i], installed, key)
               + [Participant(NewId(key + 2 * i), conversation, names[i], Bot, Required(installed, names[i]))]
  {
    assert names[..i + 1][..i] == names[..i];
  }

  lemma JoinedRowsSnoc(conversation: string, rows: seq<Participant>, bot: Participant, pk: nat, key: nat, clock: int)
    ensures JoinedRows(conversation, rows + [bot], pk, key, clock)
            == JoinedRows(conversation, rows, pk, key, clock)
               + [Stamp(JoinedDraft(conversation, bot.id), pk + |rows|, key + 2 * |rows| + 1, clock + |rows|)]
  {
    assert (rows + [bot])[..|rows|] == rows;
  }

  /** One round of the bot loop, stated against the rows created so far. */
  method AddBot(db: Database, conversation: string, names: seq<string>, installed: map<string, BotSpec>, i: nat,
                ghost key: nat, ghost pk: nat, ghost clock: int, ghost rows: seq<Participant>)
    returns (bot: Participant)
    requires db.Valid() && i < |names| && |rows| == i
    requires db.nextKey == key + 2 * i && db.clock == clock + i && |db.messages| == pk + i
    modifies db`participants, db`messages, db`nextKey, db`clock
    ensures db.Valid()
    ensures bot == Participant(NewId(key + 2 * i), conversation, names[i], Bot, Required(installed, names[i]))
    ensures db.participants == old(db.participants) + [bot]
    ensures db.messages == old(db.messages) + [Stamp(JoinedDraft(conversation, bot.id), pk + |rows|, key + 2 * |rows| + 1, clock + |rows|)]
    ensures db.nextKey == key + 2 * (i + 1) && db.clock == clock + i + 1
  {
    bot := JoinBot(db, conversation, names[i], Required(installed, names[i]));
  }

  /** The bot loop of _on_create over `names`. */
  method AddBots(db: Database, conversation: string, names: seq<string>, installed: map<string, BotSpec>)
    returns (rows: seq<Participant>)
    requires db.Valid()
    modifies db`participants, db`messages, db`nextKey, db`clock
    ensures db.Valid()
    ensures rows == BotRows(conversation, names, installed, old(db.nextKey))
    ensures db.participants == old(db.participants) + rows
    ensures db.messages == old(db.messages)
                           + JoinedRows(conversation, rows, |old(db.messages)|, old(db.nextKey), old(db.clock))
    ensures db.nextKey == old(db.nextKey) + 2 * |names| && db.clock == old(db.clock) + |names|
  {
    ghost var key, pk, clock := db.nextKey, |db.messages|, db.clock;
    ghost var added: seq<Message> := [];
    rows := [];
    for i := 0 to |names|
      invariant db.Valid()
      invariant rows == BotRows(conversation, names[..i], installed, key) && |rows| == i
      invariant added == JoinedRows(conversation, rows, pk, key, clock)
      invariant db.participants == old(db.participants) + rows
      invariant db.messages == old(db.messages) + added
      invariant db.nextKey == key + 2 * i && db.clock == clock + i && |added| == i
    {
      BotRowsSnoc(conversation, names, installed, key, i);
      var bot := AddBot(db, conversation, names, installed, i, key, pk, clock, rows);
      JoinedRowsSnoc(conversation, rows, bot, pk, key, clock);
      ghost var joined := Stamp(JoinedDraft(conversation, bot.id), pk + |rows|, key + 2 * |rows| + 1, clock + |rows|);
      AppendAssoc(old(db.messages), added, [joined]);
      AppendAssoc(old(db.participants), rows, [bot]);
      added := added + [joined];
      rows := rows + [bot];
    }
    assert names[..|names|] == names;
  }

  /** The first two writes of _on_create: the conversation-created message, then the human participant. */
  method CreateOpening(db: Database, conv: string, nickname: string) returns (human: Participant)
    requires db.Valid()
    modifies db`participants, db`messages, db`nextKey, db`clock
    ensures db.Valid()
    ensures var key := old(db.nextKey);
            human == Participant(NewId(key + 1), conv, HumanName(nickname, NewId(key + 1)), Human, false)
    ensures db.participants == old(db.participants) + [human]
    ensures db.messages == old(db.messages)
                           + [Stamp(SystemDraft(conv, Created, map[], Automatic), |old(db.messages)|,
                                    old(db.nextKey), old(db.clock))]
    ensures db.nextKey == old(db.nextKey) + 2 && db.clock == old(db.clock) + 1
  {
    var created := db.CreateSystemMessage(SystemDraft(conv, Created, map[], Automatic));
    human := CreateHumanParticipant(db, conv, nickname);
  }

  /**
   * _on_create: the conversation-created message, the human participant,
   * then one BOT participant and one participant-joined message per
   * requested bot and for the manager. The human comes first.
   */
  method OnCreate(chat: Chat, db: Database, s: Settings, nickname: string, bots: seq<string>)
    returns (ps: seq<Participant>)
    requires db.Valid()
    modifies db`participants, db`messages, db`nextKey, db`clock
    ensures db.Valid()
    ensures var key, pk, clock := old(db.nextKey), |old(db.messages)|, old(db.clock);
            var conv := chat.conversation;
            var human := Participant(NewId(key + 1), conv, HumanName(nickname, NewId(key + 1)), Human, false);
            var rows := BotRows(conv, IncludeBots(bots, s.manager), NoSpecs, key + 2);
            && ps == [human] + rows
            && Opened(conv, human, rows, old(db.participants), old(db.messages), key, clock,
                      db.participants, db.messages)
  {
    ghost var p0 := db.participants;
    var human := CreateOpening(db, chat.conversation, nickname);
    var rows := AddBots(db, chat.conversation, IncludeBots(bots, s.manager), NoSpecs);
    AppendAssoc(p0, [human], rows);
    ps := [human] + rows;
  }

  /** on_create_conversation: register a new Chat, then _on_create. */
  method OnCreateConversation(reg: Registry, db: Database, s: Settings, nickname: string, bots: seq<string>,
                              conversation: string)
    returns (r: Result<seq<Participant>>)
    requires reg.Valid() && db.Valid()
    modifies reg, db`participants, db`messages, db`nextKey, db`clock
    ensures reg.Valid() && db.Valid()
    ensures conversation in old(reg.chats) ==>
              r == Failure(ValueError(AlreadyCreated)) && reg.chats == old(reg.chats)
              && db.participants == old(db.participants) && db.messages == old(db.messages)
    ensures conversation !in old(reg.chats) ==>
              && conversation in reg.chats && reg.chats[conversation].conversation == conversation
              && r.Success? && |r.value| == 1 + |IncludeBots(bots, s.manager)|
              && r.value[0].kind == Human
              && db.participants == old(db.participants) + r.value
    ensures conversation !in old(reg.chats) ==>
              var key, pk, clock := old(db.nextKey), |old(db.messages)|, old(db.clock);
              var human := Participant(NewId(key + 1), conversation, HumanName(nickname, NewId(key + 1)), Human, false);
              var rows := BotRows(conversation, IncludeBots(bots, s.manager), NoSpecs, key + 2);
              && r == Success([human] + rows)
              && Opened(conversation, human, rows, old(db.participants), old(db.messages), key, clock,
                        db.participants, db.messages)
  {
    ghost var key, p0, m0 := db.nextKey, db.participants, db.messages;
    var chat := reg.NewChat(conversation);
    if chat.Failure? {
      return Failure(chat.error);
    }
    ghost var chats := reg.chats;
    var ps := OnCreate(chat.value, db, s, nickname, bots);
    assert reg.chats == chats;
    ghost var rows := BotRows(conversation, IncludeBots(bots, s.manager), NoSpecs, key + 2);
    assert ps == [Participant(NewId(key + 1), conversation, HumanName(nickname, NewId(key + 1)), Human, false)] + rows;
    BotRowsInOrder(conversation, IncludeBots(bots, s.manager), NoSpecs, key + 2);
    r := Success(ps);
  }

  /**
   * The bots of a new conversation, which follow the human in the
   * participant list: a BOT per requested name in request order, then the
   * manager bot when one is configured.
   */
  lemma OnCreateOrder(conv: string, bots: seq<string>, manager: Option<string>, key: nat)
    ensures var rows := BotRows(conv, IncludeBots(bots, manager), NoSpecs, key);
            && |rows| == |bots| + (if manager.Some? then 1 else 0)
            && (forall i :: 0 <= i < |bots| ==> rows[i].kind == Bot && rows[i].name == bots[i])
            && (manager.Some? ==> rows[|bots|].kind == Bot && rows[|bots|].name == manager.value)
  {
    var invited := IncludeBots(bots, manager);
    BotRowsInOrder(conv, invited, NoSpecs, key);
    forall i | 0 <= i < |bots| ensures invited[i] == bots[i] {
      assert invited[i] == invited[..|bots|][i];
    }
  }

  /** generate_participant_joined_system_message */
  method ParticipantJoinedMessage(chat: Chat, db: Database, pid: string) returns (m: Message)
    requires db.Valid()
    modifies db`messages, db`nextKey, db`clock
    ensures db.Valid()
    ensures m == Stamp(JoinedDraft(chat.conversation, pid), |old(db.messages)|, old(db.nextKey), old(db.clock))
    ensures db.messages == old(db.messages) + [m]
  {
    m := db.CreateSystemMessage(JoinedDraft(chat.conversation, pid));
  }

  /** join: one new HUMAN participant; an empty nickname becomes "ANON_" + id. */
  method Join(chat: Chat, db: Database, nickname: string) returns (p: Participant)
    requires db.Valid()
    modifies db`participants, db`nextKey
    ensures db.Valid()
    ensures p == Participant(NewId(old(db.nextKey)), chat.conversation,
                             HumanName(nickname, NewId(old(db.nextKey))), Human, false)
    ensures db.participants == old(db.participants) + [p]
  {
    p := CreateHumanParticipant(db, chat.conversation, nickname);
  }

  // ---------------------------------------------------------------- save_message

  /**
   * The approval gate as written: `settings.get(...)` is evaluated for
   * every sender that is not HUMAN, and Django's settings object has no
   * `get`, so the call raises.
   */
  function ApprovalForAsWritten(kind: Kind, s: Settings): (r: Result<Approval>)
    ensures kind == Human ==> r == Success(Automatic)
    ensures kind == Bot ==> r.Failure? && r.error.AttributeError?
  {
    if kind == Human then Success(Automatic)
    else Failure(AttributeError(SettingsHasNoGet))
  }

  /** The approval gate as intended: automatic for a human or when no manager is configured. */
  function ApprovalFor(kind: Kind, s: Settings): (r: Approval)
    ensures r != ByManager
    ensures r == Automatic <==> kind == Human || !ManagerConfigured(s)
  {
    if kind == Human || !ManagerConfigured(s) then Automatic else No
  }

  /**
   * A bot's message can never be saved through the gate as written, even
   * when no manager is configured and the intended gate approves it.
   */
  lemma BotSaveRaisesAsWritten(s: Settings)
    requires !ManagerConfigured(s)
    ensures ApprovalForAsWritten(Bot, s).Failure?
    ensures ApprovalFor(Bot, s) == Automatic
  {
  }

  /** The two gates agree on every human sender. */
  lemma HumanGateAgrees(s: Settings)
    ensures ApprovalForAsWritten(Human, s) == Success(ApprovalFor(Human, s))
  {
  }

  /** {**message_data, **overridden_data} */
  function Overridden(data: map<string, Json>, conversation: string, sender: string, a: Approval)
    : map<string, Json>
  {
    data + map["conversation_id" := JStr(conversation), "sender_id" := JStr(sender),
               "approval_status" := JNum(a.Code())]
  }

  /** The controller's fields win over the client's; every other field is the client's. */
  lemma OverriddenWins(data: map<string, Json>, conversation: string, sender: string, a: Approval)
    ensures var d := Overridden(data, conversation, sender, a);
            && d.Keys == data.Keys + {"conversation_id", "sender_id", "approval_status"}
            && d["conversation_id"] == JStr(conversation) && d["sender_id"] == JStr(sender)
            && Serializers.ApprovalOf(d["approval_status"]) == Some(a)
            && forall k :: k in data && k !in {"conversation_id", "sender_id", "approval_status"} ==> d[k] == data[k]
  {
  }

  /**
   * What the serializer makes of the overridden data keeps the controller's
   * conversation, sender and approval status, as long as no condition
   * hides the approval status.
   */
  lemma OverriddenCarried(data: map<string, Json>, conditions: map<string, Serializers.Condition>,
                          rows: seq<Message>, pyStr: Json -> string,
                          conversation: string, sender: string, a: Approval)
    requires "approval_status" !in conditions
    ensures var v := Serializers.InternalValue(conditions, Overridden(data, conversation, sender, a), rows, pyStr);
            v.Success? ==>
              && Get(v.value, "conversation_id", JNull) == JStr(conversation)
              && Serializers.OptText(v.value, "sender_id") == Some(sender)
              && Serializers.ApprovalOf(Get(v.value, "approval_status", JNum(0))) == Some(a)
  {
    var d := Overridden(data, conversation, sender, a);
    OverriddenWins(data, conversation, sender, a);
    Serializers.InternalValueControllerFields(conditions, d, rows, pyStr);
  }

  const OtherConversation := "This participant belongs to another conversation"

  /**
   * save_message, with the approval gate as intended: a sender of another
   * conversation is refused; otherwise the message is created with the
   * controller's conversation, sender and approval status.
   */
  method SaveMessage(chat: Chat, db: Database, cf: Serializers.ConditionalFields, s: Settings,
                     participant: Participant, data: map<string, Json>,
                     limits: map<string, int>, pyStr: Json -> string)
    returns (r: Result<Option<Message>>)
    requires db.Valid()
    modifies db`messages, db`nextKey, db`clock
    ensures db.Valid()
    ensures participant.conversation != chat.conversation ==>
              r == Failure(ValueError(OtherConversation)) && db.messages == old(db.messages)
    ensures r.Failure? || r.value.None? ==> db.messages == old(db.messages)
    ensures r.Success? && r.value.Some? ==>
              var m := r.value.value;
              && db.messages == old(db.messages) + [m]
              && m.conversation == chat.conversation && m.sender == Some(participant.id)
              && ("approval_status" !in cf.conditions ==> m.approval == ApprovalFor(participant.kind, s))
  {
    if participant.conversation != chat.conversation {
      return Failure(ValueError(OtherConversation));
    }
    var a := ApprovalFor(participant.kind, s);
    var d := Overridden(data, chat.conversation, participant.id, a);
    ghost var rows := db.messages;
    r := Serializers.CreateMessage(db, cf, d, limits, pyStr);
    if "approval_status" !in cf.conditions {
      OverriddenCarried(data, cf.conditions, rows, pyStr, chat.conversation, participant.id, a);
    } else {
      OverriddenWins(data, chat.conversation, participant.id, a);
      Serializers.InternalValueControllerFields(cf.conditions, d, rows, pyStr);
    }
  }
}
