/**
 * The HTTP views of the newer tree: the rooms gate on listing, retrieving
 * and joining conversations, the checks on a new conversation's nickname
 * and bot list, the hand-over to the Chat controller, and the message
 * endpoint (posting as the session's participant, and the history window
 * over approved messages).
 */
module ViewsNew {
  import opened Domain
  import opened Models
  import opened History
  import opened Sessions
  import Serializers
  import ChatsOld
  import ChatsNew

  // ---------------------------------------------------------------- the rooms gate

  /**
   * ConversationViewSet.list: without CHAT_ENABLE_ROOMS the listing is
   * refused; with it, every conversation is listed.
   */
  function ListConversations(s: Settings, conversations: seq<string>): (r: Result<seq<string>>)
    ensures r.Failure? <==> !s.enableRooms
    ensures r.Failure? ==> r.error == PermissionDenied
    ensures r.Success? ==> forall c :: c in r.value <==> c in conversations
  {
    if !s.enableRooms then Failure(PermissionDenied) else Success(conversations)
  }

  /**
   * ConversationViewSet.retrieve: a missing conversation is Http404; with
   * rooms disabled only a browser whose session participant for it still
   * exists may read it.
   */
  function Retrieve(s: Settings, session: Session, ps: seq<Participant>, conversations: seq<string>,
                    conversation: string): (r: Result<string>)
    reads session
    ensures conversation !in conversations ==> r == Failure(DoesNotExist("Conversation"))
    ensures conversation in conversations ==>
              (r.Failure? <==> !s.enableRooms && session.ParticipantFor(conversation, ps).None?)
    ensures r.Failure? ==> r.error == DoesNotExist("Conversation") || r.error == PermissionDenied
    ensures r.Success? ==> r.value == conversation
  {
    if conversation !in conversations then Failure(DoesNotExist("Conversation"))
    else if !s.enableRooms && session.ParticipantFor(conversation, ps).None? then Failure(PermissionDenied)
    else Success(conversation)
  }

  // ---------------------------------------------------------------- the bot list of a new conversation

  const InvalidBotArray := "Invalid bot array:"
  const BotsNotFound := "Bot(s) not found: "

  predicate AllText(items: seq<Json>)
  {
    forall i :: 0 <= i < |items| ==> items[i].JStr?
  }

  function Texts(items: seq<Json>): (names: seq<string>)
    requires AllText(items)
    ensures |names| == |items| && forall i :: 0 <= i < |items| ==> names[i] == items[i].s
  {
    seq(|items|, i requires 0 <= i < |items| => items[i].s)
  }

  /** `[b for b in bots if b not in available_bots]` over hashable items. */
  function Missing(items: seq<Json>, installed: map<string, BotSpec>): (r: seq<Json>)
    ensures r == [] <==> forall i :: 0 <= i < |items| ==> items[i].JStr? && items[i].s in installed
    ensures forall b :: b in r ==> b in items && !(b.JStr? && b.s in installed)
  {
    if items == [] then []
    else
      var init, last := items[..|items| - 1], items[|items| - 1];
      assert items == init + [last];
      Missing(init, installed) + (if last.JStr? && last.s in installed then [] else [last])
  }

  /** A list or a dictionary: testing it for membership in a dict raises TypeError. */
  predicate Unhashable(j: Json)
  {
    j.JArr? || j.JObj?
  }

  /** The first item, in list order, that `in` cannot hash, if any. */
  function FirstUnhashable(items: seq<Json>): (r: Option<Json>)
    ensures r.None? <==> forall i :: 0 <= i < |items| ==> !Unhashable(items[i])
    ensures r.Some? ==> r.value in items && Unhashable(r.value)
  {
    if items == [] then None
    else if Unhashable(items[0]) then Some(items[0])
    else FirstUnhashable(items[1..])
  }

  function Unhashed(j: Json): string
  {
    "unhashable type: '" + (if j.JArr? then "list" else "dict") + "'"
  }

  /**
   * The bot-list checks of perform_create as written. The type test keeps
   * the non-text items and asks whether any of them is truthy, so a falsy
   * non-text item (an empty list or dict, 0, false, null) gets past it;
   * the membership test then raises TypeError for an unhashable one and
   * reports a hashable one as a missing bot.
   */
  function BotListAsWritten(bots: Json, installed: map<string, BotSpec>, pyStr: Json -> string)
    : (r: Result<seq<string>>)
    ensures r.Success? ==> bots.JArr? && AllText(bots.items) && r.value == Texts(bots.items)
    ensures r.Failure? && r.error.TypeError? ==>
              bots.JArr? && exists i :: 0 <= i < |bots.items| && Unhashable(bots.items[i]) && !Truthy(bots.items[i])
  {
    if !bots.JArr? then Failure(RestValidationError("", InvalidBotArray + pyStr(bots)))
    else if exists i :: 0 <= i < |bots.items| && Truthy(bots.items[i]) && !bots.items[i].JStr? then
      Failure(RestValidationError("", InvalidBotArray + pyStr(bots)))
    else match FirstUnhashable(bots.items)
      case Some(b) => Failure(TypeError(Unhashed(b)))
      case None =>
        var missing := Missing(bots.items, installed);
        if missing != [] then Failure(RestValidationError("", BotsNotFound + pyStr(JArr(missing))))
        else Success(Texts(bots.items))
  }

  /**
   * The bot-list checks as intended: a list of texts, every one of them an
   * installed bot; the names come back in request order.
   */
  function BotList(bots: Json, installed: map<string, BotSpec>, pyStr: Json -> string)
    : (r: Result<seq<string>>)
    ensures r.Success? <==> bots.JArr? && forall i :: 0 <= i < |bots.items| ==>
                                             bots.items[i].JStr? && bots.items[i].s in installed
    ensures r.Success? ==> |r.value| == |bots.items|
                           && forall i :: 0 <= i < |r.value| ==> r.value[i] == bots.items[i].s
    ensures !(bots.JArr? && AllText(bots.items)) ==>
              r == Failure(RestValidationError("", InvalidBotArray + pyStr(bots)))
    ensures bots.JArr? && AllText(bots.items) && r.Failure? ==>
              r.error.RestValidationError? && r.error.msg == BotsNotFound + pyStr(JArr(Missing(bots.items, installed)))
  {
    if !bots.JArr? || !AllText(bots.items) then Failure(RestValidationError("", InvalidBotArray + pyStr(bots)))
    else
      var missing := Missing(bots.items, installed);
      if missing != [] then Failure(RestValidationError("", BotsNotFound + pyStr(JArr(missing))))
      else Success(Texts(bots.items))
  }

  /**
   * The flaw changes only which error is raised: both checks accept the
   * same bot lists with the same names, and they agree on every request
   * without a falsy non-text item.
   */
  lemma BotListAgreement(bots: Json, installed: map<string, BotSpec>, pyStr: Json -> string)
    ensures BotListAsWritten(bots, installed, pyStr).Success? <==> BotList(bots, installed, pyStr).Success?
    ensures BotListAsWritten(bots, installed, pyStr).Success? ==>
              BotListAsWritten(bots, installed, pyStr) == BotList(bots, installed, pyStr)
    ensures (bots.JArr? ==> forall i :: 0 <= i < |bots.items| ==> bots.items[i].JStr? || Truthy(bots.items[i])) ==>
              BotListAsWritten(bots, installed, pyStr) == BotList(bots, installed, pyStr)
  {
    if bots.JArr? && !(exists i :: 0 <= i < |bots.items| && Truthy(bots.items[i]) && !bots.items[i].JStr?) {
      if FirstUnhashable(bots.items).None? && Missing(bots.items, installed) == [] {
        assert AllText(bots.items);
      }
      if !AllText(bots.items) {
        var i :| 0 <= i < |bots.items| && !bots.items[i].JStr?;
        assert !Truthy(bots.items[i]);
      }
    }
  }

  /**
   * `{"bots": [[]]}`: the as-written check lets the empty list through its
   * type test and then fails with TypeError (an HTTP 500), where the
   * intended check answers with a ValidationError for an invalid bot array.
   */
  lemma BotListEmptyListItem(installed: map<string, BotSpec>, pyStr: Json -> string)
    ensures var bots := JArr([JArr([])]);
            && BotListAsWritten(bots, installed, pyStr) == Failure(TypeError("unhashable type: 'list'"))
            && BotList(bots, installed, pyStr) == Failure(RestValidationError("", InvalidBotArray + pyStr(bots)))
  {
    var bots := JArr([JArr([])]);
    assert !Truthy(bots.items[0]);
    assert !(exists i :: 0 <= i < |bots.items| && Truthy(bots.items[i]) && !bots.items[i].JStr?);
    assert FirstUnhashable(bots.items) == Some(JArr([]));
    assert Unhashed(JArr([])) == "unhashable type: 'list'";
    assert !bots.items[0].JStr?;
    assert !AllText(bots.items);
  }

  // ---------------------------------------------------------------- creating and joining

  /**
   * ConversationViewSet.perform_create: check the nickname and the bot
   * list before anything is written, create the conversation, let the Chat
   * controller create its participants, and point the session at the
   * first of them, the creator.
   */
  method PerformCreate(reg: ChatsOld.Registry, db: Database, session: Session, s: Settings,
                       data: map<string, Json>, pyStr: Json -> string)
    returns (r: Result<(string, seq<Participant>)>)
    requires reg.Valid() && db.Valid()
    modifies reg, db`conversations, db`participants, db`messages, db`nextKey, db`clock, session
    ensures reg.Valid() && db.Valid()
    ensures var nickname := old(session.Nickname(data));
            var bots := BotList(Get(data, "bots", JArr([])), s.installed, pyStr);
            (nickname.Failure? || bots.Failure?) ==>
              && r == Failure(if nickname.Failure? then nickname.error else bots.error)
              && db.conversations == old(db.conversations) && db.participants == old(db.participants)
              && db.messages == old(db.messages) && reg.chats == old(reg.chats)
              && session.nickname == old(session.nickname) && session.participation == old(session.participation)
    ensures var nickname := old(session.Nickname(data));
            var bots := BotList(Get(data, "bots", JArr([])), s.installed, pyStr);
            var k := old(db.nextKey);
            nickname.Success? && bots.Success? && NewId(k) !in old(reg.chats) ==>
              var conv := NewId(k);
              var names := ChatsOld.IncludeBots(bots.value, s.manager);
              && db.conversations == old(db.conversations) + [conv]
              && (r.Success? <==> forall i :: 0 <= i < |names| ==> names[i] in s.installed)
              && (r.Failure? ==> r.error == TypeError(ChatsNew.NotSubscriptable)
                                 && session.participation == old(session.participation))
              && (r.Success? ==>
                    && r.value.0 == conv && |r.value.1| == 1 + |names|
                    && r.value.1[0] == Participant(NewId(k + 2), conv, HumanName(nickname.value, NewId(k + 2)), Human, false)
                    && db.participants == old(db.participants) + r.value.1
                    && session.nickname == Some(nickname.value)
                    && session.participation == old(session.participation)[conv := r.value.1[0].id])
    ensures var nickname := old(session.Nickname(data));
            var bots := BotList(Get(data, "bots", JArr([])), s.installed, pyStr);
            var k := old(db.nextKey);
            nickname.Success? && bots.Success? && NewId(k) !in old(reg.chats) ==>
              var conv := NewId(k);
              var names := ChatsOld.IncludeBots(bots.value, s.manager);
              var n := ChatsNew.FirstUninstalled(names, s.installed);
              var human := Participant(NewId(k + 2), conv, HumanName(nickname.value, NewId(k + 2)), Human, false);
              var rows := BotRows(conv, names[..n], s.installed, k + 3);
              && Opened(conv, human, rows, old(db.participants), old(db.messages), k + 1, old(db.clock),
                        db.participants, db.messages)
              && (r.Success? ==> r.value.1 == [human] + rows)
              && (r.Failure? ==> session.nickname == old(session.nickname))
  {
    var nickname := session.Nickname(data);
    if nickname.Failure? {
      return Failure(nickname.error);
    }
    var bots := BotList(Get(data, "bots", JArr([])), s.installed, pyStr);
    if bots.Failure? {
      return Failure(bots.error);
    }
    var conv := db.CreateConversation();
    ghost var p0 := db.participants;
    var participants := ChatsNew.OnCreateConversation(reg, db, s, nickname.value, bots.value, conv);
    if participants.Failure? {
      return Failure(participants.error);
    }
    assert participants.value[0] == db.participants[|p0|];
    session.SetNickname(nickname.value);
    session.Participate(conv, participants.value[0].id);
    r := Success((conv, participants.value));
  }

  /**
   * ConversationViewSet.join: the conversation must exist (Http404) and
   * the nickname be text; the session's participant is reused when it
   * still exists; otherwise a new participant is created through the
   * conversation's Chat, which names an empty nickname "ANON_" + id, and
   * only when rooms are enabled.
   */
  method Join(reg: ChatsOld.Registry, db: Database, session: Session, s: Settings,
              data: map<string, Json>, conversation: string)
    returns (r: Result<Participant>)
    requires reg.Valid() && db.Valid()
    modifies reg, db, session
    ensures reg.Valid() && db.Valid()
    ensures conversation !in db.conversations ==> r == Failure(DoesNotExist("Conversation"))
    ensures conversation in db.conversations && old(session.Nickname(data)).Failure? ==>
              r == Failure(RestValidationError("", NicknameNotText))
    ensures var existing := old(session.ParticipantFor(conversation, db.participants));
            conversation in db.conversations && old(session.Nickname(data)).Success? ==>
              && (existing.Some? ==> r == Success(existing.value) && db.participants == old(db.participants))
              && (existing.None? && !s.enableRooms ==> r == Failure(PermissionDenied))
              && (existing.None? && s.enableRooms ==>
                    var id := NewId(old(db.nextKey));
                    && r == Success(Participant(id, conversation, HumanName(old(session.Nickname(data)).value, id),
                                                Human, false))
                    && db.participants == old(db.participants) + [r.value]
                    && conversation in reg.chats)
    ensures r.Failure? ==> db.participants == old(db.participants)
                           && session.participation == old(session.participation)
    ensures r.Success? ==> session.participation == old(session.participation)[conversation := r.value.id]
    ensures session.nickname == old(session.nickname)
    ensures db.conversations == old(db.conversations) && db.messages == old(db.messages)
    ensures db.outbox == old(db.outbox) && db.onCommit == old(db.onCommit)
  {
    if conversation !in db.conversations {
      return Failure(DoesNotExist("Conversation"));
    }
    var nickname := session.Nickname(data);
    if nickname.Failure? {
      return Failure(nickname.error);
    }
    var existing := session.ParticipantFor(conversation, db.participants);
    var p;
    if existing.Some? {
      p := existing.value;
    } else {
      if !s.enableRooms {
        return Failure(PermissionDenied);
      }
      var chat := ChatsNew.GetChat(reg, db, conversation);
      assert chat.Success?;
      p := ChatsOld.Join(chat.value, db, nickname.value);
    }
    session.Participate(conversation, p.id);
    r := Success(p);
  }

  // ---------------------------------------------------------------- the message endpoint

  /**
   * The request data ConversationMessagesViewSet.create hands on: the
   * client's fields, with the conversation, the sender and the approval
   * status set by the server (AUTOMATICALLY_APPROVED for a HUMAN sender,
   * NO otherwise).
   */
  function ServerFields(data: map<string, Json>, conversation: string, p: Participant): (d: map<string, Json>)
    ensures d.Keys == data.Keys + {"conversation_id", "sender_id", "approval_status"}
    ensures d["conversation_id"] == JStr(conversation) && d["sender_id"] == JStr(p.id)
    ensures Serializers.ApprovalOf(d["approval_status"]) == Some(if p.kind == Human then Automatic else No)
    ensures forall f :: f in data && f !in {"conversation_id", "sender_id", "approval_status"} ==> d[f] == data[f]
  {
    data["conversation_id" := JStr(conversation)]
        ["sender_id" := JStr(p.id)]
        ["approval_status" := JNum(if p.kind == Human then 1 else 0)]
  }

  /**
   * ConversationMessagesViewSet.create: a browser without a session
   * participant is refused; otherwise the message is validated and saved
   * with the server's fields, so it lands in this conversation, is sent by
   * that participant, and (unless a field condition drops the approval
   * status) is approved exactly when the sender is HUMAN.
   */
  method CreateMessage(db: Database, session: Session, cf: Serializers.ConditionalFields,
                       data: map<string, Json>, conversation: string, limits: map<string, int>,
                       pyStr: Json -> string)
    returns (r: Result<Message>)
    requires db.Valid()
    modifies db`messages, db`nextKey, db`clock
    ensures db.Valid()
    ensures var p := session.ParticipantFor(conversation, old(db.participants));
            p.None? ==> r == Failure(PermissionDenied)
    ensures var p := session.ParticipantFor(conversation, old(db.participants));
            p.Some? && Serializers.InternalValue(cf.conditions, ServerFields(data, conversation, p.value),
                                                 old(db.messages), pyStr).Failure? ==>
              r == Failure(Serializers.InternalValue(cf.conditions, ServerFields(data, conversation, p.value),
                                                     old(db.messages), pyStr).error)
    ensures r.Failure? ==> db.messages == old(db.messages)
    ensures r.Success? ==>
              var p := session.ParticipantFor(conversation, old(db.participants));
              && p.Some? && db.messages == old(db.messages) + [r.value]
              && r.value.conversation == conversation && r.value.sender == Some(p.value.id)
              && (Serializers.LookupIn(cf.conditions, "approval_status") == Serializers.Always ==>
                    r.value.approval == (if p.value.kind == Human then Automatic else No))
  {
    var p := session.ParticipantFor(conversation, db.participants);
    if p.None? {
      return Failure(PermissionDenied);
    }
    var d := ServerFields(data, conversation, p.value);
    var v := Serializers.ToInternalValue(cf, d, db.messages, pyStr);
    if v.Failure? {
      return Failure(v.error);
    }
    Serializers.InternalValueControllerFields(cf.conditions, d, db.messages, pyStr);
    r := Serializers.Create(db, v.value, limits);
  }

  /** `Message.objects.filter(conversation_id=...).filter(approval_status__gt=0)` */
  function ApprovedIn(conversation: string): Message -> bool
  {
    (m: Message) => m.conversation == conversation && m.approval != No
  }

  /**
   * ConversationMessagesViewSet.get_queryset: a browser with no session
   * participant is refused; otherwise the approved messages of the
   * conversation go through the until/since/limit window.
   */
  function MessageList(session: Session, ps: seq<Participant>, rows: seq<Message>, conversation: string,
                       until: Option<string>, since: Option<string>, limit: Option<string>,
                       parseDateTime: string -> Option<int>, now: int): (r: Result<seq<Message>>)
    reads session
    ensures session.ParticipantFor(conversation, ps).None? ==> r == Failure(PermissionDenied)
    ensures session.ParticipantFor(conversation, ps).Some? ==>
              (r.Success? <==> && ResolveBound(until, parseDateTime, now).Success?
                               && ResolveBound(since, parseDateTime, now).Success?
                               && ParseLimit(limit).Success?)
    ensures r.Success? ==> forall m :: m in r.value ==> m in rows && m.conversation == conversation && m.approval != No
  {
    if session.ParticipantFor(conversation, ps).None? then Failure(PermissionDenied)
    else
      var q := Query(Keep(rows, ApprovedIn(conversation)), until, since, limit, parseDateTime, now);
      QueryFromRows(Keep(rows, ApprovedIn(conversation)), until, since, limit, parseDateTime, now);
      q
  }

  /**
   * On the store's rows (kept in time order), a successful history is in
   * time order, and every approved message of the conversation in the
   * requested range that it leaves out is older than every message it
   * returns.
   */
  lemma MessageListNewest(session: Session, ps: seq<Participant>, rows: seq<Message>, conversation: string,
                          until: Option<string>, since: Option<string>, limit: Option<string>,
                          parseDateTime: string -> Option<int>, now: int)
    requires Ascending(rows)
    ensures var r := MessageList(session, ps, rows, conversation, until, since, limit, parseDateTime, now);
            r.Success? ==>
              var u := ResolveBound(until, parseDateTime, now).value;
              var s := ResolveBound(since, parseDateTime, now).value;
              && Ascending(r.value)
              && forall m, m' ::
                   (m in rows && m.conversation == conversation && m.approval != No && InRange(m, s, u)
                    && m !in r.value && m' in r.value) ==> m.time < m'.time
  {
    var r := MessageList(session, ps, rows, conversation, until, since, limit, parseDateTime, now);
    if r.Success? {
      KeepAscending(rows, ApprovedIn(conversation));
      QueryWindow(Keep(rows, ApprovedIn(conversation)), until, since, limit, parseDateTime, now);
    }
  }
}
