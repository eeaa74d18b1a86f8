/**
 * The websocket consumer of the older tree (chat/consumers.py): the group a
 * conversation's sockets join, the field override on incoming messages, the
 * system messages of connect and disconnect, and the post_save receiver
 * that broadcasts every saved message and runs the installed bots. Channel
 * layer sends become effects in the store's outbox.
 */
module Consumers {
  import opened Domain
  import opened Models
  import Serializers
  import Bots

  const NotAMapping := "argument after ** must be a mapping"
  const DuplicateKeyword := "dict() got multiple values for keyword argument"

  /** _conversation_id_to_group_name */
  function GroupName(conversationId: string): (g: string)
    ensures |g| == |conversationId| + 13 && g[13..] == conversationId
  {
    "conversation_" + conversationId
  }

  // ---------------------------------------------------------------- receive

  /**
   * What `receive` hands to create_message: nothing for an empty frame,
   * otherwise the decoded object with the connection's conversation and
   * participant written over whatever the client sent. `loads` is
   * json.loads (None when the text is not JSON).
   */
  function ReceiveData(textData: Option<string>, loads: string -> Option<Json>,
                       conversation: string, participant: string)
    : (r: Result<Option<map<string, Json>>>)
    ensures textData.None? || textData.value == "" ==> r == Success(None)
    ensures textData.Some? && textData.value != "" ==>
              match loads(textData.value)
              case None => r.Failure? && r.error.ValueError?
              case Some(j) => if j.JObj? then r.Success? && r.value.Some? else r.Failure? && r.error.TypeError?
    ensures r.Success? && r.value.Some? ==>
              var sent := loads(textData.value).value.fields;
              var d := r.value.value;
              && d.Keys == sent.Keys + {"conversation_id", "sender_id"}
              && d["conversation_id"] == JStr(conversation)
              && d["sender_id"] == JStr(participant)
              && (forall k :: k in sent && k != "conversation_id" && k != "sender_id" ==> d[k] == sent[k])
  {
    if textData.None? || textData.value == "" then Success(None)
    else
      match loads(textData.value)
      case None => Failure(ValueError("Expecting value"))
      case Some(j) =>
        if !j.JObj? then Failure(TypeError(NotAMapping))
        else Success(Some(j.fields["conversation_id" := JStr(conversation)]["sender_id" := JStr(participant)]))
  }

  /**
   * A message the serializer accepts from a connection is stored in the
   * connection's conversation under the connection's participant, whatever
   * the client put in those fields.
   */
  lemma ReceivedMessageCarriesConnection(d: map<string, Json>, conditions: map<string, Serializers.Condition>,
                                         rows: seq<Message>, pyStr: Json -> string,
                                         conversation: string, participant: string)
    requires "conversation_id" in d && d["conversation_id"] == JStr(conversation)
    requires "sender_id" in d && d["sender_id"] == JStr(participant)
    ensures var v := Serializers.InternalValue(conditions, d, rows, pyStr);
            v.Success? ==>
              Get(v.value, "conversation_id", JNull) == JStr(conversation)
              && Serializers.OptText(v.value, "sender_id") == Some(participant)
  {
    Serializers.InternalValueControllerFields(conditions, d, rows, pyStr);
  }

  /** ConversationConsumer.receive: decode the frame and create the message. */
  method Receive(db: Database, cf: Serializers.ConditionalFields, conversation: string, participant: string,
                 textData: Option<string>, loads: string -> Option<Json>,
                 limits: map<string, int>, pyStr: Json -> string)
    returns (r: Result<Option<Message>>)
    requires db.Valid()
    modifies db`messages, db`nextKey, db`clock
    ensures db.Valid()
    ensures ReceiveData(textData, loads, conversation, participant).Failure? ==>
              r == Failure(ReceiveData(textData, loads, conversation, participant).error)
    ensures ReceiveData(textData, loads, conversation, participant) == Success(None) ==> r == Success(None)
    ensures r.Failure? || r.value.None? ==> db.messages == old(db.messages)
    ensures r.Success? && r.value.Some? ==>
              && db.messages == old(db.messages) + [r.value.value]
              && r.value.value.conversation == conversation
              && r.value.value.sender == Some(participant)
  {
    var data := ReceiveData(textData, loads, conversation, participant);
    if data.Failure? {
      return Failure(data.error);
    }
    if data.value.None? {
      return Success(None);
    }
    ghost var rows := db.messages;
    r := Serializers.CreateMessage(db, cf, data.value.value, limits, pyStr);
    ReceivedMessageCarriesConnection(data.value.value, cf.conditions, rows, pyStr, conversation, participant);
  }

  // ---------------------------------------------------------------- connect / disconnect

  /**
   * ConversationConsumer.connect: find the session's participant and the
   * conversation, join the group, announce the participant, broadcast the
   * participant list. `participation` is the session's
   * participation_in_conversation map.
   */
  method Connect(db: Database, participation: map<string, string>, conversation: string)
    returns (r: Result<Participant>)
    requires db.Valid()
    modifies db`outbox, db`messages, db`nextKey, db`clock
    ensures db.Valid()
    ensures r.Failure? <==>
              conversation !in participation
              || FindParticipant(old(db.participants), participation[conversation]).None?
              || conversation !in old(db.conversations)
    ensures r.Failure? ==> r.error.DoesNotExist? && db.messages == old(db.messages) && db.outbox == old(db.outbox)
    ensures r.Success? ==>
              var pid := participation[conversation];
              var joined := Stamp(SystemDraft(conversation, Joined, map["participant_id" := JStr(pid)], No),
                                  |old(db.messages)|, old(db.nextKey), old(db.clock));
              && r.value == FindParticipant(old(db.participants), pid).value
              && db.messages == old(db.messages) + [joined]
              && db.outbox == old(db.outbox) + [GroupAdd(GroupName(conversation)),
                                                 BroadcastState(conversation, ParticipantsOf(old(db.participants), conversation))]
  {
    if conversation !in participation {
      return Failure(DoesNotExist("Participant"));
    }
    var pid := participation[conversation];
    var found := FindParticipant(db.participants, pid);
    if found.None? {
      return Failure(DoesNotExist("Participant"));
    }
    if conversation !in db.conversations {
      return Failure(DoesNotExist("Conversation"));
    }
    db.Emit(GroupAdd(GroupName(conversation)));
    var msg := db.CreateSystemMessage(SystemDraft(conversation, Joined, map["participant_id" := JStr(pid)], No));
    db.Emit(BroadcastState(conversation, ParticipantsOf(db.participants, conversation)));
    r := Success(found.value);
  }

  /**
   * ConversationConsumer.disconnect: announce that the participant left,
   * broadcast the participant list, leave the group. The source saves the
   * new message a second time; that update changes no field.
   */
  method Disconnect(db: Database, conversation: string, participant: Participant)
    requires db.Valid()
    modifies db`outbox, db`messages, db`nextKey, db`clock
    ensures db.Valid()
    ensures var left := Stamp(SystemDraft(conversation, Left, map["participant_id" := JStr(participant.id)], No),
                              |old(db.messages)|, old(db.nextKey), old(db.clock));
            db.messages == old(db.messages) + [left]
    ensures db.outbox == old(db.outbox) + [BroadcastState(conversation, ParticipantsOf(old(db.participants), conversation)),
                                           GroupDiscard(GroupName(conversation))]
  {
    var msg := db.CreateSystemMessage(SystemDraft(conversation, Left, map["participant_id" := JStr(participant.id)], No));
    db.Emit(BroadcastState(conversation, ParticipantsOf(db.participants, conversation)));
    db.Emit(GroupDiscard(GroupName(conversation)));
  }

  /** _participant_watcher, after a save of a participant of `conversation`: broadcast its participant list. */
  method ParticipantWatcher(db: Database, conversation: string)
    requires db.Valid()
    modifies db`outbox
    ensures db.Valid()
    ensures db.outbox == old(db.outbox) + [BroadcastState(conversation, ParticipantsOf(old(db.participants), conversation))]
  {
    db.Emit(BroadcastState(conversation, ParticipantsOf(db.participants, conversation)));
  }

  // ---------------------------------------------------------------- _message_watcher

  /** The bots to run for a message: each BOT participant whose name is installed, with its entry. */
  function UseBots(ps: seq<Participant>, installed: map<string, BotSpec>): seq<(BotSpec, string)>
  {
    if ps == [] then []
    else
      var init, p := ps[..|ps| - 1], ps[|ps| - 1];
      UseBots(init, installed)
      + (if p.kind == Bot && p.name in installed then [(installed[p.name], p.id)] else [])
  }

  /** `a[0] if len(a) >= 1 else []` */
  function ArgsOf(spec: BotSpec): Json
  {
    if spec.args.Some? then spec.args.value else JArr([])
  }

  /** `a[1] if len(a) >= 2 else {}` */
  function KwargsOf(spec: BotSpec): Json
  {
    if spec.kwargs.Some? then spec.kwargs.value else JObj(map[])
  }

  /** One bot run per selected bot, in selection order. */
  function Invocations(useBots: seq<(BotSpec, string)>, pk: nat): (r: seq<Effect>)
    ensures |r| == |useBots|
    ensures forall i :: 0 <= i < |useBots| ==>
              r[i] == InvokeBot(useBots[i].1, pk, ArgsOf(useBots[i].0), KwargsOf(useBots[i].0))
  {
    if useBots == [] then []
    else
      var init, last := useBots[..|useBots| - 1], useBots[|useBots| - 1];
      Invocations(init, pk) + [InvokeBot(last.1, pk, ArgsOf(last.0), KwargsOf(last.0))]
  }

  lemma InvocationsSnoc(useBots: seq<(BotSpec, string)>, pk: nat, i: nat)
    requires i < |useBots|
    ensures Invocations(useBots[..i + 1], pk)
            == Invocations(useBots[..i], pk) + [InvokeBot(useBots[i].1, pk, ArgsOf(useBots[i].0), KwargsOf(useBots[i].0))]
  {
    assert useBots[..i + 1][..i] == useBots[..i];
  }

  /**
   * The effects of the receiver for message `m`: broadcast it, then run
   * every installed bot among the participants of its conversation.
   */
  function WatcherEffects(m: Message, ps: seq<Participant>, installed: map<string, BotSpec>): seq<Effect>
  {
    [BroadcastMessage(m.conversation, m.pk, false)]
    + Invocations(UseBots(ParticipantsOf(ps, m.conversation), installed), m.pk)
  }

  /**
   * The bots run for a message are exactly the BOT participants of its
   * conversation whose name is installed; a missing args or kwargs is
   * [] or {}.
   */
  lemma {:induction false} UseBotsSelects(ps: seq<Participant>, installed: map<string, BotSpec>,
                                          spec: BotSpec, id: string)
    ensures (spec, id) in UseBots(ps, installed) <==>
              exists p :: p in ps && p.kind == Bot && p.name in installed
                          && installed[p.name] == spec && p.id == id
  {
    if ps != [] {
      var init, p := ps[..|ps| - 1], ps[|ps| - 1];
      assert ps == init + [p];
      UseBotsSelects(init, installed, spec, id);
    }
  }

  /** Each bot run of the receiver comes from one selected (entry, participant id) pair. */
  lemma InvokedEntry(m: Message, ps: seq<Participant>, installed: map<string, BotSpec>, e: Effect)
    returns (spec: BotSpec)
    requires e in WatcherEffects(m, ps, installed) && e.InvokeBot?
    ensures (spec, e.bot) in UseBots(ParticipantsOf(ps, m.conversation), installed)
    ensures e.args == ArgsOf(spec) && e.kwargs == KwargsOf(spec)
  {
    var use := UseBots(ParticipantsOf(ps, m.conversation), installed);
    var inv := Invocations(use, m.pk);
    assert e in inv;
    var i :| 0 <= i < |inv| && inv[i] == e;
    spec := use[i].0;
  }

  /** Each selected (entry, participant id) pair is run by the receiver. */
  lemma SelectedInvoked(m: Message, ps: seq<Participant>, installed: map<string, BotSpec>,
                        spec: BotSpec, id: string)
    requires (spec, id) in UseBots(ParticipantsOf(ps, m.conversation), installed)
    ensures InvokeBot(id, m.pk, ArgsOf(spec), KwargsOf(spec)) in WatcherEffects(m, ps, installed)
  {
    var use := UseBots(ParticipantsOf(ps, m.conversation), installed);
    var inv := Invocations(use, m.pk);
    var i :| 0 <= i < |use| && use[i] == (spec, id);
    assert inv[i] in inv;
    assert WatcherEffects(m, ps, installed) == [BroadcastMessage(m.conversation, m.pk, false)] + inv;
  }

  lemma InvokedBots(m: Message, ps: seq<Participant>, installed: map<string, BotSpec>, bot: string)
    ensures (exists e :: e in WatcherEffects(m, ps, installed) && e.InvokeBot? && e.bot == bot)
            <==> exists p :: p in ps && p.conversation == m.conversation && p.kind == Bot
                             && p.name in installed && p.id == bot
    ensures forall e :: e in WatcherEffects(m, ps, installed) && e.InvokeBot? ==>
              exists spec :: spec in installed.Values && e.args == ArgsOf(spec) && e.kwargs == KwargsOf(spec)
  {
    var cps := ParticipantsOf(ps, m.conversation);
    if exists e :: e in WatcherEffects(m, ps, installed) && e.InvokeBot? && e.bot == bot {
      var e :| e in WatcherEffects(m, ps, installed) && e.InvokeBot? && e.bot == bot;
      var spec := InvokedEntry(m, ps, installed, e);
      UseBotsSelects(cps, installed, spec, bot);
    }
    if exists p :: p in ps && p.conversation == m.conversation && p.kind == Bot
                   && p.name in installed && p.id == bot {
      var p :| p in ps && p.conversation == m.conversation && p.kind == Bot
               && p.name in installed && p.id == bot;
      assert p in cps;
      UseBotsSelects(cps, installed, installed[p.name], bot);
      SelectedInvoked(m, ps, installed, installed[p.name], bot);
    }
    forall e | e in WatcherEffects(m, ps, installed) && e.InvokeBot?
      ensures exists spec :: spec in installed.Values && e.args == ArgsOf(spec) && e.kwargs == KwargsOf(spec)
    {
      var spec := InvokedEntry(m, ps, installed, e);
      UseBotsSelects(cps, installed, spec, e.bot);
      var p :| p in cps && p.kind == Bot && p.name in installed && installed[p.name] == spec && p.id == e.bot;
      assert spec in installed.Values;
    }
  }

  /** The first loop of _message_watcher: collect (entry, participant id) for the installed bots. */
  method SelectBots(ps: seq<Participant>, installed: map<string, BotSpec>)
    returns (useBots: seq<(BotSpec, string)>)
    ensures useBots == UseBots(ps, installed)
  {
    useBots := [];
    for i := 0 to |ps|
      invariant useBots == UseBots(ps[..i], installed)
    {
      assert ps[..i + 1][..i] == ps[..i];
      var p := ps[i];
      if p.kind == Bot && p.name in installed {
        useBots := useBots + [(installed[p.name], p.id)];
      }
    }
    assert ps[..|ps|] == ps;
  }

  /** _message_watcher: broadcast the saved message, then run the installed bots. */
  method MessageWatcher(db: Database, installed: map<string, BotSpec>, m: Message)
    requires db.Valid()
    modifies db`outbox
    ensures db.Valid()
    ensures db.outbox == old(db.outbox) + WatcherEffects(m, old(db.participants), installed)
  {
    db.Emit(BroadcastMessage(m.conversation, m.pk, false));
    var useBots := SelectBots(ParticipantsOf(db.participants, m.conversation), installed);
    ghost var start := db.outbox;
    for i := 0 to |useBots|
      invariant db.Valid()
      invariant db.outbox == start + Invocations(useBots[..i], m.pk)
    {
      var (spec, id) := useBots[i];
      db.Emit(InvokeBot(id, m.pk, ArgsOf(spec), KwargsOf(spec)));
      InvocationsSnoc(useBots, m.pk, i);
      AppendAssoc(start, Invocations(useBots[..i], m.pk), [InvokeBot(id, m.pk, ArgsOf(spec), KwargsOf(spec))]);
    }
    assert useBots[..|useBots|] == useBots;
    AppendAssoc(old(db.outbox), [BroadcastMessage(m.conversation, m.pk, false)], Invocations(useBots, m.pk));
  }

  /**
   * The send function a bot gets: dict(**message_data, conversation_id=...,
   * sender_id=...), which raises TypeError when the bot's dictionary names
   * either field itself.
   */
  function BotSendData(reply: map<string, Json>, conversation: string, bot: string)
    : (r: Result<map<string, Json>>)
    ensures r.Failure? <==> "conversation_id" in reply || "sender_id" in reply
    ensures r.Success? ==>
              && r.value.Keys == reply.Keys + {"conversation_id", "sender_id"}
              && r.value["conversation_id"] == JStr(conversation)
              && r.value["sender_id"] == JStr(bot)
              && forall k :: k in reply ==> r.value[k] == reply[k]
  {
    if "conversation_id" in reply || "sender_id" in reply then
      Failure(TypeError(DuplicateKeyword))
    else
      Success(reply["conversation_id" := JStr(conversation)]["sender_id" := JStr(bot)])
  }

  /**
   * The replies of the example bots always pass through the send function:
   * they carry the reply text and quote, the conversation and the bot as
   * sender.
   */
  lemma ReplySendable(m: Message, ps: seq<Participant>, answer: string -> string,
                      conversation: string, bot: string)
    requires Bots.Respond(m, ps, answer).Some?
    ensures var reply := Bots.Respond(m, ps, answer).value;
            var sent := BotSendData(reply, conversation, bot);
            && sent.Success?
            && sent.value["sender_id"] == JStr(bot)
            && sent.value["quoted_message_id"] == JStr(m.mId)
  {
  }
}
