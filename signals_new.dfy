/**
 * The post_save receivers of the newer tree (blab_controller/chat/signals.py):
 * the fan-out rule that decides who receives a saved message, deferred to
 * the commit when the save happens inside a transaction, and the status
 * broadcast that follows every participant save.
 */
module SignalsNew {
  import opened Domain
  import opened Models

  /** avoid_non_manager_bots: a manager bot is configured and the message is not a SYSTEM message. */
  predicate AvoidNonManagerBots(s: Settings, m: Message)
  {
    ManagerConfigured(s) && m.mtype != System
  }

  /** The bot loop: skip a non-BOT, and while avoiding, skip every bot but the manager. */
  predicate DeliveredTo(p: Participant, s: Settings, avoid: bool)
  {
    p.kind == Bot && !(avoid && s.manager != Some(p.name))
  }

  /** deliver_message_to_bot(.delay) for each participant the bot loop keeps, in order. */
  function BotDeliveries(ps: seq<Participant>, s: Settings, avoid: bool, pk: nat): seq<Effect>
  {
    if ps == [] then []
    else
      var init, p := ps[..|ps| - 1], ps[|ps| - 1];
      BotDeliveries(init, s, avoid, pk)
      + (if DeliveredTo(p, s, avoid) then [DeliverMessage(p.id, pk, JNull, s.enableQueue)] else [])
  }

  /**
   * _message_watcher_function: the manager receives a copy while non-manager
   * bots are avoided, an approved message is broadcast (to humans only while
   * avoiding), and the kept bots receive it whatever its approval status.
   */
  function FanOutEffects(s: Settings, m: Message, ps: seq<Participant>): seq<Effect>
  {
    var avoid := AvoidNonManagerBots(s, m);
    (if avoid then [MessageToManager(m.conversation, m.pk)] else [])
    + (if m.approval != No then [BroadcastMessage(m.conversation, m.pk, avoid)] else [])
    + BotDeliveries(ParticipantsOf(ps, m.conversation), s, avoid, m.pk)
  }

  /**
   * The bot loop delivers exactly to the participants it keeps, always
   * without overrides and queued exactly when the queue is enabled.
   */
  lemma {:induction false} BotDeliveriesExact(ps: seq<Participant>, s: Settings, avoid: bool, pk: nat, e: Effect)
    ensures e in BotDeliveries(ps, s, avoid, pk) <==>
              exists p :: p in ps && DeliveredTo(p, s, avoid)
                          && e == DeliverMessage(p.id, pk, JNull, s.enableQueue)
  {
    if ps != [] {
      var init, p := ps[..|ps| - 1], ps[|ps| - 1];
      assert ps == init + [p];
      BotDeliveriesExact(init, s, avoid, pk, e);
    }
  }

  /** The manager gets its own copy exactly when non-manager bots are avoided. */
  lemma FanOutManagerCopy(s: Settings, m: Message, ps: seq<Participant>)
    ensures MessageToManager(m.conversation, m.pk) in FanOutEffects(s, m, ps)
            <==> AvoidNonManagerBots(s, m)
  {
    var avoid := AvoidNonManagerBots(s, m);
    var e := MessageToManager(m.conversation, m.pk);
    BotDeliveriesExact(ParticipantsOf(ps, m.conversation), s, avoid, m.pk, e);
  }

  /**
   * A message is broadcast exactly when its approval status is nonzero,
   * and the broadcast goes to humans only exactly while non-manager bots
   * are avoided.
   */
  lemma FanOutBroadcast(s: Settings, m: Message, ps: seq<Participant>)
    ensures (exists e :: e in FanOutEffects(s, m, ps) && e.BroadcastMessage?) <==> m.approval != No
    ensures forall e :: e in FanOutEffects(s, m, ps) && e.BroadcastMessage? ==>
              e == BroadcastMessage(m.conversation, m.pk, AvoidNonManagerBots(s, m))
  {
    var avoid := AvoidNonManagerBots(s, m);
    var bots := BotDeliveries(ParticipantsOf(ps, m.conversation), s, avoid, m.pk);
    forall e | e in bots ensures !e.BroadcastMessage? {
      BotDeliveriesExact(ParticipantsOf(ps, m.conversation), s, avoid, m.pk, e);
    }
    if m.approval != No {
      assert BroadcastMessage(m.conversation, m.pk, avoid) in FanOutEffects(s, m, ps);
    }
  }

  /**
   * A bot receives the message exactly when it is a BOT participant of the
   * message's conversation and, while non-manager bots are avoided, it is
   * the manager; approval plays no part. Every delivery is queued exactly
   * when CHAT_ENABLE_QUEUE is set.
   */
  lemma FanOutBots(s: Settings, m: Message, ps: seq<Participant>, bot: string)
    ensures (exists e :: e in FanOutEffects(s, m, ps) && e.DeliverMessage? && e.bot == bot)
            <==> exists p :: p in ps && p.conversation == m.conversation && p.id == bot
                             && DeliveredTo(p, s, AvoidNonManagerBots(s, m))
    ensures forall e :: e in FanOutEffects(s, m, ps) && e.DeliverMessage? ==>
              e.pk == m.pk && e.queued == s.enableQueue && e.overrides == JNull
  {
    var avoid := AvoidNonManagerBots(s, m);
    var cps := ParticipantsOf(ps, m.conversation);
    var bots := BotDeliveries(cps, s, avoid, m.pk);
    var all := FanOutEffects(s, m, ps);
    forall e | e in all && e.DeliverMessage?
      ensures e in bots
      ensures e.pk == m.pk && e.queued == s.enableQueue && e.overrides == JNull
    {
      BotDeliveriesExact(cps, s, avoid, m.pk, e);
    }
    if exists p :: p in ps && p.conversation == m.conversation && p.id == bot && DeliveredTo(p, s, avoid) {
      var p :| p in ps && p.conversation == m.conversation && p.id == bot && DeliveredTo(p, s, avoid);
      var e := DeliverMessage(p.id, m.pk, JNull, s.enableQueue);
      BotDeliveriesExact(cps, s, avoid, m.pk, e);
      assert e in all;
    }
    if exists e :: e in all && e.DeliverMessage? && e.bot == bot {
      var e :| e in all && e.DeliverMessage? && e.bot == bot;
      BotDeliveriesExact(cps, s, avoid, m.pk, e);
    }
  }

  /** The bot loop of _message_watcher_function over the participants `ps`. */
  method DeliverToBots(db: Database, s: Settings, ps: seq<Participant>, avoid: bool, pk: nat)
    requires db.Valid()
    modifies db`outbox
    ensures db.Valid()
    ensures db.outbox == old(db.outbox) + BotDeliveries(ps, s, avoid, pk)
  {
    for i := 0 to |ps|
      invariant db.Valid()
      invariant db.outbox == old(db.outbox) + BotDeliveries(ps[..i], s, avoid, pk)
    {
      assert ps[..i + 1][..i] == ps[..i];
      var p := ps[i];
      if p.kind != Bot {
        continue;
      }
      if avoid && s.manager != Some(p.name) {
        continue;
      }
      db.Emit(DeliverMessage(p.id, pk, JNull, s.enableQueue));
    }
    assert ps[..|ps|] == ps;
  }

  /** _message_watcher_function */
  method MessageWatcherFunction(db: Database, s: Settings, m: Message)
    requires db.Valid()
    modifies db`outbox
    ensures db.Valid()
    ensures db.outbox == old(db.outbox) + FanOutEffects(s, m, old(db.participants))
  {
    var avoid := ManagerConfigured(s) && m.mtype != System;
    ghost var first := if avoid then [MessageToManager(m.conversation, m.pk)] else [];
    ghost var second := if m.approval != No then [BroadcastMessage(m.conversation, m.pk, avoid)] else [];
    ghost var deliveries := BotDeliveries(ParticipantsOf(old(db.participants), m.conversation), s, avoid, m.pk);
    assert FanOutEffects(s, m, old(db.participants)) == first + second + deliveries;
    if avoid {
      db.Emit(MessageToManager(m.conversation, m.pk));
    }
    assert db.outbox == old(db.outbox) + first;
    if m.approval.Code() != 0 {
      db.Emit(BroadcastMessage(m.conversation, m.pk, avoid));
    }
    assert db.outbox == old(db.outbox) + first + second;
    DeliverToBots(db, s, ParticipantsOf(db.participants, m.conversation), avoid, m.pk);
    AppendAssoc(old(db.outbox), first, second);
    AppendAssoc(old(db.outbox), first + second, deliveries);
  }

  /**
   * _message_watcher: inside an atomic block the fan-out waits for the
   * commit; otherwise it runs at once.
   */
  method MessageWatcher(db: Database, s: Settings, m: Message)
    requires db.Valid()
    modifies db`outbox, db`onCommit
    ensures db.Valid()
    ensures old(db.inAtomic) ==> db.onCommit == old(db.onCommit) + [FanOut(m.pk)] && db.outbox == old(db.outbox)
    ensures !old(db.inAtomic) ==>
              db.outbox == old(db.outbox) + FanOutEffects(s, m, old(db.participants))
              && db.onCommit == old(db.onCommit)
  {
    if !db.inAtomic {
      MessageWatcherFunction(db, s, m);
    } else {
      db.Defer(FanOut(m.pk));
    }
  }

  /** DeliverStatus to every BOT participant of the list, in order. */
  function StatusDeliveries(ps: seq<Participant>, status: seq<Participant>, queued: bool): seq<Effect>
  {
    if ps == [] then []
    else
      var init, p := ps[..|ps| - 1], ps[|ps| - 1];
      StatusDeliveries(init, status, queued)
      + (if p.kind == Bot then [DeliverStatus(p.id, status, queued)] else [])
  }

  /** _participant_watcher: broadcast the participant list, then hand it to every bot. */
  function StatusEffects(s: Settings, conversation: string, ps: seq<Participant>): seq<Effect>
  {
    var status := ParticipantsOf(ps, conversation);
    [BroadcastState(conversation, status)] + StatusDeliveries(status, status, s.enableQueue)
  }

  lemma StatusDeliveriesSnoc(ps: seq<Participant>, status: seq<Participant>, queued: bool, i: nat)
    requires i < |ps|
    ensures StatusDeliveries(ps[..i + 1], status, queued)
            == StatusDeliveries(ps[..i], status, queued)
               + (if ps[i].kind == Bot then [DeliverStatus(ps[i].id, status, queued)] else [])
  {
    assert ps[..i + 1][..i] == ps[..i];
  }

  lemma {:induction false} StatusDeliveriesExact(ps: seq<Participant>, status: seq<Participant>, queued: bool, e: Effect)
    ensures e in StatusDeliveries(ps, status, queued) <==>
              exists p :: p in ps && p.kind == Bot && e == DeliverStatus(p.id, status, queued)
  {
    if ps != [] {
      var init, p := ps[..|ps| - 1], ps[|ps| - 1];
      assert ps == init + [p];
      StatusDeliveriesExact(init, status, queued, e);
    }
  }

  /**
   * Every BOT participant of the conversation, and nothing else, receives
   * the same participant list that was broadcast.
   */
  lemma StatusToEveryBot(s: Settings, conversation: string, ps: seq<Participant>, e: Effect)
    requires e in StatusEffects(s, conversation, ps) && !e.BroadcastState?
    ensures e.DeliverStatus? && e.participants == ParticipantsOf(ps, conversation) && e.queued == s.enableQueue
    ensures exists p :: p in ps && p.conversation == conversation && p.kind == Bot && p.id == e.bot
  {
    StatusDeliveriesExact(ParticipantsOf(ps, conversation), ParticipantsOf(ps, conversation), s.enableQueue, e);
  }

  lemma StatusReachesBot(s: Settings, conversation: string, ps: seq<Participant>, p: Participant)
    requires p in ps && p.conversation == conversation && p.kind == Bot
    ensures DeliverStatus(p.id, ParticipantsOf(ps, conversation), s.enableQueue) in StatusEffects(s, conversation, ps)
  {
    var status := ParticipantsOf(ps, conversation);
    StatusDeliveriesExact(status, status, s.enableQueue, DeliverStatus(p.id, status, s.enableQueue));
  }

  /** _participant_watcher, after a save of a participant of `conversation`. */
  method ParticipantWatcher(db: Database, s: Settings, conversation: string)
    requires db.Valid()
    modifies db`outbox
    ensures db.Valid()
    ensures db.outbox == old(db.outbox) + StatusEffects(s, conversation, old(db.participants))
  {
    var status := ParticipantsOf(db.participants, conversation);
    db.Emit(BroadcastState(conversation, status));
    ghost var start := db.outbox;
    for i := 0 to |status|
      invariant db.Valid()
      invariant db.outbox == start + StatusDeliveries(status[..i], status, s.enableQueue)
    {
      StatusDeliveriesSnoc(status, status, s.enableQueue, i);
      if status[i].kind == Bot {
        db.Emit(DeliverStatus(status[i].id, status, s.enableQueue));
        AppendAssoc(start, StatusDeliveries(status[..i], status, s.enableQueue), [DeliverStatus(status[i].id, status, s.enableQueue)]);
      }
    }
    assert status[..|status|] == status;
    AppendAssoc(old(db.outbox), [BroadcastState(conversation, status)], StatusDeliveries(status, status, s.enableQueue));
  }
}
