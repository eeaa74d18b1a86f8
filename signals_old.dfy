/**
 * The post_save receivers of the older tree (blab-controller/chat/signals.py).
 * A message of the manager bot whose text starts with "TO:\n" first
 * redirects the message it quotes to the bots named on the following
 * lines; then every message is routed by the fan-out rule, inside an atomic
 * block only once the transaction commits.
 */
module SignalsOld {
  import opened Domain
  import opened Models

  /** What a receiver did before it returned or raised. */
  datatype Outcome = Outcome(effects: seq<Effect>, error: Option<Error>)

  // ---------------------------------------------------------------- "TO:\n" lines

  /** str.split(sep): the pieces between the separators; there is always at least one. */
  function Split(s: string, sep: char): (parts: seq<string>)
    ensures |parts| >= 1
  {
    if s == [] then [""]
    else if s[0] == sep then [""] + Split(s[1..], sep)
    else
      var rest := Split(s[1..], sep);
      [[s[0]] + rest[0]] + rest[1..]
  }

  /** sep.join(parts) */
  function Join(parts: seq<string>, sep: char): string
    requires |parts| >= 1
  {
    if |parts| == 1 then parts[0] else parts[0] + [sep] + Join(parts[1..], sep)
  }

  /** Splitting loses nothing: the pieces hold no separator and join back to the text. */
  lemma {:induction false} SplitJoin(s: string, sep: char)
    ensures Join(Split(s, sep), sep) == s
    ensures forall i :: 0 <= i < |Split(s, sep)| ==> sep !in Split(s, sep)[i]
  {
    if s != [] {
      SplitJoin(s[1..], sep);
      var rest := Split(s[1..], sep);
      if s[0] == sep {
        assert Split(s, sep)[1..] == rest;
        assert s == [sep] + s[1..];
      } else {
        var parts := Split(s, sep);
        assert parts[1..] == rest[1..];
        if |rest| == 1 {
          assert s == [s[0]] + rest[0];
        } else {
          assert Join(rest, sep) == rest[0] + [sep] + Join(rest[1..], sep);
          assert s == [s[0]] + s[1..];
        }
        forall i | 0 <= i < |parts| ensures sep !in parts[i] {
          if i > 0 {
            assert parts[i] == rest[i];
          }
        }
      }
    }
  }

  /** instance.text.strip().split("\n")[1:] */
  function RedirectTargets(text: string): seq<string>
  {
    Split(Strip(text), '\n')[1..]
  }

  /** Splitting text that starts with a piece free of the separator yields that piece glued to the first piece of the rest. */
  lemma {:induction false} SplitPrefix(w: string, t: string, sep: char)
    requires sep !in w
    ensures Split(w + t, sep) == [w + Split(t, sep)[0]] + Split(t, sep)[1..]
  {
    if w != [] {
      SplitPrefix(w[1..], t, sep);
      assert (w + t)[0] == w[0] && (w + t)[1..] == w[1..] + t;
      assert [w[0]] + (w[1..] + Split(t, sep)[0]) == w + Split(t, sep)[0];
    } else {
      var parts := Split(t, sep);
      assert w + t == t && w + parts[0] == parts[0];
      assert parts == [parts[0]] + parts[1..];
    }
  }

  /** Joining pieces that hold no separator and splitting again gives the pieces back. */
  lemma {:induction false} JoinSplit(parts: seq<string>, sep: char)
    requires |parts| >= 1
    requires forall i :: 0 <= i < |parts| ==> sep !in parts[i]
    ensures Split(Join(parts, sep), sep) == parts
  {
    if |parts| == 1 {
      SplitPrefix(parts[0], "", sep);
      assert parts[0] + "" == parts[0];
    } else {
      var rest := Join(parts[1..], sep);
      JoinSplit(parts[1..], sep);
      assert Split([sep] + rest, sep) == [""] + parts[1..] by {
        assert ([sep] + rest)[1..] == rest;
      }
      SplitPrefix(parts[0], [sep] + rest, sep);
      assert parts[0] + [sep] + rest == parts[0] + ([sep] + rest);
      assert parts[0] + "" == parts[0];
      assert ([""] + parts[1..])[1..] == parts[1..];
    }
  }

  /** A joined text starts with its first piece and ends with its last. */
  lemma {:induction false} JoinEnds(parts: seq<string>, sep: char)
    requires |parts| >= 1
    ensures var text := Join(parts, sep);
            && |text| >= |parts[0]| && text[..|parts[0]|] == parts[0]
            && |text| >= |parts[|parts| - 1]|
            && text[|text| - |parts[|parts| - 1]|..] == parts[|parts| - 1]
  {
    if |parts| > 1 {
      JoinEnds(parts[1..], sep);
      var rest := Join(parts[1..], sep);
      assert Join(parts, sep) == parts[0] + ([sep] + rest);
      assert parts[1..][|parts[1..]| - 1] == parts[|parts| - 1];
    }
  }

  /** Trailing white space after a text that ends with no white space is all TrimEnd removes. */
  lemma {:induction false} TrimEndTail(x: string, tail: string)
    requires x != [] && !IsSpace(x[|x| - 1])
    requires forall i :: 0 <= i < |tail| ==> IsSpace(tail[i])
    ensures TrimEnd(x + tail) == x
  {
    if tail != [] {
      TrimEndTail(x, tail[..|tail| - 1]);
      assert (x + tail)[..|x + tail| - 1] == x + tail[..|tail| - 1];
    } else {
      assert x + tail == x;
    }
  }

  /**
   * The redirect targets are the lines after the first: for lines free of
   * newlines whose text starts and ends with no white space, followed by any
   * run of trailing white space, RedirectTargets gives back every line but
   * the first, in order.
   */
  lemma RedirectTargetsLines(lines: seq<string>, tail: string)
    requires |lines| >= 1
    requires forall i :: 0 <= i < |lines| ==> '\n' !in lines[i]
    requires lines[0] != [] && !IsSpace(lines[0][0])
    requires var last := lines[|lines| - 1]; last != [] && !IsSpace(last[|last| - 1])
    requires forall i :: 0 <= i < |tail| ==> IsSpace(tail[i])
    ensures RedirectTargets(Join(lines, '\n') + tail) == lines[1..]
  {
    var text := Join(lines, '\n');
    JoinEnds(lines, '\n');
    var last := lines[|lines| - 1];
    assert text[0] == lines[0][0] by { assert text[..|lines[0]|][0] == text[0]; }
    assert text[|text| - 1] == last[|last| - 1] by {
      assert text[|text| - |last|..][|last| - 1] == text[|text| - 1];
    }
    assert TrimStart(text + tail) == text + tail by { assert (text + tail)[0] == text[0]; }
    TrimEndTail(text, tail);
    JoinSplit(lines, '\n');
  }

  /** The redirect path is taken for a message of the manager bot whose text starts with "TO:\n". */
  predicate IsRedirect(s: Settings, m: Message, ps: seq<Participant>)
  {
    && m.sender.Some?
    && var sender := FindParticipant(ps, m.sender.value);
    && sender.Some? && sender.value.kind == Bot && s.manager == Some(sender.value.name)
    && |m.text| >= 4 && m.text[..4] == "TO:\n"
  }

  /** next(p for p in participants if p is a BOT and part names it or its id) */
  function FirstBot(ps: seq<Participant>, part: string): (r: Option<Participant>)
    ensures r.None? <==> forall p :: p in ps ==> !(p.kind == Bot && (part == p.name || part == p.id))
    ensures r.Some? ==> r.value in ps && r.value.kind == Bot && (part == r.value.name || part == r.value.id)
  {
    if ps == [] then None
    else if ps[0].kind == Bot && (part == ps[0].name || part == ps[0].id) then Some(ps[0])
    else FirstBot(ps[1..], part)
  }

  /**
   * One target line: notify the websocket bot, then find the internal bot
   * it names (StopIteration when there is none) and, when that bot is
   * installed, send it the quoted message (AttributeError when there is
   * no quoted message).
   */
  function RedirectStep(s: Settings, m: Message, cps: seq<Participant>, part: string): Outcome
  {
    var ws := WsMessageToBot(m.conversation, m.quoted, part, JNull);
    match FirstBot(cps, part)
    case None => Outcome([ws], Some(StopIteration))
    case Some(b) =>
      if b.name !in s.installed then Outcome([ws], None)
      else if m.quoted.None? then Outcome([ws], Some(AttributeError(NoneId)))
      else Outcome([ws, DeliverMessage(b.id, m.quoted.value, JNull, s.enableQueue)], None)
  }

  /** The redirect loop over `parts`, stopping at the first error. */
  function RedirectOutcome(s: Settings, m: Message, cps: seq<Participant>, parts: seq<string>): Outcome
  {
    if parts == [] then Outcome([], None)
    else
      var r := RedirectOutcome(s, m, cps, parts[..|parts| - 1]);
      if r.error.Some? then r
      else
        var step := RedirectStep(s, m, cps, parts[|parts| - 1]);
        Outcome(r.effects + step.effects, step.error)
  }

  /** One more target line extends a redirect that has not failed yet. */
  lemma RedirectSnoc(s: Settings, m: Message, cps: seq<Participant>, parts: seq<string>, i: nat)
    requires i < |parts| && RedirectOutcome(s, m, cps, parts[..i]).error.None?
    ensures var r, step := RedirectOutcome(s, m, cps, parts[..i]), RedirectStep(s, m, cps, parts[i]);
            RedirectOutcome(s, m, cps, parts[..i + 1]) == Outcome(r.effects + step.effects, step.error)
  {
    assert parts[..i + 1][..i] == parts[..i];
  }

  /** Once a target has failed, the later ones change nothing. */
  lemma {:induction false} RedirectErrorSticks(s: Settings, m: Message, cps: seq<Participant>,
                                               parts: seq<string>, i: nat)
    requires i <= |parts|
    requires RedirectOutcome(s, m, cps, parts[..i]).error.Some?
    ensures RedirectOutcome(s, m, cps, parts) == RedirectOutcome(s, m, cps, parts[..i])
    decreases |parts| - i
  {
    if i < |parts| {
      assert parts[..|parts| - 1][..i] == parts[..i];
      RedirectErrorSticks(s, m, cps, parts[..|parts| - 1], i);
    } else {
      assert parts[..i] == parts;
    }
  }

  /**
   * The redirect succeeds exactly when every target names a BOT
   * participant and, when one of them is installed, the message quotes
   * one; every internal delivery then carries the quoted message.
   */
  lemma {:induction false} RedirectSucceeds(s: Settings, m: Message, cps: seq<Participant>, parts: seq<string>)
    ensures RedirectOutcome(s, m, cps, parts).error.None? <==>
              forall i :: 0 <= i < |parts| ==> RedirectStep(s, m, cps, parts[i]).error.None?
    ensures RedirectOutcome(s, m, cps, parts).error.None? ==>
              forall e :: e in RedirectOutcome(s, m, cps, parts).effects && e.DeliverMessage? ==>
                m.quoted.Some? && e.pk == m.quoted.value
  {
    if parts != [] {
      var init := parts[..|parts| - 1];
      RedirectSucceeds(s, m, cps, init);
      assert forall i :: 0 <= i < |init| ==> init[i] == parts[i];
    }
  }

  /** A target line that names no BOT participant stops the redirect with StopIteration. */
  lemma UnknownTargetStops(s: Settings, m: Message, cps: seq<Participant>, parts: seq<string>, i: nat)
    requires i < |parts| && FirstBot(cps, parts[i]).None?
    ensures RedirectOutcome(s, m, cps, parts).error.Some?
  {
    RedirectSucceeds(s, m, cps, parts);
  }

  // ---------------------------------------------------------------- fan-out

  /** avoid_non_manager_bots: a manager is configured and a human sent the message. */
  predicate AvoidNonManagerBots(s: Settings, m: Message, ps: seq<Participant>)
  {
    ManagerConfigured(s) && SentByHuman(m, ps)
  }

  /** The bot loop: installed BOT participants, and only the manager while avoiding. */
  predicate DeliveredTo(p: Participant, s: Settings, avoid: bool)
  {
    p.kind == Bot && !(avoid && s.manager != Some(p.name)) && p.name in s.installed
  }

  function BotDeliveries(ps: seq<Participant>, s: Settings, avoid: bool, pk: nat): seq<Effect>
  {
    if ps == [] then []
    else
      var init, p := ps[..|ps| - 1], ps[|ps| - 1];
      BotDeliveries(init, s, avoid, pk)
      + (if DeliveredTo(p, s, avoid) then [DeliverMessage(p.id, pk, JNull, s.enableQueue)] else [])
  }

  /**
   * The routing after the redirect: the manager gets a copy while avoiding,
   * an approved message is broadcast and an unapproved one goes to the
   * manager, then the bot loop.
   */
  function RouteEffects(s: Settings, m: Message, ps: seq<Participant>): seq<Effect>
  {
    var avoid := AvoidNonManagerBots(s, m, ps);
    (if avoid then [MessageToManager(m.conversation, m.pk)] else [])
    + (if m.approval != No then [BroadcastMessage(m.conversation, m.pk, avoid)]
       else [MessageToManager(m.conversation, m.pk)])
    + BotDeliveries(ParticipantsOf(ps, m.conversation), s, avoid, m.pk)
  }

  /** _message_watcher_function: the redirect, when it applies and succeeds, then the routing. */
  function FanOut(s: Settings, m: Message, ps: seq<Participant>): Outcome
  {
    if IsRedirect(s, m, ps) then
      var r := RedirectOutcome(s, m, ParticipantsOf(ps, m.conversation), RedirectTargets(m.text));
      if r.error.Some? then r else Outcome(r.effects + RouteEffects(s, m, ps), None)
    else Outcome(RouteEffects(s, m, ps), None)
  }

  lemma {:induction false} BotDeliveriesExact(ps: seq<Participant>, s: Settings, avoid: bool, pk: nat, e: Effect)
    ensures e in BotDeliveries(ps, s, avoid, pk) <==>
              exists p :: p in ps && DeliveredTo(p, s, avoid)
                          && e == DeliverMessage(p.id, pk, JNull, s.enableQueue)
  {
    if ps != [] {
      var init, p := ps[..|ps| - 1], ps[|ps| - 1];
      assert ps == init + [p];
      BotDeliveriesExact(init, s, avoid, pk, e);
    }
  }

  /**
   * The routing broadcasts exactly the approved messages (to humans only
   * while avoiding); every unapproved message reaches the manager, and so
   * does every approved message while avoiding.
   */
  lemma RouteBroadcastOrManager(s: Settings, m: Message, ps: seq<Participant>)
    ensures (exists e :: e in RouteEffects(s, m, ps) && e.BroadcastMessage?) <==> m.approval != No
    ensures forall e :: e in RouteEffects(s, m, ps) && e.BroadcastMessage? ==>
              e == BroadcastMessage(m.conversation, m.pk, AvoidNonManagerBots(s, m, ps))
    ensures MessageToManager(m.conversation, m.pk) in RouteEffects(s, m, ps)
            <==> m.approval == No || AvoidNonManagerBots(s, m, ps)
  {
    var avoid := AvoidNonManagerBots(s, m, ps);
    var cps := ParticipantsOf(ps, m.conversation);
    forall e | e in BotDeliveries(cps, s, avoid, m.pk) ensures e.DeliverMessage? {
      BotDeliveriesExact(cps, s, avoid, m.pk, e);
    }
    if m.approval != No {
      assert BroadcastMessage(m.conversation, m.pk, avoid) in RouteEffects(s, m, ps);
    }
  }

  /**
   * A bot receives the message exactly when it is an installed BOT
   * participant of the conversation and, while avoiding, the manager.
   */
  lemma RouteBots(s: Settings, m: Message, ps: seq<Participant>, bot: string)
    ensures (exists e :: e in RouteEffects(s, m, ps) && e.DeliverMessage? && e.bot == bot)
            <==> exists p :: p in ps && p.conversation == m.conversation && p.id == bot
                             && DeliveredTo(p, s, AvoidNonManagerBots(s, m, ps))
  {
    var avoid := AvoidNonManagerBots(s, m, ps);
    var cps := ParticipantsOf(ps, m.conversation);
    var all := RouteEffects(s, m, ps);
    if exists p :: p in ps && p.conversation == m.conversation && p.id == bot && DeliveredTo(p, s, avoid) {
      var p :| p in ps && p.conversation == m.conversation && p.id == bot && DeliveredTo(p, s, avoid);
      var e := DeliverMessage(p.id, m.pk, JNull, s.enableQueue);
      BotDeliveriesExact(cps, s, avoid, m.pk, e);
      assert e in all;
    }
    if exists e :: e in all && e.DeliverMessage? && e.bot == bot {
      var e :| e in all && e.DeliverMessage? && e.bot == bot;
      BotDeliveriesExact(cps, s, avoid, m.pk, e);
    }
  }

  // ---------------------------------------------------------------- against the older consumer

  /**
   * _message_watcher_function as written against the older consumer class
   * (blab-controller/chat/consumers.py:32-185): that class has neither
   * `send_message_to_bot` nor `send_message_to_bot_manager`, and its
   * `broadcast_message` takes a conversation id and a message only. The
   * first consumer call the receiver reaches therefore raises, before any
   * delivery.
   */
  function FanOutAsWritten(s: Settings, m: Message, ps: seq<Participant>): Outcome
  {
    if IsRedirect(s, m, ps) && RedirectTargets(m.text) != [] then Outcome([], Some(AttributeError(NoSendToBot)))
    else if AvoidNonManagerBots(s, m, ps) || m.approval == No then Outcome([], Some(AttributeError(NoSendToManager)))
    else Outcome([], Some(TypeError(BroadcastArity)))
  }

  const NoSendToBot := "type object 'ConversationConsumer' has no attribute 'send_message_to_bot'"
  const NoSendToManager := "type object 'ConversationConsumer' has no attribute 'send_message_to_bot_manager'"
  const BroadcastArity := "broadcast_message() takes 3 positional arguments but 4 were given"

  /**
   * As written, every saved message makes the receiver raise with nothing
   * delivered; the fan-out the calls ask for, when it does not raise, always
   * broadcasts the message or hands it to the manager.
   */
  lemma FanOutAsWrittenRaises(s: Settings, m: Message, ps: seq<Participant>)
    ensures FanOutAsWritten(s, m, ps).error.Some? && FanOutAsWritten(s, m, ps).effects == []
    ensures FanOut(s, m, ps).error.None? ==>
              BroadcastMessage(m.conversation, m.pk, AvoidNonManagerBots(s, m, ps)) in FanOut(s, m, ps).effects
              || MessageToManager(m.conversation, m.pk) in FanOut(s, m, ps).effects
  {
    var route := RouteEffects(s, m, ps);
    var b := BroadcastMessage(m.conversation, m.pk, AvoidNonManagerBots(s, m, ps));
    var h := MessageToManager(m.conversation, m.pk);
    RouteBroadcastOrManager(s, m, ps);
    if m.approval != No {
      var e :| e in route && e.BroadcastMessage?;
      assert b in route;
    }
    assert b in route || h in route;
    if IsRedirect(s, m, ps) {
      var r := RedirectOutcome(s, m, ParticipantsOf(ps, m.conversation), RedirectTargets(m.text));
      if r.error.None? {
        assert FanOut(s, m, ps).effects == r.effects + route;
      }
    }
  }

  // ---------------------------------------------------------------- the receivers

  /** The body of the target loop for one line `part`. */
  method RedirectTarget(db: Database, s: Settings, m: Message, cps: seq<Participant>, part: string)
    returns (err: Option<Error>)
    requires db.Valid()
    modifies db`outbox
    ensures db.Valid()
    ensures var r := RedirectStep(s, m, cps, part); db.outbox == old(db.outbox) + r.effects && err == r.error
  {
    err := None;
    db.Emit(WsMessageToBot(m.conversation, m.quoted, part, JNull));
    var b := FirstBot(cps, part);
    if b.None? {
      return Some(StopIteration);
    }
    if b.value.name in s.installed {
      if m.quoted.None? {
        return Some(AttributeError(NoneId));
      }
      db.Emit(DeliverMessage(b.value.id, m.quoted.value, JNull, s.enableQueue));
    }
  }

  /** The target loop of the redirect path. */
  method Redirect(db: Database, s: Settings, m: Message, cps: seq<Participant>, parts: seq<string>)
    returns (err: Option<Error>)
    requires db.Valid()
    modifies db`outbox
    ensures db.Valid()
    ensures db.outbox == old(db.outbox) + RedirectOutcome(s, m, cps, parts).effects
    ensures err == RedirectOutcome(s, m, cps, parts).error
  {
    err := None;
    var i := 0;
    while i < |parts|
      invariant 0 <= i <= |parts|
      invariant db.Valid()
      invariant db.outbox == old(db.outbox) + RedirectOutcome(s, m, cps, parts[..i]).effects
      invariant RedirectOutcome(s, m, cps, parts[..i]).error.None? && err.None?
    {
      RedirectSnoc(s, m, cps, parts, i);
      err := RedirectTarget(db, s, m, cps, parts[i]);
      AppendAssoc(old(db.outbox), RedirectOutcome(s, m, cps, parts[..i]).effects, RedirectStep(s, m, cps, parts[i]).effects);
      if err.Some? {
        RedirectErrorSticks(s, m, cps, parts, i + 1);
        return;
      }
      i := i + 1;
    }
    assert parts[..i] == parts;
  }

  /** The bot loop of the routing over the participants `ps`. */
  method DeliverToBots(db: Database, s: Settings, ps: seq<Participant>, avoid: bool, pk: nat)
    requires db.Valid()
    modifies db`outbox
    ensures db.Valid()
    ensures db.outbox == old(db.outbox) + BotDeliveries(ps, s, avoid, pk)
  {
    for i := 0 to |ps|
      invariant db.Valid()
      invariant db.outbox == old(db.outbox) + BotDeliveries(ps[..i], s, avoid, pk)
    {
      assert ps[..i + 1][..i] == ps[..i];
      var p := ps[i];
      if p.kind == Bot {
        if avoid && s.manager != Some(p.name) {
          continue;
        }
        if p.name in s.installed {
          db.Emit(DeliverMessage(p.id, pk, JNull, s.enableQueue));
        }
      }
    }
    assert ps[..|ps|] == ps;
  }

  /** The routing part of _message_watcher_function. */
  method Route(db: Database, s: Settings, m: Message)
    requires db.Valid()
    modifies db`outbox
    ensures db.Valid()
    ensures db.outbox == old(db.outbox) + RouteEffects(s, m, old(db.participants))
  {
    var avoid := ManagerConfigured(s) && SentByHuman(m, db.participants);
    ghost var first := if avoid then [MessageToManager(m.conversation, m.pk)] else [];
    ghost var second := if m.approval != No then [BroadcastMessage(m.conversation, m.pk, avoid)]
                        else [MessageToManager(m.conversation, m.pk)];
    ghost var deliveries := BotDeliveries(ParticipantsOf(old(db.participants), m.conversation), s, avoid, m.pk);
    assert RouteEffects(s, m, old(db.participants)) == first + second + deliveries;
    if avoid {
      db.Emit(MessageToManager(m.conversation, m.pk));
    }
    assert db.outbox == old(db.outbox) + first;
    if m.approval.Code() != 0 {
      db.Emit(BroadcastMessage(m.conversation, m.pk, avoid));
    } else {
      db.Emit(MessageToManager(m.conversation, m.pk));
    }
    assert db.outbox == old(db.outbox) + first + second;
    DeliverToBots(db, s, ParticipantsOf(db.participants, m.conversation), avoid, m.pk);
    AppendAssoc(old(db.outbox), first, second);
    AppendAssoc(old(db.outbox), first + second, deliveries);
  }

  /** The redirect path of _message_watcher_function: the redirect, then, unless it raised, the routing. */
  method RedirectThenRoute(db: Database, s: Settings, m: Message) returns (err: Option<Error>)
    requires db.Valid() && IsRedirect(s, m, db.participants)
    modifies db`outbox
    ensures db.Valid()
    ensures db.outbox == old(db.outbox) + FanOut(s, m, old(db.participants)).effects
    ensures err == FanOut(s, m, old(db.participants)).error
  {
    ghost var start := db.outbox;
    ghost var route := RouteEffects(s, m, db.participants);
    ghost var r := RedirectOutcome(s, m, ParticipantsOf(db.participants, m.conversation), RedirectTargets(m.text));
    ghost var fan := FanOut(s, m, db.participants);
    assert fan == if r.error.Some? then r else Outcome(r.effects + route, None);
    err := Redirect(db, s, m, ParticipantsOf(db.participants, m.conversation), RedirectTargets(m.text));
    if err.None? {
      ghost var mid := db.outbox;
      assert mid == start + r.effects;
      Route(db, s, m);
      assert db.outbox == mid + route;
      assert fan.effects == r.effects + route;
      AppendAssoc(start, r.effects, route);
    } else {
      assert fan == r;
    }
  }

  /** The routing path of _message_watcher_function. */
  method RouteOnly(db: Database, s: Settings, m: Message)
    requires db.Valid() && !IsRedirect(s, m, db.participants)
    modifies db`outbox
    ensures db.Valid()
    ensures db.outbox == old(db.outbox) + FanOut(s, m, old(db.participants)).effects
    ensures FanOut(s, m, old(db.participants)).error.None?
  {
    Route(db, s, m);
  }

  /** _message_watcher_function */
  method MessageWatcherFunction(db: Database, s: Settings, m: Message) returns (err: Option<Error>)
    requires db.Valid()
    modifies db`outbox
    ensures db.Valid()
    ensures db.outbox == old(db.outbox) + FanOut(s, m, old(db.participants)).effects
    ensures err == FanOut(s, m, old(db.participants)).error
  {
    if IsRedirect(s, m, db.participants) {
      err := RedirectThenRoute(db, s, m);
    } else {
      RouteOnly(db, s, m);
      err := None;
    }
  }

  /** _message_watcher: inside an atomic block the fan-out waits for the commit. */
  method MessageWatcher(db: Database, s: Settings, m: Message) returns (err: Option<Error>)
    requires db.Valid()
    modifies db`outbox, db`onCommit
    ensures db.Valid()
    ensures old(db.inAtomic) ==>
              db.onCommit == old(db.onCommit) + [Deferred.FanOut(m.pk)] && db.outbox == old(db.outbox) && err.None?
    ensures !old(db.inAtomic) ==>
              var r := FanOut(s, m, old(db.participants));
              db.outbox == old(db.outbox) + r.effects && err == r.error && db.onCommit == old(db.onCommit)
  {
    err := None;
    if !db.inAtomic {
      err := MessageWatcherFunction(db, s, m);
    } else {
      db.Defer(Deferred.FanOut(m.pk));
    }
  }

  /** DeliverStatus to every installed BOT participant of the list, in order. */
  function StatusDeliveries(ps: seq<Participant>, status: seq<Participant>, s: Settings): seq<Effect>
  {
    if ps == [] then []
    else
      var init, p := ps[..|ps| - 1], ps[|ps| - 1];
      StatusDeliveries(init, status, s)
      + (if p.kind == Bot && p.name in s.installed then [DeliverStatus(p.id, status, s.enableQueue)] else [])
  }

  /** _participant_watcher: broadcast the participant list, then hand it to the installed bots. */
  function StatusEffects(s: Settings, conversation: string, ps: seq<Participant>): seq<Effect>
  {
    var status := ParticipantsOf(ps, conversation);
    [BroadcastState(conversation, status)] + StatusDeliveries(status, status, s)
  }

  lemma {:induction false} StatusDeliveriesExact(ps: seq<Participant>, status: seq<Participant>, s: Settings, e: Effect)
    ensures e in StatusDeliveries(ps, status, s) <==>
              exists p :: p in ps && p.kind == Bot && p.name in s.installed
                          && e == DeliverStatus(p.id, status, s.enableQueue)
  {
    if ps != [] {
      var init, p := ps[..|ps| - 1], ps[|ps| - 1];
      assert ps == init + [p];
      StatusDeliveriesExact(init, status, s, e);
    }
  }

  /** Status reaches exactly the installed BOT participants of the conversation. */
  lemma StatusToInstalledBots(s: Settings, conversation: string, ps: seq<Participant>, bot: string)
    ensures (exists e :: e in StatusEffects(s, conversation, ps) && e.DeliverStatus? && e.bot == bot)
            <==> exists p :: p in ps && p.conversation == conversation && p.kind == Bot
                             && p.name in s.installed && p.id == bot
  {
    var status := ParticipantsOf(ps, conversation);
    var all := StatusEffects(s, conversation, ps);
    if exists p :: p in ps && p.conversation == conversation && p.kind == Bot && p.name in s.installed && p.id == bot {
      var p :| p in ps && p.conversation == conversation && p.kind == Bot && p.name in s.installed && p.id == bot;
      var e := DeliverStatus(p.id, status, s.enableQueue);
      StatusDeliveriesExact(status, status, s, e);
      assert e in all;
    }
    if exists e :: e in all && e.DeliverStatus? && e.bot == bot {
      var e :| e in all && e.DeliverStatus? && e.bot == bot;
      StatusDeliveriesExact(status, status, s, e);
    }
  }

  /** _participant_watcher, after a save of a participant of `conversation`. */
  method ParticipantWatcher(db: Database, s: Settings, conversation: string)
    requires db.Valid()
    modifies db`outbox
    ensures db.Valid()
    ensures db.outbox == old(db.outbox) + StatusEffects(s, conversation, old(db.participants))
  {
    var status := ParticipantsOf(db.participants, conversation);
    db.Emit(BroadcastState(conversation, status));
    ghost var start := db.outbox;
    for i := 0 to |status|
      invariant db.Valid()
      invariant db.outbox == start + StatusDeliveries(status[..i], status, s)
    {
      assert status[..i + 1][..i] == status[..i];
      var p := status[i];
      if p.kind == Bot {
        if p.name !in s.installed {
          continue;
        }
        db.Emit(DeliverStatus(p.id, status, s.enableQueue));
        AppendAssoc(start, StatusDeliveries(status[..i], status, s), [DeliverStatus(p.id, status, s.enableQueue)]);
      }
    }
    assert status[..|status|] == status;
    AppendAssoc(old(db.outbox), [BroadcastState(conversation, status)], StatusDeliveries(status, status, s));
  }
}
