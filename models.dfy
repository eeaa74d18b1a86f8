/**
 * The persistent entities and their validation rules (chat/models.py):
 * a message is cleaned before every save, and (conversation, sender,
 * local_id) is unique. `Database` is the entity store the rest of the model
 * writes through; it also carries the transaction flag, the on-commit queue
 * and the outbox of delivery effects.
 */
module Models {
  import opened Domain

  /** Message.SystemEvent */
  datatype SystemEvent = Created | Joined | Left | Ended

  function EventName(e: SystemEvent): (s: string)
    ensures 0 < |s| <= TextMaxLength
  {
    match e
    case Created => "conversation-created"
    case Joined => "participant-joined"
    case Left => "participant-left"
    case Ended => "conversation-ended"
  }

  /** The four event names are pairwise distinct, so the text of a system message names one event. */
  lemma EventNamesDistinct(a: SystemEvent, b: SystemEvent)
    ensures EventName(a) == EventName(b) ==> a == b
  {
  }

  /** Participant.objects.get(pk=id): the participant with that id, if any. */
  function FindParticipant(ps: seq<Participant>, id: string): (r: Option<Participant>)
    ensures r.Some? ==> r.value in ps && r.value.id == id
    ensures r.None? ==> forall j :: 0 <= j < |ps| ==> ps[j].id != id
  {
    if ps == [] then None
    else if ps[0].id == id then Some(ps[0])
    else FindParticipant(ps[1..], id)
  }

  /**
   * conversation.participants.all(): the participants of one conversation,
   * in creation order.
   */
  function ParticipantsOf(ps: seq<Participant>, conversation: string): (r: seq<Participant>)
    ensures |r| <= |ps|
    ensures forall p :: p in r <==> p in ps && p.conversation == conversation
  {
    if ps == [] then []
    else
      var init, last := ps[..|ps| - 1], ps[|ps| - 1];
      assert ps == init + [last];
      ParticipantsOf(init, conversation) + (if last.conversation == conversation then [last] else [])
  }

  /** Message.sent_by_human(): the sender exists and is a human. */
  predicate SentByHuman(m: Message, ps: seq<Participant>)
  {
    m.sender.Some? && var p := FindParticipant(ps, m.sender.value); p.Some? && p.value.kind == Human
  }

  /** `sender in conversation.participants.all()` */
  predicate MemberOf(ps: seq<Participant>, id: string, conversation: string)
  {
    exists j :: 0 <= j < |ps| && ps[j].id == id && ps[j].conversation == conversation
  }

  datatype CleanFault = SystemWithSender | MissingSender | SenderNotInConversation

  /** Message.clean: the error it raises, if any. */
  function CleanError(m: Message, ps: seq<Participant>): (r: Option<CleanFault>)
    ensures m.mtype == System ==> (r.None? <==> m.sender.None?)
    ensures m.mtype == System && r.Some? ==> r.value == SystemWithSender
    ensures m.mtype != System && m.sender.None? ==> r == Some(MissingSender)
    ensures m.mtype != System && m.sender.Some? ==>
              (r.None? <==> MemberOf(ps, m.sender.value, m.conversation))
  {
    if m.mtype == System then
      if m.sender.Some? then Some(SystemWithSender) else None
    else if m.sender.None? then Some(MissingSender)
    else if !MemberOf(ps, m.sender.value, m.conversation) then Some(SenderNotInConversation)
    else None
  }

  /**
   * Two rows violate the `local_id_unique` constraint. As in SQL, a NULL
   * sender or a NULL local_id never takes part in a violation.
   */
  predicate Collides(a: Message, b: Message)
  {
    a.conversation == b.conversation
    && a.sender.Some? && a.sender == b.sender
    && a.localId.Some? && a.localId == b.localId
  }

  const UniqueFields: set<string> := {"conversation", "sender", "local_id"}

  /** The error entry Django reports for the violated `local_id_unique` constraint. */
  const UniqueItem := ErrorItem(Some("unique_together"), UniqueFields)

  /** The max_length of the message's text columns. */
  const TextMaxLength: nat := 4000
  const FileNameMaxLength: nat := 100
  const MimeTypeMaxLength: nat := 256
  const LocalIdMaxLength: nat := 32

  /** A nullable text column holding more than `max` characters. */
  predicate TooLong(v: Option<string>, max: nat)
  {
    v.Some? && |v.value| > max
  }

  /**
   * Message.clean_fields: the columns refused for holding more characters
   * than their max_length, text, original_file_name, mime_type and local_id.
   */
  function FieldFaults(m: Message): (r: set<string>)
    ensures r <= {"text", "original_file_name", "mime_type", "local_id"}
    ensures r == {} <==>
              && |m.text| <= TextMaxLength && !TooLong(m.originalFileName, FileNameMaxLength)
              && !TooLong(m.mimeType, MimeTypeMaxLength) && !TooLong(m.localId, LocalIdMaxLength)
  {
    (if |m.text| > TextMaxLength then {"text"} else {})
    + (if TooLong(m.originalFileName, FileNameMaxLength) then {"original_file_name"} else {})
    + (if TooLong(m.mimeType, MimeTypeMaxLength) then {"mime_type"} else {})
    + (if TooLong(m.localId, LocalIdMaxLength) then {"local_id"} else {})
  }

  /**
   * Message.full_clean: clean_fields, then clean, then the `local_id_unique`
   * constraint. Django skips a constraint one of whose fields clean_fields
   * already refused; of its three fields only local_id can be refused here.
   * None when nothing is reported.
   */
  function FullClean(m: Message, rows: seq<Message>, ps: seq<Participant>): (r: Option<Error>)
    ensures r.None? <==>
              && FieldFaults(m) == {} && CleanError(m, ps).None?
              && forall i :: 0 <= i < |rows| ==> !Collides(rows[i], m)
    ensures r.Some? ==> r.value.DjangoValidationError? && r.value.fieldErrors == FieldFaults(m)
    ensures r.Some? ==>
              (UniqueItem in r.value.nonField <==>
                 "local_id" !in FieldFaults(m) && exists i :: 0 <= i < |rows| && Collides(rows[i], m))
  {
    var nonField := (if CleanError(m, ps).Some? then [ErrorItem(None, {})] else [])
                    + (if "local_id" !in FieldFaults(m) && exists i :: 0 <= i < |rows| && Collides(rows[i], m)
                       then [UniqueItem] else []);
    if FieldFaults(m) == {} && nonField == [] then None
    else Some(DjangoValidationError(FieldFaults(m), nonField))
  }

  /** The row the store writes for a draft: next key, fresh external id, current time. */
  function Stamp(draft: Message, pk: nat, key: nat, clock: int): Message
  {
    draft.(pk := pk, mId := NewId(key), time := clock)
  }

  /**
   * An unsaved SYSTEM message announcing `e`; the store fills in the key,
   * the external id and the time.
   */
  function SystemDraft(conversation: string, e: SystemEvent, metadata: map<string, Json>,
                       approval: Approval): (m: Message)
    ensures m.mtype == System && m.sender.None? && m.localId.None?
  {
    Message(0, "", conversation, System, None, 0, None, EventName(e), metadata, approval,
            None, false, None, None, None, None, [])
  }

  /** Every stored message passes clean and no two stored messages collide. */
  ghost predicate StoreInvariant(rows: seq<Message>, ps: seq<Participant>, clock: int)
  {
    && (forall i :: 0 <= i < |rows| ==> rows[i].pk == i)
    && (forall i :: 0 <= i < |rows| ==> CleanError(rows[i], ps).None?)
    && (forall i, j :: 0 <= i < j < |rows| ==> !Collides(rows[i], rows[j]))
    && (forall i, j :: 0 <= i < j < |rows| ==> rows[i].time < rows[j].time)
    && (forall i :: 0 <= i < |rows| ==> rows[i].time < clock)
  }

  /** Participants are never removed or moved: ids and conversations of old rows stay. */
  ghost predicate Extends(ps: seq<Participant>, ps': seq<Participant>)
  {
    |ps| <= |ps'| &&
    forall j :: 0 <= j < |ps| ==> ps'[j].id == ps[j].id && ps'[j].conversation == ps[j].conversation
  }

  lemma {:induction false} CleanStable(m: Message, ps: seq<Participant>, ps': seq<Participant>)
    requires Extends(ps, ps')
    requires CleanError(m, ps).None?
    ensures CleanError(m, ps').None?
  {
    if m.mtype != System {
      var j :| 0 <= j < |ps| && ps[j].id == m.sender.value && ps[j].conversation == m.conversation;
      assert ps'[j].id == m.sender.value && ps'[j].conversation == m.conversation;
    }
  }

  lemma StoreInvariantStable(rows: seq<Message>, ps: seq<Participant>, ps': seq<Participant>, clock: int)
    requires StoreInvariant(rows, ps, clock)
    requires Extends(ps, ps')
    ensures StoreInvariant(rows, ps', clock)
  {
    forall i | 0 <= i < |rows| ensures CleanError(rows[i], ps').None? {
      CleanStable(rows[i], ps, ps');
    }
  }

  // ---------------------------------------------------------------- conversation set-up

  /** "ANON_" + id for an empty nickname, the nickname otherwise. */
  function HumanName(nickname: string, id: string): (name: string)
    ensures name != ""
    ensures nickname != "" ==> name == nickname
    ensures nickname == "" ==> |name| == 5 + |id| && name[5..] == id
  {
    if nickname == "" then "ANON_" + id else nickname
  }

  /** The participant-joined announcement for participant `pid`, automatically approved. */
  function JoinedDraft(conversation: string, pid: string): Message
  {
    SystemDraft(conversation, Joined, map["participant_id" := JStr(pid)], Automatic)
  }

  /** is_required of a bot: the `required` entry of its installed-bot spec. */
  predicate Required(installed: map<string, BotSpec>, name: string)
  {
    name in installed && installed[name].required
  }

  /**
   * The BOT rows created for `names` in order, one store key apart from
   * the previous bot's joined message: the i-th gets the id NewId(key + 2 * i).
   */
  function BotRows(conversation: string, names: seq<string>, installed: map<string, BotSpec>, key: nat)
    : seq<Participant>
  {
    if names == [] then []
    else
      var init := names[..|names| - 1];
      var b := names[|names| - 1];
      BotRows(conversation, init, installed, key)
      + [Participant(NewId(key + 2 * |init|), conversation, b, Bot, Required(installed, b))]
  }

  /** The joined messages of `bots`, saved one after the other right after each bot's row. */
  function JoinedRows(conversation: string, bots: seq<Participant>, pk: nat, key: nat, clock: int)
    : seq<Message>
  {
    if bots == [] then []
    else
      var init := bots[..|bots| - 1];
      JoinedRows(conversation, init, pk, key, clock)
      + [Stamp(JoinedDraft(conversation, bots[|bots| - 1].id), pk + |init|, key + 2 * |init| + 1, clock + |init|)]
  }

  /**
   * The store _on_create leaves behind, from participants `ps` and messages
   * `rows` with the counter at `key` and the clock at `clock`: the
   * conversation-created message, the creator, then each bot's row
   * followed by its participant-joined message.
   */
  ghost predicate Opened(conversation: string, creator: Participant, bots: seq<Participant>,
                         ps: seq<Participant>, rows: seq<Message>, key: nat, clock: int,
                         ps': seq<Participant>, rows': seq<Message>)
  {
    && ps' == ps + ([creator] + bots)
    && rows' == rows + [Stamp(SystemDraft(conversation, Created, map[], Automatic), |rows|, key, clock)]
                + JoinedRows(conversation, bots, |rows| + 1, key + 2, clock + 1)
  }

  /** One BOT participant per requested name, in request order. */
  lemma {:induction false} BotRowsInOrder(conversation: string, names: seq<string>, installed: map<string, BotSpec>, key: nat)
    ensures var rows := BotRows(conversation, names, installed, key);
            && |rows| == |names|
            && forall i :: 0 <= i < |names| ==>
                 rows[i] == Participant(NewId(key + 2 * i), conversation, names[i], Bot, Required(installed, names[i]))
  {
    if names != [] {
      BotRowsInOrder(conversation, names[..|names| - 1], installed, key);
    }
  }

  /**
   * The i-th joined message is an automatically approved SYSTEM
   * participant-joined message of the conversation whose metadata names
   * the i-th bot.
   */
  lemma {:induction false} JoinedRowsAnnounce(conversation: string, bots: seq<Participant>, pk: nat, key: nat, clock: int)
    ensures var rows := JoinedRows(conversation, bots, pk, key, clock);
            && |rows| == |bots|
            && forall i :: 0 <= i < |bots| ==>
                 && rows[i].conversation == conversation && rows[i].mtype == System && rows[i].sender.None?
                 && rows[i].text == EventName(Joined) && rows[i].approval == Automatic
                 && rows[i].metadata == map["participant_id" := JStr(bots[i].id)]
                 && rows[i].pk == pk + i && rows[i].time == clock + i
  {
    if bots != [] {
      JoinedRowsAnnounce(conversation, bots[..|bots| - 1], pk, key, clock);
    }
  }

  /** The entity store. Participants and messages are kept in creation order. */
  class Database {
    var conversations: seq<string>
    var participants: seq<Participant>
    var messages: seq<Message>
    var nextKey: nat              // source of fresh identifiers (uuid4 in the source)
    var clock: int                // time stamp of the next saved message
    var inAtomic: bool            // inside transaction.atomic()
    var onCommit: seq<Deferred>   // callbacks waiting for the commit
    var outbox: seq<Effect>       // what the delivery layer was asked to do

    ghost predicate Valid()
      reads this`messages, this`participants, this`clock
    {
      StoreInvariant(messages, participants, clock)
    }

    constructor ()
      ensures Valid()
      ensures conversations == [] && participants == [] && messages == []
      ensures onCommit == [] && outbox == [] && !inAtomic
    {
      conversations, participants, messages := [], [], [];
      nextKey, clock := 0, 0;
      inAtomic, onCommit, outbox := false, [], [];
    }

    /** Conversation.objects.create(): a new conversation with a fresh id. */
    method CreateConversation() returns (id: string)
      requires Valid()
      modifies this`conversations, this`nextKey
      ensures Valid()
      ensures id == NewId(old(nextKey)) && nextKey == old(nextKey) + 1
      ensures conversations == old(conversations) + [id]
    {
      id := NewId(nextKey);
      nextKey := nextKey + 1;
      conversations := conversations + [id];
    }

    /** Participant.objects.create(...): the row gets a fresh id. */
    method CreateParticipant(conversation: string, kind: Kind, name: string, required: bool)
      returns (p: Participant)
      requires Valid()
      modifies this`participants, this`nextKey
      ensures Valid()
      ensures p == Participant(NewId(old(nextKey)), conversation, name, kind, required)
      ensures participants == old(participants) + [p] && nextKey == old(nextKey) + 1
    {
      p := Participant(NewId(nextKey), conversation, name, kind, required);
      StoreInvariantStable(messages, participants, participants + [p], clock);
      participants := participants + [p];
      nextKey := nextKey + 1;
    }

    /** participant.name = ...; participant.save() */
    method RenameParticipant(i: nat, name: string)
      requires Valid() && i < |participants|
      modifies this`participants
      ensures Valid()
      ensures participants == old(participants)[i := old(participants)[i].(name := name)]
    {
      var ps' := participants[i := participants[i].(name := name)];
      StoreInvariantStable(messages, participants, ps', clock);
      participants := ps';
    }

    /**
     * Message.save() on a new row: full_clean first (Message.clean and the
     * `local_id_unique` constraint), then the insert. The row gets the next
     * internal key, a fresh external id and the current time.
     */
    method SaveMessage(draft: Message) returns (r: Result<Message>)
      requires Valid()
      modifies this`messages, this`nextKey, this`clock
      ensures Valid()
      ensures var m := Stamp(draft, |old(messages)|, old(nextKey), old(clock));
              var err := FullClean(m, old(messages), old(participants));
              if err.None? then
                r == Success(m) && messages == old(messages) + [m]
                && nextKey == old(nextKey) + 1 && clock == old(clock) + 1
              else
                r == Failure(err.value) && messages == old(messages)
                && nextKey == old(nextKey) && clock == old(clock)
    {
      var m := Stamp(draft, |messages|, nextKey, clock);
      var err := FullClean(m, messages, participants);
      if err.Some? {
        return Failure(err.value);
      }
      messages := messages + [m];
      nextKey := nextKey + 1;
      clock := clock + 1;
      r := Success(m);
    }

    /**
     * Saving a SYSTEM message without a sender, local id, file name or
     * MIME type, and with a text within max_length, never fails: every
     * field fits, clean accepts it, and a row without a sender takes part
     * in no unique violation.
     */
    method CreateSystemMessage(draft: Message) returns (m: Message)
      requires Valid() && draft.mtype == System && draft.sender.None? && draft.localId.None?
      requires |draft.text| <= TextMaxLength && draft.originalFileName.None? && draft.mimeType.None?
      modifies this`messages, this`nextKey, this`clock
      ensures Valid()
      ensures m == Stamp(draft, |old(messages)|, old(nextKey), old(clock))
      ensures messages == old(messages) + [m]
      ensures nextKey == old(nextKey) + 1 && clock == old(clock) + 1
    {
      m := Stamp(draft, |messages|, nextKey, clock);
      assert FieldFaults(m) == {};
      assert FullClean(m, messages, participants).None?;
      var r := SaveMessage(draft);
    }

    /**
     * quoted_message.approval_status = ...; quoted_message.save(): an update
     * of an existing row, which passes full_clean again because neither the
     * cleaned fields nor the unique triple change.
     */
    method SetApproval(pk: nat, a: Approval)
      requires Valid() && pk < |messages|
      modifies this`messages
      ensures Valid()
      ensures messages == old(messages)[pk := old(messages)[pk].(approval := a)]
    {
      messages := messages[pk := messages[pk].(approval := a)];
    }

    /** Hand one effect to the delivery layer. */
    method Emit(e: Effect)
      requires Valid()
      modifies this`outbox
      ensures Valid()
      ensures outbox == old(outbox) + [e]
    {
      outbox := outbox + [e];
    }

    /** transaction.on_commit(callback) inside an atomic block. */
    method Defer(d: Deferred)
      requires Valid() && inAtomic
      modifies this`onCommit
      ensures Valid()
      ensures onCommit == old(onCommit) + [d]
    {
      onCommit := onCommit + [d];
    }
  }

  /**
   * One round of the bot loop of _on_create: Participant.objects.create for
   * the bot, then its participant-joined message.
   */
  method JoinBot(db: Database, conversation: string, name: string, required: bool) returns (bot: Participant)
    requires db.Valid()
    modifies db`participants, db`messages, db`nextKey, db`clock
    ensures db.Valid()
    ensures bot == Participant(NewId(old(db.nextKey)), conversation, name, Bot, required)
    ensures db.participants == old(db.participants) + [bot]
    ensures db.messages == old(db.messages)
                           + [Stamp(JoinedDraft(conversation, bot.id), |old(db.messages)|, old(db.nextKey) + 1, old(db.clock))]
    ensures db.nextKey == old(db.nextKey) + 2 && db.clock == old(db.clock) + 1
  {
    bot := db.CreateParticipant(conversation, Bot, name, required);
    var joined := db.CreateSystemMessage(JoinedDraft(conversation, bot.id));
  }
}
