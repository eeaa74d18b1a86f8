/**
 * The HTTP views of the older tree: creating a conversation (with its
 * CREATED notice and the creator's HUMAN participant), joining one, the
 * participant list and the message history. These views talk to the store
 * directly; no Chat controller and no bot takes part.
 */
module ViewsOld {
  import opened Domain
  import opened Models
  import opened History
  import opened Sessions
  import ChatsOld

  /**
   * ConversationViewSet.perform_create: check the nickname, create the
   * conversation and its CREATED system message (approval left at its
   * default), create the creator's HUMAN participant, remember nickname and
   * participation in the session, and rename an empty-named creator to
   * "ANON_" + id. The session keeps the nickname as given, even when empty.
   */
  method PerformCreate(db: Database, session: Session, data: map<string, Json>)
    returns (r: Result<(string, Participant)>)
    requires db.Valid()
    modifies db`conversations, db`messages, db`participants, db`nextKey, db`clock, session
    ensures db.Valid()
    ensures old(session.Nickname(data)).Failure? ==>
              && r == Failure(RestValidationError("", NicknameNotText))
              && db.conversations == old(db.conversations) && db.participants == old(db.participants)
              && db.messages == old(db.messages)
              && session.nickname == old(session.nickname) && session.participation == old(session.participation)
    ensures old(session.Nickname(data)).Success? ==>
              var nickname := old(session.Nickname(data)).value;
              var k := old(db.nextKey);
              var conv := NewId(k);
              var human := Participant(NewId(k + 2), conv, HumanName(nickname, NewId(k + 2)), Human, false);
              && r == Success((conv, human))
              && db.conversations == old(db.conversations) + [conv]
              && db.messages == old(db.messages)
                                + [Stamp(SystemDraft(conv, Created, map[], No), |old(db.messages)|, k + 1, old(db.clock))]
              && db.participants == old(db.participants) + [human]
              && session.nickname == Some(nickname)
              && session.participation == old(session.participation)[conv := human.id]
  {
    var nickname := session.Nickname(data);
    if nickname.Failure? {
      return Failure(nickname.error);
    }
    var conv := db.CreateConversation();
    var created := db.CreateSystemMessage(SystemDraft(conv, Created, map[], No));
    // Participant.objects.create, the session writes, then the rename of an empty name.
    var human := ChatsOld.CreateHumanParticipant(db, conv, nickname.value);
    session.SetNickname(nickname.value);
    session.Participate(conv, human.id);
    r := Success((conv, human));
  }

  /**
   * ConversationViewSet.create: the response pairs the new conversation
   * with the participant id the session now holds for it, which is the
   * creator's.
   */
  method Create(db: Database, session: Session, data: map<string, Json>)
    returns (r: Result<(string, Option<string>)>)
    requires db.Valid()
    modifies db`conversations, db`messages, db`participants, db`nextKey, db`clock, session
    ensures db.Valid()
    ensures r.Failure? <==> old(session.Nickname(data)).Failure?
    ensures r.Success? ==>
              && |db.participants| == |old(db.participants)| + 1
              && var creator := db.participants[|old(db.participants)|];
              && r.value.0 in db.conversations
              && creator.conversation == r.value.0 && creator.kind == Human
              && r.value.1 == Some(creator.id)
  {
    ghost var ps0 := db.participants;
    var created := PerformCreate(db, session, data);
    if created.Failure? {
      return Failure(created.error);
    }
    var conv := created.value.0;
    r := Success((conv, if conv in session.participation then Some(session.participation[conv]) else None));
    assert db.participants[|ps0|] == created.value.1;
  }

  /**
   * ConversationViewSet.join: check the nickname, look the conversation
   * up (Http404 when it is missing), reuse the session's participant when
   * there is one, otherwise create a HUMAN participant under the nickname
   * exactly as given, and remember the participation.
   */
  method Join(db: Database, session: Session, data: map<string, Json>, conversation: string)
    returns (r: Result<Participant>)
    requires db.Valid()
    modifies db`participants, db`nextKey, session
    ensures db.Valid()
    ensures old(session.Nickname(data)).Failure? ==>
              r == Failure(RestValidationError("", NicknameNotText))
    ensures old(session.Nickname(data)).Success? && conversation !in db.conversations ==>
              r == Failure(DoesNotExist("Conversation"))
    ensures r.Failure? ==> db.participants == old(db.participants)
                           && session.participation == old(session.participation)
    ensures var existing := old(session.ParticipantFor(conversation, db.participants));
            old(session.Nickname(data)).Success? && conversation in db.conversations ==>
              && (existing.Some? ==> r == Success(existing.value) && db.participants == old(db.participants))
              && (existing.None? ==>
                    var id := NewId(old(db.nextKey));
                    && r == Success(Participant(id, conversation, old(session.Nickname(data)).value, Human, false))
                    && db.participants == old(db.participants) + [r.value])
    ensures r.Success? ==> session.participation == old(session.participation)[conversation := r.value.id]
    ensures session.nickname == old(session.nickname)
  {
    var nickname := session.Nickname(data);
    if nickname.Failure? {
      return Failure(nickname.error);
    }
    if conversation !in db.conversations {
      return Failure(DoesNotExist("Conversation"));
    }
    var existing := session.ParticipantFor(conversation, db.participants);
    var p;
    if existing.Some? {
      p := existing.value;
    } else {
      p := db.CreateParticipant(conversation, Human, nickname.value, false);
    }
    session.Participate(conversation, p.id);
    r := Success(p);
  }

  /** `Message.objects.filter(conversation_id=...)` */
  function InConversation(conversation: string): Message -> bool
  {
    (m: Message) => m.conversation == conversation
  }

  /**
   * ConversationMessagesViewSet.get_queryset: a browser with no session
   * participant is refused; otherwise every message of the conversation,
   * whatever its approval, goes through the until/since/limit window.
   */
  function MessageList(session: Session, ps: seq<Participant>, rows: seq<Message>, conversation: string,
                       until: Option<string>, since: Option<string>, limit: Option<string>,
                       parseDateTime: string -> Option<int>, now: int): (r: Result<seq<Message>>)
    reads session
    ensures session.ParticipantFor(conversation, ps).None? ==> r == Failure(PermissionDenied)
    ensures session.ParticipantFor(conversation, ps).Some? ==>
              (r.Success? <==> && ResolveBound(until, parseDateTime, now).Success?
                               && ResolveBound(since, parseDateTime, now).Success?
                               && ParseLimit(limit).Success?)
    ensures r.Success? ==> forall m :: m in r.value ==> m in rows && m.conversation == conversation
  {
    if session.ParticipantFor(conversation, ps).None? then Failure(PermissionDenied)
    else
      var q := Query(Keep(rows, InConversation(conversation)), until, since, limit, parseDateTime, now);
      QueryFromRows(Keep(rows, InConversation(conversation)), until, since, limit, parseDateTime, now);
      q
  }

  /**
   * On the store's rows (kept in time order), a successful history is in
   * time order, and every message of the conversation in the requested
   * range that it leaves out is older than every message it returns.
   */
  lemma MessageListNewest(session: Session, ps: seq<Participant>, rows: seq<Message>, conversation: string,
                          until: Option<string>, since: Option<string>, limit: Option<string>,
                          parseDateTime: string -> Option<int>, now: int)
    requires Ascending(rows)
    ensures var r := MessageList(session, ps, rows, conversation, until, since, limit, parseDateTime, now);
            r.Success? ==>
              var u := ResolveBound(until, parseDateTime, now).value;
              var s := ResolveBound(since, parseDateTime, now).value;
              && Ascending(r.value)
              && forall m, m' ::
                   (m in rows && m.conversation == conversation && InRange(m, s, u)
                    && m !in r.value && m' in r.value) ==> m.time < m'.time
  {
    var r := MessageList(session, ps, rows, conversation, until, since, limit, parseDateTime, now);
    if r.Success? {
      var mine := Keep(rows, InConversation(conversation));
      KeepAscending(rows, InConversation(conversation));
      QueryWindow(mine, until, since, limit, parseDateTime, now);
    }
  }
}
