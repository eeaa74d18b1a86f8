/**
 * The browser session both trees' views keep: the nickname last used and,
 * per conversation id, the id of the participant this browser speaks as
 * ("participation_in_conversation").
 */
module Sessions {
  import opened Domain
  import opened Models

  const NicknameNotText := "nickname must be a string"

  /** Reading `DoesNotExist` from the abstract `django.db.models.Model`, which only concrete models have. */
  const ModelHasNoDoesNotExist := AttributeError("type object 'Model' has no attribute 'DoesNotExist'")

  class Session {
    var nickname: Option<string>
    var participation: map<string, string>

    constructor ()
      ensures nickname.None? && participation == map[]
    {
      nickname, participation := None, map[];
    }

    /**
     * `request.data.get("nickname") or session.get("nickname") or ""`,
     * rejected with a ValidationError when the value chosen is not text.
     * Only a truthy request value can be rejected: the session only ever
     * holds text and "" is the last resort.
     */
    function Nickname(data: map<string, Json>): (r: Result<string>)
      reads this
      ensures var d := Get(data, "nickname", JNull);
              && (r.Failure? <==> Truthy(d) && !d.JStr?)
              && (r.Failure? ==> r.error == RestValidationError("", NicknameNotText))
              && (Truthy(d) && d.JStr? ==> r == Success(d.s))
              && (!Truthy(d) && nickname.Some? && nickname.value != "" ==> r == Success(nickname.value))
              && (!Truthy(d) && !(nickname.Some? && nickname.value != "") ==> r == Success(""))
    {
      var d := Get(data, "nickname", JNull);
      if Truthy(d) then
        if d.JStr? then Success(d.s) else Failure(RestValidationError("", NicknameNotText))
      else if nickname.Some? && nickname.value != "" then Success(nickname.value)
      else Success("")
    }

    /**
     * The session's participant for a conversation: the stored id, when
     * there is one and it is not empty, looked up among all participants
     * (a stale id finds nothing, DoesNotExist being swallowed).
     */
    function ParticipantFor(conversation: string, ps: seq<Participant>): (r: Option<Participant>)
      reads this
      ensures r.Some? ==> && conversation in participation && r.value in ps
                          && r.value.id == participation[conversation]
      ensures r.None? <==> || conversation !in participation || participation[conversation] == ""
                           || forall i :: 0 <= i < |ps| ==> ps[i].id != participation[conversation]
    {
      if conversation in participation && participation[conversation] != "" then
        FindParticipant(ps, participation[conversation])
      else None
    }

    /**
     * `try: Participant.objects.get(pk=existing) except Model.DoesNotExist`
     * as written: a stale id raises Participant.DoesNotExist, and evaluating
     * the except clause then raises AttributeError.
     */
    function LookupAsWritten(conversation: string, ps: seq<Participant>): (r: Result<Option<Participant>>)
      reads this
      ensures r.Failure? <==> && conversation in participation && participation[conversation] != ""
                              && ParticipantFor(conversation, ps).None?
      ensures r.Failure? ==> r.error == ModelHasNoDoesNotExist
      ensures r.Success? ==> r.value == ParticipantFor(conversation, ps)
    {
      if conversation in participation && participation[conversation] != "" then
        match FindParticipant(ps, participation[conversation])
        case Some(p) => Success(Some(p))
        case None => Failure(ModelHasNoDoesNotExist)
      else Success(None)
    }

    /**
     * `with suppress(Model.DoesNotExist): p = Participant.objects.get(pk=existing)`
     * as written: the argument of `suppress` is evaluated before the body,
     * so every stored id raises AttributeError and no participant is reused.
     */
    function SuppressedLookupAsWritten(conversation: string, ps: seq<Participant>): (r: Result<Option<Participant>>)
      reads this
      ensures r.Failure? <==> conversation in participation && participation[conversation] != ""
      ensures r.Failure? ==> r.error == ModelHasNoDoesNotExist
      ensures r.Success? ==> r.value.None? && ParticipantFor(conversation, ps).None?
    {
      if conversation in participation && participation[conversation] != "" then Failure(ModelHasNoDoesNotExist)
      else Success(None)
    }

    /** `session["nickname"] = ...` */
    method SetNickname(name: string)
      modifies this
      ensures nickname == Some(name) && participation == old(participation)
    {
      nickname := Some(name);
    }

    /** `session["participation_in_conversation"][conversation] = participant_id` */
    method Participate(conversation: string, pid: string)
      modifies this
      ensures participation == old(participation)[conversation := pid] && nickname == old(nickname)
    {
      participation := participation[conversation := pid];
    }
  }

  /**
   * Where the intended lookup reuses the session's participant, the newer
   * join as written raises instead; where it finds a stale id, the written
   * `except Model.DoesNotExist` raises instead of swallowing it.
   */
  lemma LookupsRaiseAsWritten(session: Session, conversation: string, ps: seq<Participant>)
    ensures session.ParticipantFor(conversation, ps).Some? ==>
              session.SuppressedLookupAsWritten(conversation, ps) == Failure(ModelHasNoDoesNotExist)
    ensures session.ParticipantFor(conversation, ps).None? ==>
              (session.LookupAsWritten(conversation, ps).Failure? <==>
                 conversation in session.participation && session.participation[conversation] != "")
  {
  }
}
