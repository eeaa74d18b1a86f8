/**
 * The example bots of the older tree (chat/bots.py). A bot answers a message
 * by handing one dictionary to its send function; the model returns that
 * dictionary, or None when the bot stays silent. Upper-casing and the
 * calculator's expression evaluation are parameters.
 */
module Bots {
  import opened Domain
  import opened Models

  /** The dictionary both example bots send: a TEXT message quoting `m`. */
  function ReplyData(text: string, m: Message): map<string, Json>
  {
    map["type" := JStr(TypeCode(Text)), "text" := JStr(text), "quoted_message_id" := JStr(m.mId)]
  }

  /** The text of the answer: `answer` applied to a TEXT message, "?" for any other type. */
  function AnswerText(m: Message, answer: string -> string): string
  {
    if m.mtype == Text then answer(m.text) else "?"
  }

  /**
   * The shape both example bots share: ignore what a human did not send,
   * otherwise send exactly one TEXT reply quoting the message.
   */
  function Respond(m: Message, ps: seq<Participant>, answer: string -> string)
    : (reply: Option<map<string, Json>>)
    ensures reply.Some? <==> SentByHuman(m, ps)
    ensures reply.Some? ==>
              && reply.value.Keys == {"type", "text", "quoted_message_id"}
              && reply.value["type"] == JStr(TypeCode(Text))
              && reply.value["quoted_message_id"] == JStr(m.mId)
              && reply.value["text"] == JStr(AnswerText(m, answer))
  {
    if SentByHuman(m, ps) then Some(ReplyData(AnswerText(m, answer), m)) else None
  }

  /** Bot.receive_message: the base class ignores every message. */
  function BaseReceive(m: Message): (reply: Option<map<string, Json>>)
    ensures reply == None
  {
    None
  }

  /**
   * UpperCaseEchoBot.receive_message: a human's TEXT message is echoed in
   * upper case, any other message of a human is answered with "?".
   */
  function EchoReceive(m: Message, ps: seq<Participant>, upper: string -> string)
    : (reply: Option<map<string, Json>>)
    ensures reply.Some? <==> SentByHuman(m, ps)
    ensures reply.Some? ==>
              && reply.value.Keys == {"type", "text", "quoted_message_id"}
              && reply.value["type"] == JStr(TypeCode(Text))
              && reply.value["quoted_message_id"] == JStr(m.mId)
    ensures reply.Some? && m.mtype == Text ==> reply.value["text"] == JStr(upper(m.text))
    ensures reply.Some? && m.mtype != Text ==> reply.value["text"] == JStr("?")
  {
    Respond(m, ps, upper)
  }

  /**
   * CalculatorBot.receive_message: a human's TEXT message is answered with
   * the value of its expression, any other message of a human with "?".
   */
  function CalculatorReceive(m: Message, ps: seq<Participant>, evaluate: string -> string)
    : (reply: Option<map<string, Json>>)
    ensures reply.Some? <==> SentByHuman(m, ps)
    ensures reply.Some? ==>
              && reply.value.Keys == {"type", "text", "quoted_message_id"}
              && reply.value["type"] == JStr(TypeCode(Text))
              && reply.value["quoted_message_id"] == JStr(m.mId)
    ensures reply.Some? && m.mtype == Text ==> reply.value["text"] == JStr(evaluate(m.text))
    ensures reply.Some? && m.mtype != Text ==> reply.value["text"] == JStr("?")
  {
    Respond(m, ps, evaluate)
  }

  /**
   * The receive_message of the bot class an installed-bot entry names.
   * Classes outside this repository are not part of the model: their
   * behaviour is the parameter `external`.
   */
  function Receive(kind: BotKind, m: Message, ps: seq<Participant>, upper: string -> string,
                   evaluate: string -> string,
                   external: (string, Message) -> Option<map<string, Json>>)
    : Option<map<string, Json>>
  {
    match kind
    case EchoBot => EchoReceive(m, ps, upper)
    case CalculatorBot => CalculatorReceive(m, ps, evaluate)
    case PlainBot => BaseReceive(m)
    case ExternalBot(cls) => external(cls, m)
  }

  /**
   * The bots of this repository never answer a bot: a reply of theirs,
   * sent by a bot participant, is itself left unanswered, so two of them
   * cannot keep answering each other.
   */
  lemma BotsIgnoreBots(kind: BotKind, m: Message, ps: seq<Participant>, upper: string -> string,
                       evaluate: string -> string,
                       external: (string, Message) -> Option<map<string, Json>>)
    requires !kind.ExternalBot?
    requires m.sender.Some? && FindParticipant(ps, m.sender.value).Some?
    requires FindParticipant(ps, m.sender.value).value.kind == Bot
    ensures Receive(kind, m, ps, upper, evaluate, external) == None
  {
  }
}
