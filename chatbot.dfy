/** The client conversation hook: the message list (kept both as rendered
    state and in a ref read by the request), the thinking flag and the last
    error. `sendMessage` is split at its `await`: `BeginSend` runs up to the
    request, `Settle` runs when the request has settled. */
module Chatbot {
  import opened Wrappers
  import opened Strings

  /** The hook's own `DEFAULT_MAX_MATCHES`, sent with every request. */
  const DefaultMaxMatches: int := 3
  const FallbackErrorText: string := "챗봇 응답을 불러오지 못했습니다."
  const UnknownErrorText: string := "알 수 없는 오류가 발생했습니다."

  datatype ChatRole = User | Assistant

  /** A recommended demo as the client receives it; `url` is optional. */
  datatype ChatMatch = ChatMatch(
    slug: string,
    title: string,
    kicker: string,
    description: string,
    tags: seq<string>,
    url: Option<string>)

  datatype ChatbotMessage = ChatbotMessage(
    id: string,
    role: ChatRole,
    content: string,
    createdAt: int,
    matches: Option<seq<ChatMatch>>)

  datatype ChatbotError = ChatbotError(message: string, timestamp: int)

  datatype PayloadMessage = PayloadMessage(role: ChatRole, content: string)

  datatype ChatRequestPayload = ChatRequestPayload(messages: seq<PayloadMessage>, locale: string, maxMatches: int)

  /** The parsed response body: `error`, `reply` and `matches` as far as present,
      or the error `response.json()` throws on a body that is not JSON. */
  datatype ResponseData =
    | Unparseable(parseError: string)
    | Data(error: Option<string>, reply: string, matches: Option<seq<ChatMatch>>)

  /** How the request settled: `fetch` rejected with an Error and its message,
      something not an Error was thrown, or a response arrived. */
  datatype FetchOutcome =
    | FetchRejected(message: string)
    | NonErrorThrown
    | Fetched(ok: bool, data: ResponseData)

  datatype Settlement = Answer(message: ChatbotMessage) | Failure(text: string)

  /** The `{ role, content }` projection sent to the server. */
  function Projection(messages: seq<ChatbotMessage>): (r: seq<PayloadMessage>)
    ensures |r| == |messages|
    ensures forall i :: 0 <= i < |r| ==> r[i] == PayloadMessage(messages[i].role, messages[i].content)
  {
    seq(|messages|, i requires 0 <= i < |messages| => PayloadMessage(messages[i].role, messages[i].content))
  }

  /** What the `try`/`catch` of `sendMessage` ends in: an assistant message
      only for an ok response with a JSON body; otherwise the error text, the
      server's `error` field standing in for the fallback only when present. */
  function SettlementOf(outcome: FetchOutcome, id: string, now: int): (r: Settlement)
    ensures r.Answer? <==> outcome.Fetched? && outcome.ok && outcome.data.Data?
    ensures r.Answer? ==> r.message == ChatbotMessage(id, Assistant, outcome.data.reply, now, outcome.data.matches)
    ensures outcome.Fetched? && outcome.data.Unparseable? ==> r == Failure(outcome.data.parseError)
    ensures outcome.Fetched? && !outcome.ok && outcome.data.Data? ==>
      r == Failure(outcome.data.error.GetOr(FallbackErrorText))
    ensures outcome.FetchRejected? ==> r == Failure(outcome.message)
    ensures outcome.NonErrorThrown? ==> r == Failure(UnknownErrorText)
  {
    match outcome
    case FetchRejected(message) => Failure(message)
    case NonErrorThrown => Failure(UnknownErrorText)
    case Fetched(ok, data) =>
      match data
      case Unparseable(parseError) => Failure(parseError)
      case Data(error, reply, matches) =>
        if !ok then Failure(error.GetOr(FallbackErrorText))
        else Answer(ChatbotMessage(id, Assistant, reply, now, matches))
  }

  /** `??` falls back only on a missing field: an empty error text from the
      server stays empty. */
  lemma {:induction false} EmptyServerErrorIsKept(reply: string, matches: Option<seq<ChatMatch>>, id: string, now: int)
    ensures SettlementOf(Fetched(false, Data(Some(""), reply, matches)), id, now) == Failure("")
    ensures SettlementOf(Fetched(false, Data(None, reply, matches)), id, now) == Failure(FallbackErrorText)
  {
  }

  /** Every user message in the list is trimmed and not empty. */
  predicate UserMessagesTrimmed(messages: seq<ChatbotMessage>) {
    forall i :: 0 <= i < |messages| && messages[i].role == User ==>
      messages[i].content != "" && Trim(messages[i].content) == messages[i].content
  }

  /** Appending an assistant message, or a trimmed non-empty user message,
      keeps every user message trimmed. */
  lemma {:induction false} TrimmedAfterAppend(messages: seq<ChatbotMessage>, m: ChatbotMessage)
    requires UserMessagesTrimmed(messages)
    requires m.role == User ==> m.content != "" && Trim(m.content) == m.content
    ensures UserMessagesTrimmed(messages + [m])
  {
    var all := messages + [m];
    forall i | 0 <= i < |all| && all[i].role == User
      ensures all[i].content != "" && Trim(all[i].content) == all[i].content
    {
      if i < |messages| {
        assert all[i] == messages[i];
      }
    }
  }

  /** A user message holding a non-blank text, trimmed, may be appended. */
  lemma {:induction false} UserTextAppended(messages: seq<ChatbotMessage>, text: string, m: ChatbotMessage)
    requires UserMessagesTrimmed(messages)
    requires Trim(text) != "" && m.content == Trim(text)
    ensures UserMessagesTrimmed(messages + [m])
  {
    TrimIdempotent(text);
    TrimmedAfterAppend(messages, m);
  }

  /** The projection of a list ending in m ends in m's role and content. */
  lemma {:induction false} ProjectionEndsWith(messages: seq<ChatbotMessage>, m: ChatbotMessage)
    ensures var p := Projection(messages + [m]);
      |p| == |messages| + 1 && p[|messages|] == PayloadMessage(m.role, m.content)
  {
    assert (messages + [m])[|messages|] == m;
  }

  class ChatbotState {
    var messages: seq<ChatbotMessage>
    var messagesRef: seq<ChatbotMessage>
    var isThinking: bool
    var error: Option<ChatbotError>
    const locale: string
    const maxMatches: int

    /** The rendered list and the ref agree after every operation. */
    predicate Valid()
      reads this
    {
      messages == messagesRef && UserMessagesTrimmed(messagesRef)
    }

    /** `useChatbot(options)` under the ambient locale. */
    constructor(localeOption: Option<string>, ambientLocale: string, maxMatchesOption: Option<int>)
      ensures Valid()
      ensures locale == localeOption.GetOr(ambientLocale)
      ensures maxMatches == maxMatchesOption.GetOr(DefaultMaxMatches)
      ensures messages == [] && !isThinking && error == None
    {
      messages := [];
      messagesRef := [];
      isThinking := false;
      error := None;
      locale := localeOption.GetOr(ambientLocale);
      maxMatches := maxMatchesOption.GetOr(DefaultMaxMatches);
    }

    /** `updateMessages`: the ref first, then the state. */
    method UpdateMessages(next: seq<ChatbotMessage>)
      modifies this
      ensures messagesRef == next && messages == next
      ensures isThinking == old(isThinking) && error == old(error)
    {
      messagesRef := next;
      messages := next;
    }

    /** `pushMessage`: append to what the ref holds. */
    method PushMessage(message: ChatbotMessage)
      modifies this
      ensures messagesRef == old(messagesRef) + [message] && messages == messagesRef
      ensures isThinking == old(isThinking) && error == old(error)
    {
      UpdateMessages(messagesRef + [message]);
    }

    /** `resetConversation`: empty list, no error; the thinking flag is kept. */
    method ResetConversation()
      modifies this
      requires Valid()
      ensures Valid()
      ensures messages == [] && error == None && isThinking == old(isThinking)
    {
      messagesRef := [];
      messages := [];
      error := None;
    }

    /** `sendMessage` up to the request: blank text or a pending request does
        nothing; otherwise the trimmed user message is appended and the whole
        conversation, ending with it, is the request payload. */
    method BeginSend(text: string, id: string, now: int) returns (payload: Option<ChatRequestPayload>)
      modifies this
      requires Valid()
      ensures Valid()
      ensures Trim(text) == "" || old(isThinking) ==>
        payload == None && messages == old(messages) && isThinking == old(isThinking) && error == old(error)
      ensures Trim(text) != "" && !old(isThinking) ==>
        && messages == old(messages) + [ChatbotMessage(id, User, Trim(text), now, None)]
        && isThinking && error == None
        && payload == Some(ChatRequestPayload(Projection(messages), locale, maxMatches))
        && payload.value.messages[|payload.value.messages| - 1] == PayloadMessage(User, Trim(text))
    {
      var trimmed := Trim(text);
      if trimmed == "" || isThinking {
        return None;
      }
      error := None;
      var message := ChatbotMessage(id, User, trimmed, now, None);
      UserTextAppended(messagesRef, text, message);
      ProjectionEndsWith(messagesRef, message);
      PushMessage(message);
      isThinking := true;
      payload := Some(ChatRequestPayload(Projection(messagesRef), locale, maxMatches));
    }

    /** The rest of `sendMessage` once the request has settled: the assistant
        message is appended or the error recorded; either way thinking ends. */
    method Settle(outcome: FetchOutcome, id: string, now: int)
      modifies this
      requires Valid()
      ensures Valid()
      ensures !isThinking
      ensures match SettlementOf(outcome, id, now)
              case Answer(message) => messages == old(messages) + [message] && error == old(error)
              case Failure(text) => messages == old(messages) && error == Some(ChatbotError(text, now))
    {
      match SettlementOf(outcome, id, now) {
        case Answer(message) =>
          TrimmedAfterAppend(messagesRef, message);
          PushMessage(message);
        case Failure(text) =>
          error := Some(ChatbotError(text, now));
      }
      isThinking := false;
    }
  }
}
