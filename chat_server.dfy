/** The chat bridge: it ranks the catalog against the newest message, writes
    the catalog prompt, prepends it as a system message and relays the
    conversation to the local language-model server. */
module ChatServer {
  import opened Wrappers
  import opened Strings
  import opened MotionCatalog

  const OllamaEndpoint: string := "http://localhost:11434/api/chat"
  const OllamaModel: string := "qwen2.5"

  const BaseSystemPrompt: string :=
    "You are Motion Lab's UX/motion assistant.\n"
    + "Reply **only in Korean** regardless of the user's language.\n"
    + "Use the supplied motion demo catalog to answer questions and include the `/[locale]/motions/...` links.\n"
    + "If nothing matches, say so clearly and propose a new experiment idea, also in Korean.\n"

  datatype ChatMessage = ChatMessage(role: string, content: string)

  /** The request body. */
  datatype ChatRequest = ChatRequest(messages: seq<ChatMessage>, locale: string, maxMatches: int)

  /** The request model's field defaults. */
  const DefaultLocale: string := "en"
  const DefaultMaxMatches: int := 3

  /** The body as the request model fills it in: a missing `locale` is "en"
      and a missing `max_matches` is 3; given values are kept. */
  function RequestOf(messages: seq<ChatMessage>, locale: Option<string>, maxMatches: Option<int>): (r: ChatRequest)
    ensures r.messages == messages
    ensures locale.Some? ==> r.locale == locale.value
    ensures maxMatches.Some? ==> r.maxMatches == maxMatches.value
    ensures locale.None? ==> r.locale == "en"
    ensures maxMatches.None? ==> r.maxMatches == 3
  {
    ChatRequest(messages, locale.GetOr(DefaultLocale), maxMatches.GetOr(DefaultMaxMatches))
  }

  // --------------------------------------------------------- catalog prompt

  const PromptIntro: string := "여기 추천 가능한 모션 데모 목록이 있어:"

  /** The two characters backslash and `n`: the prompt's entries and lines are
      separated by this escape text, not by a line break. */
  const EscapedNewline: string := "\\n"

  function MotionsBasePath(locale: string): string {
    "/" + locale + "/motions"
  }

  /** The link line of one entry. */
  function LinkLine(basePath: string, demo: CatalogItem): string {
    "   링크: " + basePath + "/" + demo.slug
  }

  /** Entry number idx: title and kicker, link, description and comma-joined tags. */
  function CatalogEntry(idx: nat, demo: CatalogItem, basePath: string): string {
    NatToString(idx) + ". " + demo.title + " (" + demo.kicker + ")" + EscapedNewline
    + LinkLine(basePath, demo) + EscapedNewline
    + "   설명: " + demo.description + EscapedNewline
    + "   태그: " + Join(demo.tags, ", ")
  }

  /** The intro line followed by the entries numbered from 1. */
  function CatalogLines(matches: seq<CatalogItem>, locale: string): (r: seq<string>)
    ensures |r| == |matches| + 1
  {
    [PromptIntro] + seq(|matches|, i requires 0 <= i < |matches| => CatalogEntry(i + 1, matches[i], MotionsBasePath(locale)))
  }

  function CatalogPrompt(matches: seq<CatalogItem>, locale: string): string {
    Join(CatalogLines(matches, locale), EscapedNewline)
  }

  /** `build_catalog_prompt`: the loop appending one entry per match. */
  method BuildCatalogPrompt(matches: seq<CatalogItem>, locale: string) returns (prompt: string)
    ensures prompt == CatalogPrompt(matches, locale)
  {
    var lines := [PromptIntro];
    var basePath := MotionsBasePath(locale);
    var i := 0;
    while i < |matches|
      invariant 0 <= i <= |matches|
      invariant lines == CatalogLines(matches, locale)[..i + 1]
    {
      lines := lines + [CatalogEntry(i + 1, matches[i], basePath)];
      i := i + 1;
    }
    assert lines == CatalogLines(matches, locale);
    prompt := Join(lines, EscapedNewline);
  }

  /** The prompt opens with the intro line; with no matches it is only that line. */
  lemma {:induction false} PromptStartsWithIntro(matches: seq<CatalogItem>, locale: string)
    ensures StartsWith(CatalogPrompt(matches, locale), PromptIntro)
    ensures matches == [] ==> CatalogPrompt(matches, locale) == PromptIntro
  {
    var lines := CatalogLines(matches, locale);
    JoinStartsWithFirst(lines, EscapedNewline);
  }

  /** Every match's link `/{locale}/motions/{slug}` appears in the prompt. */
  lemma {:induction false} PromptLinksEveryMatch(matches: seq<CatalogItem>, locale: string, i: nat)
    requires i < |matches|
    ensures Contains(CatalogPrompt(matches, locale), LinkLine(MotionsBasePath(locale), matches[i]))
    ensures Contains(CatalogPrompt(matches, locale), "/" + locale + "/motions/" + matches[i].slug)
  {
    var lines := CatalogLines(matches, locale);
    var base := MotionsBasePath(locale);
    var link := LinkLine(base, matches[i]);
    var path := "/" + locale + "/motions/" + matches[i].slug;
    EntryContainsLink(i + 1, matches[i], base);
    JoinContainsPart(lines, EscapedNewline, i + 1);
    ContainsTransitive(CatalogPrompt(matches, locale), lines[i + 1], link);
    LinkLineContainsPath(locale, matches[i]);
    ContainsTransitive(CatalogPrompt(matches, locale), link, path);
  }

  lemma {:induction false} EntryContainsLink(idx: nat, demo: CatalogItem, base: string)
    ensures Contains(CatalogEntry(idx, demo, base), LinkLine(base, demo))
  {
    var head := NatToString(idx) + ". " + demo.title + " (" + demo.kicker + ")" + EscapedNewline;
    var tail := EscapedNewline + "   설명: " + demo.description + EscapedNewline + "   태그: " + Join(demo.tags, ", ");
    assert CatalogEntry(idx, demo, base) == head + LinkLine(base, demo) + tail;
    ContainsInfix(head, LinkLine(base, demo), tail);
  }

  lemma {:induction false} LinkLineContainsPath(locale: string, demo: CatalogItem)
    ensures Contains(LinkLine(MotionsBasePath(locale), demo), "/" + locale + "/motions/" + demo.slug)
  {
    var path := "/" + locale + "/motions/" + demo.slug;
    LinkLineIsPath(locale, demo);
    ContainsSuffix("   링크: ", path);
  }

  lemma {:induction false} LinkLineIsPath(locale: string, demo: CatalogItem)
    ensures LinkLine(MotionsBasePath(locale), demo) == "   링크: " + ("/" + locale + "/motions/" + demo.slug)
  {
    assert "/motions/" == "/motions" + "/";
  }

  predicate NoLineBreak(s: string) {
    '\n' !in s
  }

  predicate DemoHasNoLineBreak(demo: CatalogItem) {
    NoLineBreak(demo.slug) && NoLineBreak(demo.title) && NoLineBreak(demo.kicker)
    && NoLineBreak(demo.description) && forall k :: 0 <= k < |demo.tags| ==> NoLineBreak(demo.tags[k])
  }

  /** The entries are separated by the escape text, so the whole catalog
      prompt is a single physical line whenever its fields are. */
  lemma {:induction false} PromptIsOneLine(matches: seq<CatalogItem>, locale: string)
    requires NoLineBreak(locale)
    requires forall k :: 0 <= k < |matches| ==> DemoHasNoLineBreak(matches[k])
    ensures NoLineBreak(CatalogPrompt(matches, locale))
  {
    var lines := CatalogLines(matches, locale);
    forall k | 0 <= k < |lines| ensures '\n' !in lines[k] {
      if k > 0 {
        EntryIsOneLine(k, matches[k - 1], locale);
      }
    }
    JoinAvoids(lines, EscapedNewline, '\n');
  }

  lemma {:induction false} EntryIsOneLine(idx: nat, demo: CatalogItem, locale: string)
    requires NoLineBreak(locale) && DemoHasNoLineBreak(demo)
    ensures NoLineBreak(CatalogEntry(idx, demo, MotionsBasePath(locale)))
  {
    JoinAvoids(demo.tags, ", ", '\n');
    assert forall c :: c in NatToString(idx) ==> IsDigit(c);
  }

  // ------------------------------------------------------------ upstream call

  /** The JSON the model server answers with, as far as the bridge reads it. */
  datatype Json = JString(text: string) | JObject(fields: map<string, Json>) | JOther

  datatype ResponseBody = NotJson | Parsed(json: Json)

  /** What the HTTP post produced: a transport failure (connection refused,
      the 60-second timeout) with its error text, or a response with its
      status, the text `raise_for_status` would raise with, and its body. */
  datatype Upstream =
    | RequestFailed(error: string)
    | Answered(status: int, statusErrorText: string, body: ResponseBody)

  datatype OllamaPayload = OllamaPayload(model: string, messages: seq<ChatMessage>, stream: bool)

  datatype OllamaReply = Content(text: string) | HttpFailure(code: nat, detail: string)

  const InternalErrorDetail: string := "Internal Server Error"

  /** `data["message"]["content"]`, present only when both keys are there and
      the content is a string. */
  function MessageContent(body: ResponseBody): Option<string> {
    if body.Parsed? && body.json.JObject? && "message" in body.json.fields then
      var message := body.json.fields["message"];
      if message.JObject? && "content" in message.fields && message.fields["content"].JString? then
        Some(message.fields["content"].text)
      else None
    else None
  }

  /** `raise_for_status` raises only for client and server error statuses. */
  predicate IsErrorStatus(status: int) {
    400 <= status < 600
  }

  function OllamaRequest(messages: seq<ChatMessage>): OllamaPayload {
    OllamaPayload(OllamaModel, messages, false)
  }

  /** `call_ollama` given what the post produced: transport and status errors
      become 502 "Ollama error: ..."; a body that is not JSON or lacks
      `message.content` fails outside the handler and becomes a 500. */
  function CallOllama(upstream: Upstream): (r: OllamaReply)
    ensures r.HttpFailure? ==> r.code == 502 || r.code == 500
    ensures r.HttpFailure? && r.code == 502 <==>
      upstream.RequestFailed? || IsErrorStatus(upstream.status)
    ensures r.Content? <==>
      upstream.Answered? && !IsErrorStatus(upstream.status) && MessageContent(upstream.body).Some?
    ensures r.Content? ==> r.text == MessageContent(upstream.body).value
    ensures r.HttpFailure? && r.code == 502 ==> StartsWith(r.detail, "Ollama error: ")
  {
    match upstream
    case RequestFailed(error) => HttpFailure(502, "Ollama error: " + error)
    case Answered(status, statusErrorText, body) =>
      if IsErrorStatus(status) then HttpFailure(502, "Ollama error: " + statusErrorText)
      else
        match MessageContent(body)
        case Some(text) => Content(text)
        case None => HttpFailure(500, InternalErrorDetail)
  }

  // ---------------------------------------------------------------- handler

  datatype ChatResult = Replied(reply: string, matches: seq<CatalogItem>) | Failed(code: nat, detail: string)

  /** The system message carrying the base prompt and the catalog prompt. */
  function SystemMessage(catalogPrompt: string): ChatMessage {
    ChatMessage("system", BaseSystemPrompt + "\n" + catalogPrompt)
  }

  /** `POST /chat`. `sent` is what is posted upstream (nothing for an empty
      conversation); `upstream` is what that post produced. */
  method Chat(request: ChatRequest, upstream: Upstream) returns (sent: Option<OllamaPayload>, result: ChatResult)
    ensures request.messages == [] ==> sent == None && result == Failed(400, "messages cannot be empty")
    ensures request.messages != [] ==>
      var matches := Rank(request.messages[|request.messages| - 1].content, MotionDemos, request.maxMatches);
      && sent == Some(OllamaRequest([SystemMessage(CatalogPrompt(matches, request.locale))] + request.messages))
      && result == match CallOllama(upstream)
                   case Content(text) => Replied(text, matches)
                   case HttpFailure(code, detail) => Failed(code, detail)
  {
    if request.messages == [] {
      sent := None;
      result := Failed(400, "messages cannot be empty");
      return;
    }
    var userMessage := request.messages[|request.messages| - 1].content;
    var matches := RankDemos(userMessage, MotionDemos, request.maxMatches);
    var catalogPrompt := BuildCatalogPrompt(matches, request.locale);
    var composed := [SystemMessage(catalogPrompt)] + request.messages;
    sent := Some(OllamaRequest(composed));
    match CallOllama(upstream)
    case Content(text) =>
      result := Replied(text, matches);
    case HttpFailure(code, detail) =>
      result := Failed(code, detail);
  }

  /** The relayed conversation is the client's, unchanged, behind one system
      message, and the reply's matches are never empty for a non-negative limit. */
  lemma {:induction false} RelayKeepsConversation(request: ChatRequest)
    requires request.messages != []
    ensures var matches := Rank(request.messages[|request.messages| - 1].content, MotionDemos, request.maxMatches);
      var composed := [SystemMessage(CatalogPrompt(matches, request.locale))] + request.messages;
      composed[0].role == "system" && composed[1..] == request.messages
      && StartsWith(composed[0].content, BaseSystemPrompt + "\n" + PromptIntro)
      && (request.maxMatches >= 0 ==> |matches| > 0)
  {
    var matches := Rank(request.messages[|request.messages| - 1].content, MotionDemos, request.maxMatches);
    SystemMessageStartsWithIntro(matches, request.locale);
    if request.maxMatches >= 0 {
      NonNegativeLimitNeverEmpty(request.messages[|request.messages| - 1].content, MotionDemos, request.maxMatches);
    }
  }

  lemma {:induction false} SystemMessageStartsWithIntro(matches: seq<CatalogItem>, locale: string)
    ensures StartsWith(SystemMessage(CatalogPrompt(matches, locale)).content, BaseSystemPrompt + "\n" + PromptIntro)
  {
    var head := BaseSystemPrompt + "\n";
    PromptStartsWithIntro(matches, locale);
    StartsWithAfter(head, CatalogPrompt(matches, locale), PromptIntro);
  }

  /** A conversation posted without `locale` and `max_matches` is answered
      with one to three demos, linked under "/en/motions". */
  lemma {:induction false} DefaultRequestRanksUpToThree(messages: seq<ChatMessage>)
    requires messages != []
    ensures var request := RequestOf(messages, None, None);
      var matches := Rank(messages[|messages| - 1].content, MotionDemos, request.maxMatches);
      && 1 <= |matches| <= 3
      && MotionsBasePath(request.locale) == "/en/motions"
  {
    assert RequestOf(messages, None, None) == ChatRequest(messages, "en", 3);
    EnglishBasePath();
    RankOneToThree(messages[|messages| - 1].content);
  }

  lemma {:induction false} RankOneToThree(query: string)
    ensures 1 <= |Rank(query, MotionDemos, 3)| <= 3
  {
    NonNegativeLimitNeverEmpty(query, MotionDemos, 3);
    RankWithinLimit(query, MotionDemos, 3);
  }

  lemma {:induction false} EnglishBasePath()
    ensures MotionsBasePath("en") == "/en/motions"
  {
  }
}
