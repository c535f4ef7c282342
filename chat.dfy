/** The `/v1/chat` endpoint of main.py (`chat_endpoint`): an optional web
    search, then the reply text assembled from the user's message and the
    search outcome, then the response record. The environment lookup, the
    search call and the clock are parameters. */
module Chat {
  import opened Wrappers
  import opened Text
  import opened Tavily

  datatype ChatRequest = ChatRequest(message: string, searchEnabled: bool)

  datatype ChatResponse =
    ChatResponse(success: bool, response: string, searchUsed: bool, timestamp: string)

  /** The `HTTPException` the endpoint raises when assembling the reply fails. */
  datatype HttpException = HttpException(statusCode: nat, detail: string)

  /** The reply text and the `search_used` flag. */
  datatype Reply = Reply(text: string, searchUsed: bool)

  /** "Olá! Recebi sua mensagem: '" */
  const GreetingOpen := "Ol\U{00E1}! Recebi sua mensagem: '"
  /** "\n\n🔍 Encontrei estas informações:\n" */
  const ResultsHeader := "\n\n\U{1F50D} Encontrei estas informa\U{00E7}\U{00F5}es:\n"
  /** "\n\n⚠️ Busca não disponível: " (the warning sign is followed by the
      emoji variation selector U+FE0F) */
  const ErrorNotice := "\n\n\U{26A0}\U{FE0F} Busca n\U{00E3}o dispon\U{00ED}vel: "
  /** "• " */
  const BulletMark := "\U{2022} "
  const ShownResults: nat := 2
  const ContentLimit: nat := 100
  const InternalErrorPrefix := "Erro interno: "

  /** The first line of every reply; it quotes the message verbatim. */
  function Greeting(message: string): (g: string)
    ensures |g| == |GreetingOpen| + |message| + 1
    ensures GreetingOpen <= g && g[|g| - 1] == '\''
    ensures g[|GreetingOpen|..|g| - 1] == message
  {
    GreetingOpen + message + "'"
  }

  /** One bullet: the title, then at most `ContentLimit` characters of the
      content, then an ellipsis (added whether or not anything was cut). */
  function BulletLine(title: string, content: string): string {
    BulletMark + title + ": " + Prefix(content, ContentLimit) + "..."
  }

  /** Formats one hit; a missing key fails with the key's name, as
      `result['title']` and `result['content']` raise `KeyError` (the title
      is looked up first). */
  function FormatHit(h: Hit): Result<string, string> {
    if h.title.None? then Failure("title")
    else if h.content.None? then Failure("content")
    else Success(BulletLine(h.title.value, h.content.value))
  }

  predicate Complete(h: Hit) {
    h.title.Some? && h.content.Some?
  }

  /** The list comprehension: every hit formatted in order, or the error of
      the first hit that cannot be. */
  function FormatHits(hits: seq<Hit>): (r: Result<seq<string>, string>)
    ensures r.Success? <==> forall i :: 0 <= i < |hits| ==> Complete(hits[i])
    ensures r.Success? ==> |r.value| == |hits|
    ensures r.Success? ==> forall i :: 0 <= i < |hits| ==>
              r.value[i] == BulletLine(hits[i].title.value, hits[i].content.value)
    ensures r.Failure? ==>
              exists i :: && 0 <= i < |hits| && !Complete(hits[i])
                          && (forall j :: 0 <= j < i ==> Complete(hits[j]))
                          && r.error == (if hits[i].title.None? then "title" else "content")
  {
    if |hits| == 0 then Success([])
    else
      match FormatHit(hits[0])
      case Failure(key) => Failure(key)
      case Success(line) =>
        match FormatHits(hits[1..])
        case Failure(key) =>
          assert forall i :: 1 <= i < |hits| ==> hits[i] == hits[1..][i - 1];
          Failure(key)
        case Success(lines) => Success([line] + lines)
  }

  /** The hits the reply shows: the first `ShownResults` of the list. */
  function Shown(hits: seq<Hit>): seq<Hit> {
    Prefix(hits, ShownResults)
  }

  /** Assembles the reply from the message and the search outcome (`None`
      when no search ran). A results list wins over an error message; the
      failure carries the name of a missing key. */
  function BuildReply(message: string, search: Option<Payload>): (r: Result<Reply, string>)
    ensures r.Success? ==> Greeting(message) <= r.value.text
    ensures r.Success? ==> (r.value.searchUsed <==> search.Some? && search.value.results.Some?)
    ensures r.Failure? <==>
              && search.Some? && search.value.results.Some?
              && exists i :: 0 <= i < |Shown(search.value.results.value)| &&
                               !Complete(Shown(search.value.results.value)[i])
    ensures search.None? ==> r == Success(Reply(Greeting(message), false))
  {
    var greeting := Greeting(message);
    if search.Some? && search.value.results.Some? then
      match FormatHits(Shown(search.value.results.value))
      case Failure(key) => Failure(key)
      case Success(lines) => Success(Reply(greeting + ResultsHeader + Join(lines, "\n"), true))
    else if search.Some? && search.value.error.Some? then
      Success(Reply(greeting + ErrorNotice + search.value.error.value, false))
    else
      Success(Reply(greeting, false))
  }

  /** Python truthiness of `os.getenv(...)`: an empty key counts as absent. */
  predicate KeyPresent(key: Option<string>) {
    key.Some? && key.value != ""
  }

  /** `search_results` after the search step: a payload exactly when search
      was requested and a key is configured, and then what `search_tavily`
      made of the service's reply. */
  function SearchOutcome(request: ChatRequest, tavilyKey: Option<string>, reply: HttpReply): (o: Option<Payload>)
    ensures o.Some? <==> request.searchEnabled && KeyPresent(tavilyKey)
    ensures o.Some? ==> o.value == SearchTavily(reply)
  {
    if request.searchEnabled && KeyPresent(tavilyKey) then Some(SearchTavily(reply)) else None
  }

  /** `chat_endpoint`: the response record, or the 500 raised when a shown
      hit lacks a key (`str(KeyError('title'))` is `'title'`, quotes
      included). */
  function ChatEndpoint(request: ChatRequest, tavilyKey: Option<string>, reply: HttpReply, timestamp: string)
    : (r: Result<ChatResponse, HttpException>)
    ensures r.Success? ==> r.value.success && r.value.timestamp == timestamp
    ensures r.Success? ==> Greeting(request.message) <= r.value.response
    ensures r.Failure? ==> r.error.statusCode == 500 && InternalErrorPrefix <= r.error.detail
    ensures r.Failure? ==> request.searchEnabled && KeyPresent(tavilyKey) && Succeeded(reply)
  {
    match BuildReply(request.message, SearchOutcome(request, tavilyKey, reply))
    case Failure(key) => Failure(HttpException(500, InternalErrorPrefix + "'" + key + "'"))
    case Success(Reply(text, used)) => Success(ChatResponse(true, text, used, timestamp))
  }

  // Properties of the assembled reply.

  /** Without a search (not requested, or no key configured) the reply is
      the greeting alone and no search is reported. */
  lemma NoSearchGreetingOnly(request: ChatRequest, tavilyKey: Option<string>, reply: HttpReply, timestamp: string)
    requires !request.searchEnabled || !KeyPresent(tavilyKey)
    ensures ChatEndpoint(request, tavilyKey, reply, timestamp)
            == Success(ChatResponse(true, Greeting(request.message), false, timestamp))
  {
  }

  /** A bullet keeps the title whole and exactly the first
      `min(ContentLimit, |content|)` characters of the content, so all of it
      when it is short enough; the content part can be cut back out of the
      line. */
  lemma BulletLineShape(title: string, content: string)
    ensures var line := BulletLine(title, content);
            var start := |BulletMark| + |title| + 2;
            && BulletMark + title + ": " <= line
            && line[|line| - 3..] == "..."
            && start <= |line| - 3
            && |line[start..|line| - 3]| <= ContentLimit
            && line[start..|line| - 3] <= content
            && (|content| <= ContentLimit ==> line[start..|line| - 3] == content)
            && line[start..|line| - 3] == Prefix(content, ContentLimit)
  {
  }

  /** With a results list, a successful reply is the greeting, the header
      and the bullets of the shown hits joined by line breaks, whatever the
      titles and contents contain; every shown hit then has both keys. */
  lemma ResultsText(message: string, hits: seq<Hit>, error: Option<string>)
    requires BuildReply(message, Some(Payload(Some(hits), error))).Success?
    ensures forall i :: 0 <= i < |Shown(hits)| ==> Complete(Shown(hits)[i])
    ensures var shown := Shown(hits);
            BuildReply(message, Some(Payload(Some(hits), error))).value
            == Reply(Greeting(message) + ResultsHeader
                       + Join(seq(|shown|, i requires 0 <= i < |shown| && Complete(shown[i]) =>
                                BulletLine(shown[i].title.value, shown[i].content.value)), "\n"),
                     true)
  {
    var shown := Shown(hits);
    assert FormatHits(shown).value
           == seq(|shown|, i requires 0 <= i < |shown| && Complete(shown[i]) =>
                BulletLine(shown[i].title.value, shown[i].content.value));
  }

  /** A dictionary with neither key (a 200 answer whose body is `{}`, say)
      adds nothing to the greeting and reports no search. */
  lemma NeitherKeyGreetingOnly(message: string)
    ensures BuildReply(message, Some(Payload(None, None))) == Success(Reply(Greeting(message), false))
  {
  }

  /** A corollary of `ResultsText` for titles and contents without line
      breaks: split at the line breaks, the part after the header gives back
      exactly the bullets of the first (at most two) hits in their order. An
      empty list leaves the header with nothing after it. */
  lemma ResultsSection(message: string, hits: seq<Hit>, error: Option<string>)
    requires BuildReply(message, Some(Payload(Some(hits), error))).Success?
    requires forall i :: 0 <= i < |Shown(hits)| ==>
               '\n' !in Shown(hits)[i].title.value && '\n' !in Shown(hits)[i].content.value
    ensures var text := BuildReply(message, Some(Payload(Some(hits), error))).value.text;
            var start := |Greeting(message)| + |ResultsHeader|;
            && Greeting(message) + ResultsHeader <= text
            && (|hits| == 0 ==> |text| == start)
            && (|hits| > 0 ==>
                  var lines := Split(text[start..], '\n');
                  && |lines| == (if |hits| < ShownResults then |hits| else ShownResults)
                  && forall i :: 0 <= i < |lines| ==>
                       lines[i] == BulletLine(hits[i].title.value, hits[i].content.value))
  {
    var shown := Shown(hits);
    var lines := FormatHits(shown).value;
    var text := BuildReply(message, Some(Payload(Some(hits), error))).value.text;
    var start := |Greeting(message)| + |ResultsHeader|;
    assert text == Greeting(message) + ResultsHeader + Join(lines, "\n");
    assert text[start..] == Join(lines, "\n");
    if |hits| > 0 {
      forall i | 0 <= i < |lines|
        ensures '\n' !in lines[i]
      {
        assert lines[i] == BulletLine(shown[i].title.value, shown[i].content.value);
      }
      SplitJoin(lines, '\n');
    }
  }

  /** Hits after the first two never reach the reply. */
  lemma OnlyFirstHitsShown(message: string, hits: seq<Hit>, more: seq<Hit>, error: Option<string>)
    requires |hits| >= ShownResults
    ensures BuildReply(message, Some(Payload(Some(hits + more), error)))
            == BuildReply(message, Some(Payload(Some(hits), error)))
  {
    assert Shown(hits + more) == Shown(hits);
  }

  /** When the payload has a results list, its error message plays no part. */
  lemma ResultsOverrideError(message: string, hits: seq<Hit>, error1: Option<string>, error2: Option<string>)
    ensures BuildReply(message, Some(Payload(Some(hits), error1)))
            == BuildReply(message, Some(Payload(Some(hits), error2)))
    ensures BuildReply(message, Some(Payload(Some(hits), error1))).Success? ==>
              ResultsHeader <= BuildReply(message, Some(Payload(Some(hits), error1))).value.text[|Greeting(message)|..]
  {
  }

  /** An error without results is reported after the greeting, and no search
      is reported as used. */
  lemma ErrorNoticeOnly(message: string, error: string)
    ensures BuildReply(message, Some(Payload(None, Some(error))))
            == Success(Reply(Greeting(message) + ErrorNotice + error, false))
  {
  }

  /** A failed search is advisory: the request still succeeds, the reply
      carries the failure's message and no search is reported as used. */
  lemma SearchFailureIsAdvisory(request: ChatRequest, tavilyKey: Option<string>, reply: HttpReply, timestamp: string)
    requires request.searchEnabled && KeyPresent(tavilyKey) && !Succeeded(reply)
    ensures var r := ChatEndpoint(request, tavilyKey, reply, timestamp);
            && r.Success?
            && r.value.response == Greeting(request.message) + ErrorNotice + SearchTavily(reply).error.value
            && !r.value.searchUsed
  {
  }

  /** `search_used` holds exactly when the service answered with a results
      list (of any length), and then the request fails only if one of the
      first two hits lacks a key. */
  lemma SearchUsedIffResults(request: ChatRequest, tavilyKey: Option<string>, reply: HttpReply, timestamp: string)
    ensures var r := ChatEndpoint(request, tavilyKey, reply, timestamp);
            r.Success? ==>
              (r.value.searchUsed <==>
                 request.searchEnabled && KeyPresent(tavilyKey) && Succeeded(reply) &&
                 reply.body.value.results.Some?)
    ensures var r := ChatEndpoint(request, tavilyKey, reply, timestamp);
            r.Failure? ==>
              r.error.detail == InternalErrorPrefix + "'title'" ||
              r.error.detail == InternalErrorPrefix + "'content'"
  {
  }
}
