# Leonor AI chat reply assembly, in Dafny

This project models the one piece of logic in the Leonor AI HTTP service
(`main.py`): how the `/v1/chat` endpoint turns a user's message and the
outcome of an optional Tavily web search into the reply text and the
`search_used` flag.

- `search_tavily` either returns the service's decoded JSON dictionary
  (status 200) or a dictionary holding only an `error` message. The message
  is `Erro na busca: <status> - <text>` for another status. It is
  `Erro ao conectar com Tavily: <reason>` for an exception, including a JSON
  decoding error on a 200 answer.
- `chat_endpoint` searches only when search is requested and
  `TAVILY_API_KEY` is set to a non-empty value. The reply always opens with
  `Olá! Recebi sua mensagem: '<message>'`.
  - With a `results` list, the reply adds the header
    `\n\n🔍 Encontrei estas informações:\n` and at most two bullet lines
    `• <title>: <content[:100]>...`, joined by line breaks.
  - Otherwise, with an `error`, it adds `\n\n⚠️ Busca não disponível: <error>`.
  - `search_used` is true exactly when the search dictionary has a `results` key.
  - A shown hit without `title` or `content` raises `KeyError`, which the
    endpoint turns into an HTTP 500 with detail `Erro interno: '<key>'`.

Modules: `Wrappers` (Option, Result), `Text` (Python's `s[:n]`, `join`,
`split`, `str(n)` and its parse), `Tavily` (the search outcome), `Chat` (the
endpoint). The environment variable, the HTTP exchange with the search
service and the timestamp are parameters of the model.

`search_used` (main.py:115) is true for an empty `results` list, and for a
dictionary that has both `results` and `error`. It does not depend on any
result being shown.

## Model

| member | source | states |
|---|---|---|
| Text.Prefix | main.py:105-106 | Python's `s[:n]`: the result is a prefix of `s` of length `min(n, len(s))` |
| Text.SplitJoin | main.py:104-107 | `"\n".join(parts).split("\n") == parts` for non-empty `parts` whose pieces hold no line break, so the joined bullet block can be read back line by line |
| Text.Decimal | main.py:72 | `str(status)`: non-empty, decimal digits only, no leading zero unless the number is 0 |
| Text.DecimalRoundTrip | main.py:72 | parsing the digits `str(n)` produces gives back `n` |
| Tavily.SearchTavily | main.py:51-79 | a 200 answer with a decodable body yields that body unchanged; every other outcome yields a dictionary with an `error` key and no `results` key, with the status message for a non-200 status and the connection message for an exception or an undecodable body |
| Tavily.ErrorMessageTellsFailure | main.py:67-79 | the error message of a non-200 answer reports that status code and ends with the answer's text; an exception's message never reads as a status report |
| Chat.Greeting | main.py:100 | the greeting opens with `Olá! Recebi sua mensagem: '`, quotes the message verbatim and closes with `'` |
| Chat.FormatHits | main.py:104-107 | the hits are formatted in order, one bullet each, exactly when every hit has a title and a content; otherwise the failure names the missing key of the first incomplete hit (`title` before `content`) |
| Chat.BuildReply | main.py:100-115 | the reply starts with the greeting; `search_used` is true exactly when a search dictionary with a `results` key exists; assembly fails exactly when one of the first two hits lacks a key; with no search the reply is the greeting alone |
| Chat.SearchOutcome | main.py:88-98 | a search outcome exists exactly when search is requested and the key is set and non-empty, and it is what `search_tavily` returns |
| Chat.ChatEndpoint | main.py:83-121 | a normal return has `success` true, the given timestamp and a response starting with the greeting; an error is an HTTP 500 with `Erro interno: ` detail and only happens after a successful search |
| Chat.NoSearchGreetingOnly | main.py:88-115 | with search disabled or no key, the response is exactly the greeting, `search_used` is false and `success` is true |
| Chat.BulletLineShape | main.py:105 | a bullet is `• `, the whole title and `: `, then exactly the first `min(100, len(content))` characters of the content (so all of it when it is 100 or shorter), then `...`; the content part can be cut back out of the line |
| Chat.ResultsText | main.py:102-108 | with a results list, a successful reply is exactly greeting + header + the bullets of the first (at most two) hits joined by `\n`, for any titles and contents, and `search_used` is true; success implies every shown hit has both keys |
| Chat.NeitherKeyGreetingOnly | main.py:102-110 | a dictionary with neither `results` nor `error` (such as a 200 body `{}`) gives the greeting alone and `search_used` false |
| Chat.ResultsSection | main.py:102-108 | corollary of `ResultsText` when no shown title or content contains a line break: splitting the block at `\n` gives back `min(2, len(results))` lines, the bullets of the first hits in order; an empty list leaves nothing after the header |
| Chat.OnlyFirstHitsShown | main.py:106 | hits after the second never change the reply |
| Chat.ResultsOverrideError | main.py:102-110 | when `results` is present the `error` value has no effect on the reply, and the results header follows the greeting |
| Chat.ErrorNoticeOnly | main.py:109-110 | an `error` without `results` gives greeting + `\n\n⚠️ Busca não disponível: ` + error, with `search_used` false |
| Chat.SearchFailureIsAdvisory | main.py:67-115 | a failed search (bad status, exception, undecodable body) still gives `success` true, the failure message in the reply and `search_used` false |
| Chat.SearchUsedIffResults | main.py:112-121 | `search_used` is true exactly when search ran and the service returned a dictionary with `results`; a failure's detail is `Erro interno: 'title'` or `Erro interno: 'content'` |

## Left out

- The FastAPI application, CORS middleware, routes, pydantic models and `uvicorn` start-up: framework plumbing.
- The HTTP POST to the search service (URL, `max_results: 3`, 30-second timeout): its outcome is the `HttpReply` parameter.
- `os.getenv`: the key is an `Option<string>` parameter. The `/providers` and `/test-tavily` endpoints only read the environment or pass a response through; `/` and `/health` return constant status dictionaries with a timestamp.
- `datetime.utcnow().isoformat()`: the timestamp is a parameter copied into the response.
- Diagnostic `print` calls. The one at main.py:69 evaluates `len(data.get('results', []))`. It raises when the 200 body is not a dictionary (JSON `null`, a list) or when `results` has no length (`null`, a number, a boolean); `search_tavily` then returns the connection error instead of the body. A string or object `results` passes `len`, so the body reaches `chat_endpoint` (see the next line). The model represents none of these values.
- JSON values of other types. A title that is not a string (`null`, a number) is formatted with `str()` by the f-string at main.py:105 and does not raise. A list-valued `content` is sliced by `[:100]` without raising. A `null` or numeric `content` makes `[:100]` raise `TypeError`, which becomes a 500 with another detail. A hit that is not a dictionary makes `result['title']` raise `TypeError`, with the same outcome. A `results` value that is a string or an object reaches the results branch at main.py:102-106. A non-empty string then raises `TypeError` at `result['title']`, and an empty string gives greeting + header with `search_used` true. A body that is not a dictionary and an `error` value that is not a string (main.py:110 formats it with `str()`) are not represented either. The model types `title`, `content` and `error` as strings, `results` as a list and each hit as a dictionary.
- Exceptions inside `chat_endpoint` other than a missing hit key: none can arise from the modelled inputs.
