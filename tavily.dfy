/** What `search_tavily` (main.py) hands back to the chat endpoint. The
    HTTP exchange itself is a parameter: the model starts from what the
    service answered, or from the failure that prevented an answer, and
    derives the dictionary the function returns. */
module Tavily {
  import opened Wrappers
  import opened Text

  /** One entry of the service's `results` list. Either key may be missing
      from the JSON object. */
  datatype Hit = Hit(title: Option<string>, content: Option<string>)

  /** The returned dictionary, reduced to the two keys the endpoint looks at.
      Both may be present at once (a service answer that carries an `error`
      key next to its `results`); any other key has no effect downstream. */
  datatype Payload = Payload(results: Option<seq<Hit>>, error: Option<string>)

  /** The outcome of the POST to the search service: an answer with its
      status code, its raw text and its body decoded as JSON (or the message
      of the decoding error), or an exception raised before any answer
      (connection refused, timeout, ...). */
  datatype HttpReply =
    | Answered(status: nat, text: string, body: Result<Payload, string>)
    | Failed(reason: string)

  const StatusOk: nat := 200
  const StatusErrorPrefix := "Erro na busca: "
  const ConnectErrorPrefix := "Erro ao conectar com Tavily: "

  /** The message for an answer whose status is not 200. */
  function StatusErrorMessage(status: nat, text: string): string {
    StatusErrorPrefix + Decimal(status) + " - " + text
  }

  /** The message for an exception caught around the call. */
  function ConnectErrorMessage(reason: string): string {
    ConnectErrorPrefix + reason
  }

  /** True when the call produced the service's own dictionary. */
  predicate Succeeded(reply: HttpReply) {
    reply.Answered? && reply.status == StatusOk && reply.body.Success?
  }

  /** `search_tavily`: the decoded body on status 200, otherwise a
      dictionary holding only an `error` message. */
  function SearchTavily(reply: HttpReply): (p: Payload)
    ensures Succeeded(reply) ==> p == reply.body.value
    ensures !Succeeded(reply) ==> p.results.None? && p.error.Some?
    ensures reply.Answered? && reply.status != StatusOk ==>
              p.error.value == StatusErrorMessage(reply.status, reply.text)
    ensures reply.Answered? && reply.status == StatusOk && reply.body.Failure? ==>
              p.error.value == ConnectErrorMessage(reply.body.error)
    ensures reply.Failed? ==> p.error.value == ConnectErrorMessage(reply.reason)
  {
    match reply
    case Answered(status, text, body) =>
      if status == StatusOk then
        match body
        case Success(data) => data
        case Failure(decodeError) => Payload(None, Some(ConnectErrorMessage(decodeError)))
      else
        Payload(None, Some(StatusErrorMessage(status, text)))
    case Failed(reason) =>
      Payload(None, Some(ConnectErrorMessage(reason)))
  }

  /** Reads an error message back: the status code it reports, when it is
      the message of an answer with a bad status. */
  function ReportedStatus(message: string): Option<nat> {
    if StatusErrorPrefix <= message then
      var digits := LeadingDigits(message[|StatusErrorPrefix|..]);
      if digits == "" then None else Some(DecimalValue(digits))
    else None
  }

  /** The two kinds of failure stay distinguishable in the message: a bad
      status can be read back with its code and the answer's text, and a
      caught exception never reads as a status. */
  lemma ErrorMessageTellsFailure(reply: HttpReply)
    requires !Succeeded(reply)
    ensures reply.Answered? && reply.status != StatusOk ==>
              ReportedStatus(SearchTavily(reply).error.value) == Some(reply.status)
    ensures reply.Answered? && reply.status != StatusOk ==>
              var m := SearchTavily(reply).error.value;
              m[|m| - |reply.text|..] == reply.text
    ensures reply.Failed? || (reply.Answered? && reply.status == StatusOk) ==>
              ReportedStatus(SearchTavily(reply).error.value) == None
  {
    var m := SearchTavily(reply).error.value;
    if reply.Answered? && reply.status != StatusOk {
      var digits := Decimal(reply.status);
      var tail := " - " + reply.text;
      assert m[|StatusErrorPrefix|..] == digits + tail;
      LeadingDigitsBeforeNonDigit(digits, tail);
      DecimalRoundTrip(reply.status);
    } else {
      assert m[5] != StatusErrorPrefix[5];
    }
  }
}
