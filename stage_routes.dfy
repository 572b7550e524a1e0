/** The two single-stage endpoints, `POST /api/analyze/vnd` (internal
    documents) and `POST /api/analyze/np` (legal norms).  Both read
    `documentContent` from a JSON body, refuse a blank one, send one request
    to the model against their own vector store and answer with its text. */
module StageRoutes {
  import opened Wrappers
  import opened Text
  import opened Remote

  datatype Route = VndRoute | NpRoute

  /** The body as `const { documentContent } = await request.json()` sees
      it: a body that does not parse, or is JSON `null`, throws; any other
      body without a `documentContent` key (a number or a string, say) is
      `Parsed(None)`. */
  datatype StageBody = Unparsable | Parsed(documentContent: Option<string>)

  function StoreOf(route: Route): string {
    match route
    case VndRoute => VndStoreId
    case NpRoute => LegalStoreId
  }

  function PromptOf(route: Route, document: string): Prompt {
    match route
    case VndRoute => VndTemplateReview(document)
    case NpRoute => LegalTemplateReview(document)
  }

  /** `response.output_text || ...` */
  function PlaceholderOf(route: Route): string {
    match route
    case VndRoute => "Ошибка получения результата ВНД анализа"
    case NpRoute => "Ошибка получения результата НП анализа"
  }

  /** The message of the `catch` block. */
  function FailureMessageOf(route: Route): string {
    match route
    case VndRoute => "Ошибка при анализе ВНД"
    case NpRoute => "Ошибка при анализе НП"
  }

  /** The request the route sends: its own store only, 16384 output tokens,
      temperature 0.4. */
  function StageCall(route: Route, document: string): Call {
    Call(PromptOf(route, document), Some(StoreOf(route)), MaxOutputTokens, 4)
  }

  /** A document the handler accepts: present, and not empty or blank
      (`!documentContent || !documentContent.trim()` rejects the rest). */
  predicate Accepted(body: StageBody) {
    body.Parsed? && body.documentContent.Some? && !Blank(ECMAScript, body.documentContent.value)
  }

  /** The handler: the answer, and the requests it sent; `reply` is the
      outcome of the one request. */
  function StagePost(route: Route, body: StageBody, reply: Outcome): (r: (Response, seq<Call>))
    // The check precedes the request: a request is sent exactly when the
    // document is accepted, and a refused document is answered with 400.
    ensures r.1 != [] <==> Accepted(body)
    ensures body.Parsed? && !Accepted(body) ==> r.0 == Response(400, ErrorBody(DocumentRequired))
    // The one request targets this route's store with the document verbatim
    // at the end of the user message.
    ensures Accepted(body) ==>
      && r.1 == [StageCall(route, body.documentContent.value)]
      && r.1[0].store == Some(StoreOf(route))
      && UserMessage(r.1[0].prompt) == UserMessage(PromptOf(route, "")) + body.documentContent.value
    // `{ success: true, result }`, the placeholder standing in for empty text.
    ensures Accepted(body) && reply.Output? ==>
      && r.0.status == 200 && r.0.body.StageResult?
      && r.0.body.result == OrPlaceholder(reply.text, PlaceholderOf(route))
      && r.0.body.result != ""
    // Errors, including a body that does not parse.
    ensures Accepted(body) && reply.Failed? ==> r.0 == Caught(reply.error, FailureMessageOf(route))
    ensures body.Unparsable? ==> r.0 == Response(500, ErrorBody(FailureMessageOf(route)))
  {
    match body
    case Unparsable => (Caught(OtherError, FailureMessageOf(route)), [])
    case Parsed(content) =>
      if content.None? || content.value == "" || Trim(ECMAScript, content.value) == "" then
        (Response(400, ErrorBody(DocumentRequired)), [])
      else
        ReviewMessageEmbedsDocument(PromptOf(route, content.value));
        (Settle(reply, PlaceholderOf(route), FailureMessageOf(route)), [StageCall(route, content.value)])
  }
}
