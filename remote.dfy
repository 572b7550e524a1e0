/** The hosted language model as the route handlers see it: a request record
    (instructions, vector store, prompt, output limit, temperature), the
    outcome it produces (text or a failure), and the JSON responses the
    handlers build from those outcomes.  The service itself is an oracle:
    every outcome is an input of the model. */
module Remote {
  import opened Wrappers
  import opened Text

  const VndStoreId: string := "vs_68d3c32dc9f88191b1fb329f214672c6"
  const LegalStoreId: string := "vs_68d3c37c53148191b13805651dff5aa3"
  const MaxOutputTokens: nat := 16384
  /** The 400 message every analysis route gives for a missing document. */
  const DocumentRequired: string := "Содержимое документа обязательно"

  /** The conversation a request carries: which system instructions it
      uses and what goes into the user message.  The combined route and the
      two single-stage routes use different instruction texts. */
  datatype Prompt =
    | VndReview(document: string)            // combined route, internal documents
    | LegalReview(document: string)          // combined route, legal norms
    | Decision(vnd: string, np: string)      // combined route, final decision
    | VndTemplateReview(document: string)    // single-stage route, internal documents
    | LegalTemplateReview(document: string)  // single-stage route, legal norms

  /** The fixed texts of the user messages. */
  const VndReviewHead: string := "Проанализируй следующий документ на предмет соответствия ВНД:\n\n"
  const LegalReviewHead: string := "Проанализируй следующий документ на предмет соответствия правовым нормам:\n\n"
  const DecisionHead: string := "На основе следующих анализов прими решение как виртуальный директор:\n\nВНД Анализ:\n"
  const DecisionMiddle: string := "\n\nНП Анализ:\n"
  const DecisionTail: string :=
    "\n\nПроанализируй документ и прими решение ЗА или ПРОТИВ по рассматриваемому вопросу. "
    + "Следуй указанному формату ответа."
  const VndTemplateHead: string :=
    "Проанализируй следующий документ на предмет соответствия ВНД и верни ответ в указанной структуре:\n\n"
  const LegalTemplateHead: string :=
    "Проанализируй следующий документ на предмет соответствия нормам НП и верни ответ в указанной структуре:\n\n"

  /** The user message of each prompt. */
  function UserMessage(p: Prompt): string {
    match p
    case VndReview(d) => VndReviewHead + d
    case LegalReview(d) => LegalReviewHead + d
    case Decision(vnd, np) => DecisionHead + vnd + DecisionMiddle + np + DecisionTail
    case VndTemplateReview(d) => VndTemplateHead + d
    case LegalTemplateReview(d) => LegalTemplateHead + d
  }

  /** A review prompt's user message is one fixed text followed by the
      document exactly as it was received. */
  lemma ReviewMessageEmbedsDocument(p: Prompt)
    requires !p.Decision?
    ensures UserMessage(p) == UserMessage(p.(document := "")) + p.document
  {
    var head := UserMessage(p.(document := ""));
    assert head + "" == head;
  }

  /** The decision prompt carries both earlier results, each verbatim and
      the internal-documents one first. */
  lemma DecisionMessageEmbedsResults(vnd: string, np: string)
    ensures exists i: nat, j: nat ::
      && i + |vnd| <= j
      && OccursAt(UserMessage(Decision(vnd, np)), vnd, i)
      && OccursAt(UserMessage(Decision(vnd, np)), np, j)
  {
    var withVnd := DecisionHead + vnd;
    var before := withVnd + DecisionMiddle;
    var i := |DecisionHead|;
    var j := |before|;
    OccursAtEnd(DecisionHead, vnd);
    OccursExtend(withVnd, DecisionMiddle, vnd, i);
    OccursExtend(before, np, vnd, i);
    OccursExtend(before + np, DecisionTail, vnd, i);
    OccursAtEnd(before, np);
    OccursExtend(before + np, DecisionTail, np, j);
    var m := UserMessage(Decision(vnd, np));
    assert m == before + np + DecisionTail;
    assert i + |vnd| <= j && OccursAt(m, vnd, i) && OccursAt(m, np, j);
  }


  /** One `responses.create` request.  The temperature is kept in tenths
      (0.2 is 2, 0.4 is 4) so the model stays on integers. */
  datatype Call = Call(
    prompt: Prompt,
    store: Option<string>,      // the one file-search vector store, if any
    maxOutputTokens: nat,
    temperatureTenths: nat)

  /** A thrown error: an `OpenAI.APIError` with its optional `status` and
      optional `error.message`, or anything else. */
  datatype RemoteError =
    | ApiError(status: Option<int>, message: Option<string>)
    | OtherError

  /** What one request yields: `output_text` (possibly empty) or a throw. */
  datatype Outcome = Output(text: string) | Failed(error: RemoteError)

  /** The JSON bodies the handlers send. */
  datatype Body =
    | ErrorBody(error: string)                                  // { error }
    | StageResult(result: string)                               // { success: true, result }
    | FullAnalysis(vnd: string, np: string, summary: string)    // { success: true, analysis: {...} }

  datatype Response = Response(status: int, body: Body)

  /** `output_text || placeholder`: the text when it is non-empty. */
  function OrPlaceholder(text: string, placeholder: string): (r: string)
    ensures text != "" ==> r == text
    ensures r != text ==> r == placeholder
    ensures placeholder != "" ==> r != ""
  {
    if text != "" then text else placeholder
  }

  /** The `catch` block: an `APIError` answers with its own status (500 when
      it has none) and its own message (the default when it has none or it
      is empty); any other error answers 500 with the default message. */
  function Caught(e: RemoteError, defaultMessage: string): (r: Response)
    ensures r.body.ErrorBody?
    ensures r.status != 500 ==> e.ApiError? && e.status == Some(r.status)
    ensures r.body.error != defaultMessage ==>
      e.ApiError? && e.message == Some(r.body.error) && r.body.error != ""
    ensures e.ApiError? && e.status.Some? ==> r.status == e.status.value
    ensures e.ApiError? && e.message.Some? && e.message.value != "" ==> r.body.error == e.message.value
    ensures defaultMessage != "" ==> r.body.error != ""
  {
    match e
    case ApiError(status, message) =>
      var text := if message.Some? && message.value != "" then message.value else defaultMessage;
      Response(status.GetOr(500), ErrorBody(text))
    case OtherError =>
      Response(500, ErrorBody(defaultMessage))
  }

  /** A stage's answer from one outcome: `{ success: true, result }` with the
      placeholder for empty output, or the mapped error. */
  function Settle(outcome: Outcome, placeholder: string, defaultMessage: string): (r: Response)
    ensures outcome.Output? ==> r.status == 200 && r.body.StageResult?
    ensures outcome.Output? && outcome.text != "" ==> r.body.result == outcome.text
    ensures outcome.Output? && outcome.text == "" ==> r.body.result == placeholder
    ensures outcome.Failed? ==> r == Caught(outcome.error, defaultMessage)
  {
    match outcome
    case Output(text) => Response(200, StageResult(OrPlaceholder(text, placeholder)))
    case Failed(e) => Caught(e, defaultMessage)
  }
}
