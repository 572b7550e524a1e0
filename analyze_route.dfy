/** The combined analysis endpoint (`POST /api/analyze`): it reads the stage,
    the document and earlier results from a JSON body or a multipart form,
    rejects incomplete requests with 400 before calling the model, runs one
    stage or the whole internal-documents -> legal -> decision pipeline, and
    maps thrown errors to HTTP answers.  The model service is the oracle
    `reply`: `reply(i)` is the outcome of the i-th request the handler sends. */
module AnalyzeRoute {
  import opened Wrappers
  import opened Text
  import opened Remote

  /** The `stage` value after the cast; anything but the four names is kept
      as it came, and the `switch` sends it to its `default` branch. */
  datatype Stage = Vnd | Np | Summary | Full | Unknown(name: string)

  /** `(value as AnalysisStage) ?? 'full'`: an absent (null or undefined)
      stage becomes `full`; a present one is taken as it is. */
  function StageOf(name: Option<string>): (s: Stage)
    ensures name.None? ==> s == Full
    ensures name == Some("vnd") <==> s == Vnd
    ensures name == Some("np") <==> s == Np
    ensures name == Some("summary") <==> s == Summary
    ensures s.Unknown? ==> name == Some(s.name)
  {
    match name
    case None => Full
    case Some(n) =>
      if n == "vnd" then Vnd
      else if n == "np" then Np
      else if n == "summary" then Summary
      else if n == "full" then Full
      else Unknown(n)
  }

  /** The stages whose `case` needs a document: the `if` before the `switch`. */
  predicate NeedsDocument(s: Stage) {
    s == Vnd || s == Np || s == Full
  }

  /** A JSON body's fields; `None` is a field that is absent or null. */
  datatype JsonBody = JsonBody(
    stage: Option<string>,
    documentContent: Option<string>,
    vndResult: Option<string>,
    npResult: Option<string>)

  /** A multipart form's fields; `file` is the uploaded file's decoded text. */
  datatype FormBody = FormBody(
    file: Option<string>,
    content: Option<string>,
    stage: Option<string>,
    vndResult: Option<string>,
    npResult: Option<string>)

  /** The request: its `content-type` header and the body as each parser
      sees it, `None` where that parser throws. */
  datatype Request = Request(
    contentType: Option<string>,
    json: Option<JsonBody>,
    form: Option<FormBody>)

  const JsonMediaType: string := "application/json"
  const FileOrContentRequired: string := "Файл или содержимое обязательны"
  const FileUnreadable: string := "Не удалось прочитать содержимое файла"
  const ResultsRequired: string :=
    "Для формирования итогового заключения необходимо предоставить результаты ВНД и НП анализа"
  const AnalysisFailed: string := "Ошибка при анализе документа"
  const VndPlaceholder: string := "Ошибка получения результата ВНД анализа"
  const NpPlaceholder: string := "Ошибка получения результата НП анализа"
  const SummaryPlaceholder: string := "Ошибка получения итогового анализа"

  /** `extractDocumentContentFromFormData`: non-blank pasted content wins;
      otherwise the file's text if it is not blank; otherwise an error that
      names the file when there was one. */
  function ExtractDocument(file: Option<string>, content: Option<string>): (r: Result<string, string>)
    ensures r.Failure? <==>
      (file.None? || Blank(ECMAScript, file.value)) && (content.None? || Blank(ECMAScript, content.value))
    ensures content.Some? && !Blank(ECMAScript, content.value) ==> r == Success(content.value)
    ensures r.Success? && r != Success(content.GetOr("")) ==> file == Some(r.value)
    ensures r.Failure? && file.None? ==> r.error == FileOrContentRequired
    ensures r.Failure? && file.Some? ==> r.error == FileUnreadable
  {
    if file.None? && (content.None? || content.value == "") then
      Failure(FileOrContentRequired)
    else if content.Some? && |Trim(ECMAScript, content.value)| > 0 then
      Success(content.value)
    else if file.Some? then
      if Trim(ECMAScript, file.value) == "" then Failure(FileUnreadable)
      else Success(file.value)
    else
      Failure(FileOrContentRequired)
  }

  /** What the handler knows once the body is read. */
  datatype Fields = Fields(stage: Stage, document: string, vndResult: string, npResult: string)

  /** Reading the body: the fields with their `??` defaults, or the answer
      the handler gives before looking at the stage (a body that does not
      parse falls to the `catch`; a form without a document is refused). */
  function ReadRequest(req: Request): (r: Result<Fields, Response>)
    ensures r.Failure? ==>
      || r.error == Response(500, ErrorBody(AnalysisFailed))
      || (&& !Contains(req.contentType.GetOr(""), JsonMediaType) && req.form.Some?
          && var extracted := ExtractDocument(req.form.value.file, req.form.value.content);
          && extracted.Failure? && r.error == Response(400, ErrorBody(extracted.error)))
    // A document taken from a form is never blank; a JSON one may be.
    ensures r.Success? && !Contains(req.contentType.GetOr(""), JsonMediaType) ==>
      !Blank(ECMAScript, r.value.document)
    // A parsed JSON body: each field with its `??` default, the stage cast.
    ensures Contains(req.contentType.GetOr(""), JsonMediaType) && req.json.Some? ==>
      var b := req.json.value;
      r == Success(Fields(StageOf(b.stage), b.documentContent.GetOr(""),
                          b.vndResult.GetOr(""), b.npResult.GetOr("")))
    // In form mode an extraction error is answered with 400 before the
    // stage is examined; otherwise the extracted document is the one used.
    ensures !Contains(req.contentType.GetOr(""), JsonMediaType) && req.form.Some? ==>
      var f := req.form.value;
      var extracted := ExtractDocument(f.file, f.content);
      && (extracted.Failure? ==> r == Failure(Response(400, ErrorBody(extracted.error))))
      && (extracted.Success? ==>
            r == Success(Fields(StageOf(f.stage), extracted.value,
                                f.vndResult.GetOr(""), f.npResult.GetOr(""))))
    // A body its parser cannot read falls to the `catch`.
    ensures (if Contains(req.contentType.GetOr(""), JsonMediaType) then req.json.None? else req.form.None?) ==>
      r == Failure(Response(500, ErrorBody(AnalysisFailed)))
  {
    if Contains(req.contentType.GetOr(""), JsonMediaType) then
      match req.json
      case None => Failure(Caught(OtherError, AnalysisFailed))
      case Some(b) =>
        Success(Fields(StageOf(b.stage), b.documentContent.GetOr(""),
                       b.vndResult.GetOr(""), b.npResult.GetOr("")))
    else
      match req.form
      case None => Failure(Caught(OtherError, AnalysisFailed))
      case Some(f) =>
        match ExtractDocument(f.file, f.content)
        case Failure(e) => Failure(Response(400, ErrorBody(e)))
        case Success(doc) =>
          Success(Fields(StageOf(f.stage), doc, f.vndResult.GetOr(""), f.npResult.GetOr("")))
  }

  /** `analyzeVND`'s request: internal-documents store, temperature 0.2. */
  function VndCall(document: string): Call {
    Call(VndReview(document), Some(VndStoreId), MaxOutputTokens, 2)
  }

  /** `analyzeNP`'s request: legal store, temperature 0.2. */
  function NpCall(document: string): Call {
    Call(LegalReview(document), Some(LegalStoreId), MaxOutputTokens, 2)
  }

  /** `buildSummary`'s request: no store; the prompt embeds both results. */
  function SummaryCall(vnd: string, np: string): Call {
    Call(Decision(vnd, np), None, MaxOutputTokens, 2)
  }

  /** The `full` pipeline as observed from outside: the internal-documents
      request first; the legal request only after it succeeded; the decision
      request only after both, carrying exactly the two (placeholder-filled)
      results; the first failure ends the run through the `catch`. */
  predicate RanPipeline(document: string, reply: nat -> Outcome, response: Response, trace: seq<Call>) {
    && |trace| >= 1 && trace[0] == VndCall(document)
    && (reply(0).Failed? ==> trace == [VndCall(document)] && response == Caught(reply(0).error, AnalysisFailed))
    && (reply(0).Output? ==>
          var vnd := OrPlaceholder(reply(0).text, VndPlaceholder);
          && |trace| >= 2 && trace[1] == NpCall(document)
          && (reply(1).Failed? ==> |trace| == 2 && response == Caught(reply(1).error, AnalysisFailed))
          && (reply(1).Output? ==>
                var np := OrPlaceholder(reply(1).text, NpPlaceholder);
                && trace == [VndCall(document), NpCall(document), SummaryCall(vnd, np)]
                && (reply(2).Failed? ==> response == Caught(reply(2).error, AnalysisFailed))
                && (reply(2).Output? ==>
                      response == Response(200, FullAnalysis(vnd, np, OrPlaceholder(reply(2).text, SummaryPlaceholder))))))
  }

  /** The `default` branch: `vnd`, then `np`, then `summary`, each awaited in
      turn; the first failure is caught and answered. */
  method RunPipeline(document: string, reply: nat -> Outcome) returns (response: Response, trace: seq<Call>)
    ensures RanPipeline(document, reply, response, trace)
    ensures |trace| <= 3
    ensures forall c :: c in trace ==> c.maxOutputTokens == 16384 && c.temperatureTenths == 2
  {
    trace := [VndCall(document)];
    var vndOutcome := reply(0);
    if vndOutcome.Failed? {
      response := Caught(vndOutcome.error, AnalysisFailed);
      return;
    }
    var vnd := OrPlaceholder(vndOutcome.text, VndPlaceholder);
    trace := trace + [NpCall(document)];
    var npOutcome := reply(1);
    if npOutcome.Failed? {
      response := Caught(npOutcome.error, AnalysisFailed);
      return;
    }
    var np := OrPlaceholder(npOutcome.text, NpPlaceholder);
    trace := trace + [SummaryCall(vnd, np)];
    var summaryOutcome := reply(2);
    if summaryOutcome.Failed? {
      response := Caught(summaryOutcome.error, AnalysisFailed);
      return;
    }
    var summary := OrPlaceholder(summaryOutcome.text, SummaryPlaceholder);
    response := Response(200, FullAnalysis(vnd, np, summary));
  }

  /** The handler.  `stage`, `documentContent`, `vndResult` and `npResult`
      start at their defaults and are reassigned by whichever body branch
      runs; then the content check and the `switch`. */
  method Post(req: Request, reply: nat -> Outcome) returns (response: Response, trace: seq<Call>)
    // A body that cannot be read, or a form without a usable document, is
    // answered before the stage is looked at, and nothing is sent.
    ensures ReadRequest(req).Failure? ==> response == ReadRequest(req).error && trace == []
    // `vnd`, `np` and `full` with a blank document: 400 and nothing sent.
    ensures ReadRequest(req).Success? ==>
      var f := ReadRequest(req).value;
      NeedsDocument(f.stage) && Blank(ECMAScript, f.document) ==>
        response == Response(400, ErrorBody(DocumentRequired)) && trace == []
    // A single stage sends exactly its one request and answers with its result.
    ensures ReadRequest(req).Success? ==>
      var f := ReadRequest(req).value;
      f.stage == Vnd && !Blank(ECMAScript, f.document) ==>
        trace == [VndCall(f.document)] && response == Settle(reply(0), VndPlaceholder, AnalysisFailed)
    ensures ReadRequest(req).Success? ==>
      var f := ReadRequest(req).value;
      f.stage == Np && !Blank(ECMAScript, f.document) ==>
        trace == [NpCall(f.document)] && response == Settle(reply(0), NpPlaceholder, AnalysisFailed)
    // `summary` refuses an empty (but not a whitespace-only) earlier result.
    ensures ReadRequest(req).Success? ==>
      var f := ReadRequest(req).value;
      f.stage == Summary && (f.vndResult == "" || f.npResult == "") ==>
        response == Response(400, ErrorBody(ResultsRequired)) && trace == []
    ensures ReadRequest(req).Success? ==>
      var f := ReadRequest(req).value;
      f.stage == Summary && f.vndResult != "" && f.npResult != "" ==>
        trace == [SummaryCall(f.vndResult, f.npResult)]
        && response == Settle(reply(0), SummaryPlaceholder, AnalysisFailed)
    // `full` with a document, and every unrecognised stage with or without
    // one, run the whole pipeline.
    ensures ReadRequest(req).Success? ==>
      var f := ReadRequest(req).value;
      (f.stage == Full && !Blank(ECMAScript, f.document)) || f.stage.Unknown? ==>
        RanPipeline(f.document, reply, response, trace)
    // Every request sent uses the same output limit and temperature.
    ensures |trace| <= 3
    ensures forall c :: c in trace ==> c.maxOutputTokens == 16384 && c.temperatureTenths == 2
  {
    trace := [];
    var contentType := req.contentType.GetOr("");
    var stage := Full;
    var documentContent := "";
    var vndResult := "";
    var npResult := "";

    if Contains(contentType, JsonMediaType) {
      if req.json.None? {
        response := Caught(OtherError, AnalysisFailed);
        return;
      }
      var body := req.json.value;
      stage := StageOf(body.stage);
      documentContent := body.documentContent.GetOr("");
      vndResult := body.vndResult.GetOr("");
      npResult := body.npResult.GetOr("");
      assert ReadRequest(req) == Success(Fields(stage, documentContent, vndResult, npResult));
    } else {
      if req.form.None? {
        response := Caught(OtherError, AnalysisFailed);
        return;
      }
      var form := req.form.value;
      var result := ExtractDocument(form.file, form.content);
      if result.Failure? {
        response := Response(400, ErrorBody(result.error));
        return;
      }
      documentContent := result.value;
      stage := StageOf(form.stage);
      vndResult := form.vndResult.GetOr("");
      npResult := form.npResult.GetOr("");
      assert ReadRequest(req) == Success(Fields(stage, documentContent, vndResult, npResult));
    }

    if stage == Vnd || stage == Np || stage == Full {
      if Trim(ECMAScript, documentContent) == "" {
        response := Response(400, ErrorBody(DocumentRequired));
        return;
      }
    }

    match stage
    case Vnd =>
      trace := [VndCall(documentContent)];
      response := Settle(reply(0), VndPlaceholder, AnalysisFailed);
    case Np =>
      trace := [NpCall(documentContent)];
      response := Settle(reply(0), NpPlaceholder, AnalysisFailed);
    case Summary =>
      if vndResult == "" || npResult == "" {
        response := Response(400, ErrorBody(ResultsRequired));
        return;
      }
      trace := [SummaryCall(vndResult, npResult)];
      response := Settle(reply(0), SummaryPlaceholder, AnalysisFailed);
    case _ =>
      response, trace := RunPipeline(documentContent, reply);
  }
}
