# SKAI virtual director — Dafny model

This project models the logic of the SKAI "virtual director" application, a board-of-directors assistant. It has these parts:

- **Combined analysis endpoint** (`POST /api/analyze`). It reads a stage and a document from a JSON body or a multipart form. It refuses incomplete requests with 400 before calling the language model. It then runs one stage (internal documents "ВНД", legal norms "НП", or the decision) or the whole pipeline, and maps thrown errors to HTTP answers.
- **Single-stage endpoints** (`/api/analyze/vnd`, `/api/analyze/np`). Each validates the document, sends one request against its own vector store and answers with the text.
- **Virtual-director page**. This covers the step machine `upload → processing → vnd → np → summary → complete`, the stored result, the step indicator and progress ring, and the "play each tab's audio once" flags.
- **Summary view**. It parses the decision text into four bold-headed sections, derives the verdict from the decision section, and falls back to raw text.
- **Internal-documents chat page**. This covers sending, answering, the history in browser storage and the input height rule.
- **Markdown renderer**. It turns heading text into a slug used as the element id, and adds `target`/`rel` to external links.
- **Authentication options**. These are the credentials check and the `jwt`/`session` callbacks.
- **Python board pipeline** (`SKAI.py`). This covers:
  - assembling the agenda from `<context>` blocks;
  - parsing the agenda into items;
  - the three-attempt preprocessing and query-generation loops;
  - extracting the decision from the model's answer;
  - the decision summary and the plain-text report.

The hosted model, the web search and the browser are oracles. Every outcome they produce is an input of the model: `reply: nat -> Outcome` is the outcome of the i-th request. JSON encode/decode are function parameters. Timers fire at once.

Module layout, one per source file:

- `wrappers.dfy` has `Option` and `Result`.
- `text.dfy` has the string primitives shared by the TypeScript and Python parts:
  - the ECMAScript `\s`/`trim` whitespace set and Python's `str.isspace` set, modelled separately;
  - `split`/`join`/`replace`;
  - a fixed case table (ASCII and Cyrillic U+0400–U+045F).
- `remote.dfy`, `analyze_route.dfy`, `stage_routes.dfy`, `director_page.dfy`, `summary_view.dfy`, `chat_page.dfy`, `markdown_render.dfy`, `auth.dfy` and `skai.dfy` model one source file each.

Two facts about the source shape what the model shows:

- The summary view (src/app/virtual-director/summary-view.tsx:21) recognises the headings `ПУНКТ ПОВЕСТКИ ДНЯ`, `РЕШЕНИЕ НЕЗАВИСИМОГО ЧЛЕНА СД`, `КРАТКОЕ ЗАКЛЮЧЕНИЕ` and `ОБОСНОВАНИЕ`. The combined endpoint's decision prompt (src/app/api/analyze/route.ts:105-111) asks for `ТЕМА ПОВЕСТКИ ДНЯ`, `РЕШЕНИЕ ВИРТУАЛЬНОГО ДИРЕКТОРА`, `КРАТКОЕ ОБОСНОВАНИЕ` and `ОБОСНОВАНИЕ ПО ВОПРОСУ`, so a response in that format is shown as raw text. `SummaryView.ServerTemplateHeadingsNotRecognised` and `SummaryView.UnrecognisedFormatFallsBack` state this.
- The combined endpoint sends every request with temperature 0.2 (src/app/api/analyze/route.ts:44, 81, 134). The single-stage endpoints use 0.4 (src/app/api/analyze/vnd/route.ts:74, src/app/api/analyze/np/route.ts:73).

## Model

| member | source | states |
|---|---|---|
| Remote.ReviewMessageEmbedsDocument | src/app/api/analyze/route.ts:34 | A review request's user message is one fixed text followed by the document exactly as received |
| Remote.DecisionMessageEmbedsResults | src/app/api/analyze/route.ts:120-128 | The decision request carries both earlier results verbatim, the internal-documents one first |
| Remote.OrPlaceholder | src/app/api/analyze/route.ts:47 | `output_text \|\| placeholder`: the text when non-empty, otherwise the placeholder; never empty when the placeholder is not |
| Remote.Caught | src/app/api/analyze/route.ts:230-240 | An APIError answers with its own status (500 if none) and its own non-empty message (default otherwise); any other error answers 500 with the default message |
| Remote.Settle | src/app/api/analyze/route.ts:199-206 | Output gives 200 `{success, result}` with the placeholder for empty text; a failure gives the caught error response |
| AnalyzeRoute.StageOf | src/app/api/analyze/route.ts:172 | An absent stage is `full`; each of the four names maps to its stage; any other name is kept and goes to the default branch |
| AnalyzeRoute.ExtractDocument | src/app/api/analyze/route.ts:140-160 | Fails exactly when neither the content nor the file is non-blank; non-blank content wins; the error names the file problem only when a file was given |
| AnalyzeRoute.ReadRequest | src/app/api/analyze/route.ts:164-190 | A body its parser cannot read answers 500. A parsed JSON body gives its four fields with their `?? 'full'` / `?? ''` defaults and the cast stage. In form mode an extraction error answers 400 with that error before the stage is examined; otherwise the extracted document, which is never blank, is used with the form's stage and results |
| AnalyzeRoute.RunPipeline | src/app/api/analyze/route.ts:214-228 | The `full`/default branch sends `vnd`, then `np` on the same document, then `summary` on their (placeholder-substituted) results, stops at the first failed request and answers it as the catch block does, and otherwise answers 200 with all three texts |
| AnalyzeRoute.Post | src/app/api/analyze/route.ts:162-241 | Shows the requests sent and the answer for every stage: a blank document gets 400 with no call; a single stage sends its one request; a `summary` missing an earlier result gets 400; `full` and unknown stages run the three requests in order and stop at the first failure; every request uses 16384 tokens and temperature 0.2 |
| StageRoutes.StagePost | src/app/api/analyze/vnd/route.ts:10-95 | A request is sent exactly when the document is accepted; a refused one gets 400; the one request uses the route's own store with the document at the end of the prompt; the result is the non-empty text or the placeholder; failures are mapped with the route's message |
| DirectorPage.FileNameFor | src/app/virtual-director/page.tsx:260 | The file name when a file is chosen; otherwise "Текстовый ввод" exactly when the content is not blank, and "Демонстрационный режим" exactly when it is |
| DirectorPage.FailureMessage | src/app/virtual-director/page.tsx:267 | An Error shows its message; anything else shows the generic text |
| DirectorPage.Restore | src/app/virtual-director/page.tsx:45-53 | Missing stored texts fall back to the demonstration texts; the timestamp survives only when present and non-empty |
| DirectorPage.StepIndex | src/app/virtual-director/page.tsx:30 | The step's position in the progression; only `complete` is last |
| DirectorPage.RowFollowsStepOrder | src/app/virtual-director/page.tsx:550-573 | Row n is active on step n+1, done once past it and idle before it, as the four StepRow flag expressions give |
| DirectorPage.ExactlyOneFlag | src/app/virtual-director/page.tsx:550-573 | While the rows are shown, each row has exactly one of active, done and idle |
| DirectorPage.AtMostOneActiveRow | src/app/virtual-director/page.tsx:550-573 | No two rows are active together |
| DirectorPage.RowsInOrder | src/app/virtual-director/page.tsx:550-573 | Reading down the rows: done rows, then the active one, then idle rows |
| DirectorPage.ProgressQuarters | src/app/virtual-director/page.tsx:524-528 | The ring fills one quarter per step up to `summary`, and is empty on `complete` |
| DirectorPage.Page.constructor | src/app/virtual-director/page.tsx:26-38 | The first render: no file, no content, no result, summary tab, `upload`, no flags set |
| DirectorPage.Page.LoadEffect | src/app/virtual-director/page.tsx:41-63 | A non-empty stored entry that parses becomes the complete result with every tab's audio marked played; otherwise nothing changes |
| DirectorPage.Page.PersistEffect | src/app/virtual-director/page.tsx:66-70 | Storage is written only when a result exists and the step is `complete` |
| DirectorPage.Page.AudioEffect | src/app/virtual-director/page.tsx:108-176 | A tab's audio plays exactly when the run is complete, the tab is active and it has not played; playing sets only that tab's flag |
| DirectorPage.Page.SelectTab | src/app/virtual-director/page.tsx:610 | Only the active tab changes |
| DirectorPage.Page.ChooseFile | src/app/virtual-director/page.tsx:202-234 | The file and the editor text change, nothing else |
| DirectorPage.Page.EditContent | src/app/virtual-director/page.tsx:455 | Only the content changes |
| DirectorPage.Page.Analyze | src/app/virtual-director/page.tsx:236-271 | Does nothing without a file or non-blank content. Otherwise it walks processing→vnd→np→summary→complete and ends with the demonstration result, the file name and the time. A throw at delay w visits the first w+1 steps, returns to `upload` and shows the error. The result exists exactly on `complete` |
| DirectorPage.Page.Fail | src/app/virtual-director/page.tsx:265-270 | The catch shows the message and returns to `upload` |
| DirectorPage.Page.Reset | src/app/virtual-director/page.tsx:273-304 | Back to the empty first render, the stored analysis removed and every audio flag cleared |
| DirectorPage.Page.ClearHistory | src/app/virtual-director/page.tsx:306-330 | Like reset, but the file, content and error message stay |
| SummaryView.MatchFirst | src/app/virtual-director/summary-view.tsx:21 | The first alternative whose bold marker starts the line, and the rest after it; none when no marker starts it |
| SummaryView.MatchHeading | src/app/virtual-director/summary-view.tsx:21-27 | A heading line is a marker followed by the rest; a line no marker starts is not a heading |
| SummaryView.EveryKeyIsAnAlternative | src/app/virtual-director/summary-view.tsx:21 | All four headings are alternatives of the pattern |
| SummaryView.Opening | src/app/virtual-director/summary-view.tsx:31-32 | The text after the marker, trimmed, opens the section only when non-empty |
| SummaryView.ParseSections | src/app/virtual-director/summary-view.tsx:20-38 | The loop computes the line-by-line parse state |
| SummaryView.ParseLinesDescribed | src/app/virtual-director/summary-view.tsx:26-38 | Independent description of the parse. The current section is that of the last heading line, and a section exists exactly when some line opens it. It holds the opening text of its last heading line, then the lines up to the next heading. Lines before the first heading belong nowhere |
| SummaryView.ParseLines | src/app/virtual-director/summary-view.tsx:26-38 | The parsing loop as a recursive definition; its contract is carried by `SummaryView.ParseLinesDescribed` |
| SummaryView.Step | src/app/virtual-director/summary-view.tsx:27-37 | One pass of the parsing loop; its contract is carried by `SummaryView.StepDescribed` |
| SummaryView.StepDescribed | src/app/virtual-director/summary-view.tsx:26-38 | One more line keeps that description true |
| SummaryView.LastHeadingIsLastOfItsKey | src/app/virtual-director/summary-view.tsx:29-30 | The last heading line is the last opening of its own section |
| SummaryView.BodyExtendsCurrent | src/app/virtual-director/summary-view.tsx:35-37 | A body line is appended to the section of the last heading |
| SummaryView.BodyLeavesOther | src/app/virtual-director/summary-view.tsx:35-37 | A body line leaves every other section unchanged |
| SummaryView.SectionAfterHeading | src/app/virtual-director/summary-view.tsx:28-33 | A repeated heading resets its section to its new opening text |
| SummaryView.NoHeadingNoSections | src/app/virtual-director/summary-view.tsx:24-37 | With no heading line, no section is opened |
| SummaryView.ServerTemplateHeadingsNotRecognised | src/app/api/analyze/route.ts:105-111 | The four headings the combined endpoint's prompt asks for open no section in the summary view |
| SummaryView.GetSection | src/app/virtual-director/summary-view.tsx:40 | The section's lines joined with `'\n'`, with exactly the leading and trailing whitespace cut; `""` for an unseen section, and `""` exactly when every line of the section is blank |
| Text.TrimSpec | src/app/virtual-director/summary-view.tsx:40 | `trim()` (and Python `strip()`) removes exactly the leading and the trailing whitespace and keeps the slice between them |
| SummaryView.FirstToken | src/app/virtual-director/summary-view.tsx:55 | A prefix of the text with no whitespace, followed by whitespace or the end |
| SummaryView.VerdictOfSection | src/app/virtual-director/summary-view.tsx:53-56 | The verdict is the upper-cased first word: non-empty, without whitespace, and positive exactly when it contains "ЗА"; there is no third outcome |
| SummaryView.DecisionVerdict | src/app/virtual-director/summary-view.tsx:53-56 | The decision shown and its styling; its contract is carried by `SummaryView.VerdictOfSection`: the upper-cased first word, positive exactly when it contains "ЗА" |
| SummaryView.LowerCaseForIsPositive | src/app/virtual-director/summary-view.tsx:55-56 | "за" is shown as "ЗА" and is positive |
| SummaryView.OnlyFirstWordShown | src/app/virtual-director/summary-view.tsx:55 | Only the first word of the decision is shown |
| SummaryView.NoZeNotPositive | src/app/virtual-director/summary-view.tsx:56 | A text without the letter З is never positive |
| SummaryView.AgainstIsNegative | src/app/virtual-director/summary-view.tsx:56 | "ПРОТИВ." is negative |
| SummaryView.BackwardsIsPositive | src/app/virtual-director/summary-view.tsx:56 | The substring test also makes "назад" positive |
| SummaryView.PushIfPresent | src/app/virtual-director/summary-view.tsx:43-51 | One `if (section) blocks.push(...)` step appends that section's own panel exactly when its text is non-empty, and keeps the panels so far in order, each faithful, one per non-empty section |
| SummaryView.CollectBlocks | src/app/virtual-director/summary-view.tsx:41-92 | One panel per non-empty section, each with its own section's text or verdict, in the order agenda, decision, justification, short summary; no panel exactly when every section is empty |
| SummaryView.WellFormedComplete | src/app/virtual-director/summary-view.tsx:43-92 | Checking the four panels in order yields exactly the well-formed block list |
| SummaryView.Render | src/app/virtual-director/summary-view.tsx:9-102 | The no-data card exactly for a blank summary; raw text, unchanged, exactly when no section has text; otherwise the well-formed panels |
| SummaryView.UnrecognisedFormatFallsBack | src/app/virtual-director/summary-view.tsx:93-99 | A summary with no recognised heading line has every section empty, so it is shown as raw text |
| ChatPage.ReplyText | src/app/vnd/page.tsx:121-140 | The answer when present and non-empty, the empty-answer notice otherwise, the apology on any failure |
| ChatPage.UpdateById | src/app/vnd/page.tsx:128-132 | Same length; exactly the messages with the id get the new text |
| ChatPage.UpdateUniqueId | src/app/vnd/page.tsx:128-132 | With a unique id the update rewrites that one message and nothing else |
| ChatPage.IdsDiffer | src/app/vnd/page.tsx:95-103 | Different clock readings give different ids |
| ChatPage.TextareaHeight | src/app/vnd/page.tsx:31-42 | The content height, capped at seven 24-pixel lines |
| ChatPage.Chat.constructor | src/app/vnd/page.tsx:17-28 | The welcome message alone, empty input, not loading |
| ChatPage.Chat.LoadEffect | src/app/vnd/page.tsx:51-64 | A non-empty stored history that parses replaces the list; otherwise nothing changes |
| ChatPage.Chat.PersistEffect | src/app/vnd/page.tsx:67-71 | The history is written only when it holds more than one message |
| ChatPage.Chat.EditInput | src/app/vnd/page.tsx:45-48 | The input text and the capped height |
| ChatPage.Chat.Send | src/app/vnd/page.tsx:81-110 | Blank input or a pending answer: nothing. Otherwise the input clears, loading starts, and the trimmed user message and an empty bot message with a different id are appended |
| ChatPage.Chat.Complete | src/app/vnd/page.tsx:112-143 | Only messages with the bot id get the reply's text, and loading stops |
| ChatPage.Chat.KeyPress | src/app/vnd/page.tsx:146-151 | Any key but Enter without Shift changes nothing. Enter without Shift does what Send does: nothing for a blank input or while an answer is awaited; otherwise the input is cleared, loading starts, and the trimmed user message and an empty bot message are appended |
| ChatPage.SendsOnKey | src/app/vnd/page.tsx:147 | The key test of `handleKeyPress`; its contract is carried by `ChatPage.Chat.KeyPress`: Enter without Shift sends, any other key does nothing |
| ChatPage.Chat.Clear | src/app/vnd/page.tsx:153-162 | The welcome message alone and no stored history |
| ChatPage.AnswerTouchesOnlyBotMessage | src/app/vnd/page.tsx:100-132 | After a send, the answer changes the new bot message and nothing else |
| MarkdownRender.RemoveDisallowed | src/components/markdown-render.tsx:18 | Only characters of the class and whitespace remain; a text made of them is unchanged |
| MarkdownRender.RemoveDisallowedOne | src/components/markdown-render.tsx:18 | A single character is kept exactly when the class or `\s` admits it |
| MarkdownRender.RemoveDisallowedAppend | src/components/markdown-render.tsx:18 | The removal works piece by piece, so the admitted characters stay in their order |
| MarkdownRender.DashSpaces | src/components/markdown-render.tsx:19 | No whitespace remains: every character of the result is a class character or a dash |
| MarkdownRender.DashSpacesFixesSlugChars | src/components/markdown-render.tsx:19 | A text without whitespace is unchanged |
| MarkdownRender.DashSpacesRun | src/components/markdown-render.tsx:19 | A whitespace run of any length becomes exactly one dash |
| MarkdownRender.DashSpacesWord | src/components/markdown-render.tsx:19 | Characters other than whitespace are kept in order |
| MarkdownRender.CollapseDashes | src/components/markdown-render.tsx:20 | No two consecutive dashes remain, and after a dash run the result does not start with another dash |
| MarkdownRender.CollapseDashesFixesSlugs | src/components/markdown-render.tsx:20 | A slug is unchanged |
| MarkdownRender.CollapseDashesRun | src/components/markdown-render.tsx:20 | A dash run of any length becomes exactly one dash |
| MarkdownRender.CollapseDashesWord | src/components/markdown-render.tsx:20 | Characters other than dashes are kept in order |
| MarkdownRender.Slugify | src/components/markdown-render.tsx:14-21 | Every character is in a-z, а-я, 0-9 or '-', and no "--" occurs |
| MarkdownRender.SlugHasNoSpace | src/components/markdown-render.tsx:19 | A slug holds no whitespace |
| MarkdownRender.SlugifyFixesSlugs | src/components/markdown-render.tsx:14-21 | Each step leaves a slug unchanged |
| MarkdownRender.SlugifyIdempotent | src/components/markdown-render.tsx:14-21 | slugify(slugify(x)) == slugify(x) |
| MarkdownRender.SlugKeepsTrailingDash | src/components/markdown-render.tsx:16-19 | Trimming precedes removal, so "a !" becomes "a-" |
| MarkdownRender.RenderHeading | src/components/markdown-render.tsx:29-63 | The h1–h3 id is the slugify of the heading text, and the anchor links to "#" + id |
| MarkdownRender.HeadingIdStable | src/components/markdown-render.tsx:30-34 | A heading titled by its own id gets the same id and anchor |
| MarkdownRender.RenderLink | src/components/markdown-render.tsx:88-89 | target "_blank" and rel "noopener noreferrer" exactly when href starts with "http"; otherwise both undefined |
| MarkdownRender.LocalLinksOpenInPlace | src/components/markdown-render.tsx:88-89 | A missing href or an in-page anchor gets neither attribute |
| Auth.Authorize | src/lib/auth.ts:12-23 | A user exactly when the username is "admin" and the password "password"; that user is always {id "1", name "Admin", email "admin@example.com"} |
| Auth.ExactUsername | src/lib/auth.ts:15 | Any other username, even differing only in case, is refused |
| Auth.JwtCallback | src/lib/auth.ts:33-38 | token.id becomes the user's id only when a user is present; the rest of the token is unchanged |
| Auth.SessionCallback | src/lib/auth.ts:39-44 | session.user.id becomes token.id only when both exist; nothing else changes |
| Auth.SignIn | src/lib/auth.ts:12-44 | Through both callbacks the session's user id is "1" exactly when the admin credentials were given, and absent otherwise |
| Skai.EnclosedSpec | SKAI.py:86-87 | The extracted text follows the first `<context>`, stops at the next `</context>`, the next `<context>` or the end, and contains neither tag |
| Skai.Enclosed | SKAI.py:87 | `split("<context>")[1].split("</context>")[0]`; its contract is carried by `Skai.EnclosedSpec`: the text after the first `<context>` up to the next `</context>`, the next `<context>` or the end |
| Skai.AssembleAgenda | SKAI.py:83-90 | The loop builds the agenda from each message's contribution in order, with one "Context received" event per message that has a context block |
| Skai.AssembleAppend | SKAI.py:84-90 | Assembly distributes over concatenation of message lists |
| Skai.ContributionShape | SKAI.py:86-90 | A message without both tags contributes its text verbatim; one with them contributes the text enclosed after its first `<context>` (as `EnclosedAt` describes it), followed by a line break |
| Skai.Contribution | SKAI.py:86-90 | One message's share of the agenda; its contract is carried by `Skai.ContributionShape`: the enclosed text and a line break for a message with both tags, the message itself otherwise |
| Skai.Assemble | SKAI.py:84-90 | The agenda text; its contract is carried by `Skai.AssembleAppend` and `Skai.AssembleAgenda`: the contributions concatenated in message order |
| Skai.FormatAnalysisResult | SKAI.py:449-454 | An error status gives "ОШИБКА: " + error (default text); success gives the response (default "Нет данных"); any other status gives "Анализ не выполнен" |
| Skai.FirstLine | SKAI.py:328 | A prefix of the text without a line break, followed by one or by the end |
| Skai.NumberedItem | SKAI.py:323-331 | The number as matched; full text and description are the stripped raw text; the title is its whole first line: a prefix without a line break, followed by a line break or the end of the text |
| Skai.ParagraphTitle | SKAI.py:339 | A paragraph of at most 100 characters is its own title; a longer one is its first 100 characters + "..." |
| Skai.Stripped | SKAI.py:334 | Every kept paragraph is non-empty with no whitespace at either end |
| Skai.StrippedMembers | SKAI.py:334 | A paragraph is kept exactly when it is the strip of a non-blank piece |
| Skai.StrippedAppend | SKAI.py:334 | The filter keeps input order |
| Skai.ParagraphItem | SKAI.py:335-343 | The number's decimal digits denote the index; text and description are the paragraph; the title is its shortened form |
| Skai.ParseAgenda | SKAI.py:319-344 | With matches, one item per match in order; without, one item per non-blank paragraph, numbered from 1 |
| Skai.ParagraphItemsWellFormed | SKAI.py:333-343 | Fallback items have non-blank text and numbers "1", "2", … |
| Skai.NormalizeNewlines | SKAI.py:353 | No carriage return remains |
| Skai.NormalizeNewlinesMeaning | SKAI.py:353 | The two replacements turn each CR LF pair and each lone CR into one LF and keep every other character in order |
| Text.ReplaceIsScan | SKAI.py:353 | `str.replace`, defined by split and join, equals the left-to-right scan that writes the replacement at each leftmost non-overlapping occurrence and copies every other character |
| Skai.NormalizeKeepsPlainText | SKAI.py:353 | A text without carriage returns is unchanged |
| Skai.DropLeadingSpec | SKAI.py:369 | Removes exactly the leading run of the character |
| Skai.DropTrailingSpec | SKAI.py:369 | Removes exactly the trailing run of the character |
| Skai.StripCharSpec | SKAI.py:369 | `strip("`")` keeps a middle part of the text, removing only backticks at either end |
| Skai.CleanOutput | SKAI.py:367-370 | An output not both starting and ending with a fence is cut of its surrounding whitespace; a fenced one becomes what lies between its leading and trailing backtick runs, cut of its own surrounding whitespace |
| Skai.CleanUnfenced | SKAI.py:367-370 | An output not starting with a fence is only stripped |
| Skai.FirstNumberedLineSpec | SKAI.py:370 | The first position where a line starts with `\d+\.\s`, or none exists |
| Skai.PreprocessVerdictMeaning | SKAI.py:367-381 | An attempt is accepted exactly when it produced text whose first numbered line is numbered 1; then the result is the cleaned text. An exception or the lack of a numbered line rejects it with its own reason |
| Skai.PreprocessVerdict | SKAI.py:367-380 | One attempt's verdict; its contract is carried by `Skai.PreprocessVerdictMeaning`: accepted exactly when the cleaned output's first numbered line is numbered 1, with that output as the value |
| Skai.AcceptsListFromOne | SKAI.py:370-380 | A cleaned output starting "1. " is accepted as it is |
| Skai.Retry | SKAI.py:358-383 | At most three attempts; every attempt before the last failed; the result is the last attempt's verdict; a failure means all three were used |
| Skai.PreprocessAgenda | SKAI.py:346-383 | The prompt embeds the normalised text. Up to three attempts run, and the first accepted output is returned; otherwise the last rejection is raised after exactly three |
| Skai.QueryVerdictMeaning | SKAI.py:416-437 | An attempt is accepted exactly when it is a JSON object with three non-blank queries; they are returned stripped. A non-object is "not JSON", an object lacking a query is "missing keys", and a raised exception is passed on with its message |
| Skai.QueryVerdict | SKAI.py:416-437 | One query attempt's verdict; its contract is carried by `Skai.QueryVerdictMeaning`: accepted exactly when the object has three non-blank values, returned stripped |
| Skai.GenerateQueries | SKAI.py:385-447 | Up to three attempts; the first accepted query triple is returned, otherwise the last rejection after exactly three |
| Skai.CaptureAtSpec | SKAI.py:566 | A capture at i needs "Решение:" there, case-folded, and the captured text occurs after it and folds to ЗА or ПРОТИВ |
| Skai.SearchCaptureSpec | SKAI.py:566 | The search returns the leftmost capture, or none when no position has one |
| Skai.DecisionFromAnswer | SKAI.py:565-567 | ВОЗДЕРЖАЛСЯ exactly when no decision is found; otherwise the decision occurs in the answer as written and folds to ЗА or ПРОТИВ |
| Skai.ExtractDecision | SKAI.py:565-600 | The decision of `_synthesize_decision`; its contract is carried by `Skai.DecisionFromAnswer` and `Skai.FailureAbstains`: the captured ЗА/ПРОТИВ text, or ВОЗДЕРЖАЛСЯ when nothing is captured or the call failed |
| Skai.FailureAbstains | SKAI.py:593-595 | A failed decision call abstains |
| Skai.Count | SKAI.py:604-607 | A decision's count never exceeds the number of results |
| Skai.CountsBounded | SKAI.py:605-607 | The three counts add up to at most the number of results |
| Skai.CountsPartition | SKAI.py:605-607 | When every decision is exactly one of the three labels, the counts add up to the number of results |
| Skai.HighRiskNumbers | SKAI.py:616-621 | At most one number per result |
| Skai.HighRiskMembers | SKAI.py:616-621 | A number is listed exactly when some result carrying it mentions a high or critical risk |
| Skai.HighRiskAppend | SKAI.py:616-621 | The high-risk list keeps input order |
| Skai.ApprovalRate | SKAI.py:615 | Between 0 and 1; 0 with no results; rate × total = approvals; 1 exactly when every result approves |
| Skai.GenerateSummary | SKAI.py:602-622 | The total, the three counts, the approval rate and the high-risk items, with the counts bounded by the total |
| Skai.ReportHeader | SKAI.py:625-643 | 17 header lines |
| Skai.ResultLines | SKAI.py:645-663 | 15 lines per result |
| Skai.ReadableReport | SKAI.py:624-665 | 17 + 15·n lines: the header, then each result's block in input order, joined with line breaks |

## Left out

- Remote services: the OpenAI `responses.create` calls and the Perplexity search are oracles. Their outcomes are inputs, and the system prompt texts are not reproduced.
- File decoding is not modelled:
  - the mammoth DOCX extraction and `FileReader` on the director page;
  - the `Buffer` UTF-8 decoding in the endpoint.

  The decoded text is an input.
- Browser `localStorage` is a `map<string, string>` field. `JSON.parse`/`JSON.stringify` are function parameters; a parse failure is `None`.
- Timers and delays fire at once. So the "Перейти к результатам" button shown on the `summary` step (page.tsx:480-482) can never be pressed mid-run, and it is not modelled.
- Audio playback, visibility handlers, scrolling, React rendering and styling are not modelled; only the played flags are.
- The auth guard, navigation, layout, home page, the thin `/api/vnd` and `/api/np` pass-through routes, the network smoke script and the mock texts are not part of this model.
- `pipe`'s generator and streaming and its orchestration of the agents are not modelled; only the context assembly and the yielded "Context received" events are.
- `_extract_global_context` and the web-search query builders are not modelled.
- `_parse_agenda`'s multi-line regex search is an input. Its matches arrive as `NumberedMatch` values; the model covers what is built from them and the paragraph fallback.
- The JSON recovery regex `\{[\s\S]*\}` and `json.loads` are left out. A query attempt arrives already classified as an object with its three values, a non-object, or an exception; non-string JSON values are not modelled.
- The reasoning, risks and recommendations extraction in `_synthesize_decision` is left out; only the decision is modelled.
- The approval percentage's `:.1%` formatting is not modelled: it is a parameter of the report header. The rate itself is an exact fraction, not a float.
- Case mapping covers ASCII and Cyrillic U+0400–U+045F only. Other scripts' case changes are absent, including the few non-Cyrillic capitals that JavaScript lowers into a-z (for example the Kelvin sign). Python's `\d` and `\s` are taken over ASCII digits and the `str.isspace` set.
- Skai.PreprocessAgenda, Skai.GenerateQueries: the `for _ in range(3)` loops are modelled through the shared `Skai.Retry` loop over a verdict function. The per-attempt work is the verdict functions `Skai.PreprocessVerdict` and `Skai.QueryVerdict`, with no method of its own.
- Skai.ReadableReport: the approval text is a parameter. A result without `risks` is excluded by the precondition, since the source raises `KeyError` there.
- ChatPage.Chat.Send: the clock is read once. The source calls `Date.now()` separately for the user and bot ids, so the bot id is the reading plus one only when both calls see the same millisecond.
- DirectorPage.Page.Analyze: a throw can come only from one of the four delays, and the timestamp is a text.
- AnalyzeRoute.Post: a body that does not parse is answered like any other non-APIError throw.
- AnalyzeRoute.ReadRequest: JSON field values are strings or absent. A truthy non-string `documentContent` (a number, say) makes the source's `.trim()` throw, and the route answers 500; the model has no such values.
- StageRoutes.StagePost: the same holds for the single-stage routes: a truthy non-string `documentContent` makes `.trim()` throw (src/app/api/analyze/vnd/route.ts:14, src/app/api/analyze/np/route.ts:14) and the route answers 500; the model has no such values.
