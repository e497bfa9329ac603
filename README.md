# Kiwi document checks, validation graphs, retrieval and frontend bundling in Dafny

This project models the core of Kiwi's insurance-claim backend in Dafny and proves
properties of that model. The backend is a Python service. The model covers six parts:

- **Rule-based document verification** (`backend/app/services/document_verification.py`).
  A file is uploaded with a requested document type. It is inspected (PDF magic, image
  signatures, MIME type), its text is extracted (native PDF text, Tesseract or the Gemini OCR
  reply, all given as inputs), and the text is classified by keyword hits. Fields are pulled
  out by scanners that behave like the source's regular expressions (IBAN, BIC, dates,
  amounts, labelled values). A structured extractor may fill holes. Four validators raise
  issues, and `_decide` turns the issues into a status. The confidence score clamps to
  0..98. An analysis report and an issue summary are rendered.
  Modules: `DocModel`, `Inspect`, `Classifier`, `Fields`, `Iban`, `Dates`, `Augment`,
  `Validate`, `Decision`, `Report`, `Pipeline`.
- **The two agent validation graphs** (`backend/app/verification/graph.py`,
  `backend/app/agents/graph.py`).
  - Three agent nodes (parser, validator, coherence checker) append to a shared state.
  - A decision node walks the severity/completeness/coherence ladder.
  - The decision text is mapped to an overall status by substring tests.
  - Issue dictionaries are converted to `ValidationIssue` records.
  - The state is the class `Workflow.GraphState`. Agent replies and failures are parameters.
  - Modules: `Workflow`, `VerificationGraph`, `AgentsGraph`.
- **OCR routing** (`backend/app/services/ocr_service.py`), module `Ocr`.
  - Extension-to-MIME tables and the routing by suffix.
  - The OCR prompt.
  - The "no text" sentinel for blank replies.
  - Page-count estimation and the keyword document-type detector.
- **Retrieval-augmented answering** (`backend/app/services/rag_service.py`), module `Rag`.
  - Keyword scoring of the built-in knowledge base, with a stable descending sort and top-k selection.
  - Formatting of search chunks with de-duplicated source references.
  - Context combination and the "hallucination gate".
  - Vocabulary lookup.
- **Frontend concatenation** (`scripts/concat_frontend.py`), module `ConcatFrontend`.
  - The exclusion rules and the pruned directory walk.
  - The case-insensitive stable sort by path.
  - Writing the bundle through an `OutFile` object whose text the methods append to.
- Shared support:
  - `Text`: ASCII/Latin-1 case mapping, Python whitespace, strip, split and join, substring search.
  - `Ordering`: lexicographic order, an insertion-based stable sort, sorted sets and `Take`.
  - `Json`: the value type the agents exchange.
  - `Wrappers`: `Option` and `Result`.

Loops in the source are methods with loop invariants, proved equal to a specification
function. Properties of the whole behaviour are proved as lemmas about those functions.

## Model

| member | source | states |
|---|---|---|
| DocModel.NormFromName | backend/app/services/document_verification.py:76-86 | Reading a label back gives the normalized type whose label it is, and fails exactly for strings that are no type's label |
| DocModel.NormNameRoundTrip | backend/app/services/document_verification.py:76-86 | Every normalized type reads back from its own label |
| DocModel.ProfileTableShape | backend/app/services/document_verification.py:98-130 | In the profile table, only evidence of damage must be an image; evidence and unrelated allow empty text, are not indexed and require no fields |
| DocModel.NormalizeDocumentTypeCorrect | backend/app/services/document_verification.py:694-713 | Non-legacy enum values map to the type with the same label; the legacy identity, invoice, police-report and photo values map to their modern types |
| DocModel.NormalizeDocumentTypeOnto | backend/app/services/document_verification.py:694-713 | Every normalized type is reached from some non-legacy enum value |
| DocModel.HasMarkerIsContains | backend/app/services/document_verification.py:64-67 | The scanning marker test agrees with plain substring containment of "no text content extracted" |
| DocModel.SentinelInsideIsEmpty | backend/app/services/document_verification.py:64-67 | Any text containing the OCR sentinel counts as empty, wherever the sentinel sits and whatever surrounds it |
| DocModel.BlankTextIsEmpty | backend/app/services/document_verification.py:64-67 | A text made only of whitespace counts as empty |
| Inspect.LooksLikeImage | backend/app/services/document_verification.py:678-692 | True exactly when the bytes start with one of the image signatures, or carry RIFF and WEBP at offsets 0 and 8; empty content is never an image |
| Inspect.InspectFile | backend/app/services/document_verification.py:664-676 | PDF iff the MIME mentions pdf or the bytes start with %PDF; image iff the MIME contains image/ or the bytes look like an image |
| Inspect.PdfAndImageAtOnce | backend/app/services/document_verification.py:664-676 | The two flags are independent: %PDF bytes labelled image/png are both PDF and image |
| Inspect.NonBlank | backend/app/services/document_verification.py:742-751 | Keeps every non-blank page text and nothing else, each taken from the input pages |
| Inspect.NonBlankAppend | backend/app/services/document_verification.py:742-751 | The filter distributes over concatenation, so kept pages stay in reading order and repeated pages are kept each time |
| Inspect.OcrFilename | backend/app/services/document_verification.py:753-775 | A PDF that is not an image and lacks .pdf gets .pdf appended; an image that is not a PDF and has an image extension keeps its name |
| Inspect.OcrFilenameCases | backend/app/services/document_verification.py:753-775 | All four cases: .pdf then .png for a PDF-and-image lacking .pdf, .png for an image lacking an image extension, the name unchanged otherwise; an image always leaves with an image extension and a PDF that is not an image with .pdf |
| Inspect.GeminiOcrText | backend/app/services/document_verification.py:753-775 | The OCR text handed on is never blank, whatever the reply |
| Inspect.BmpAndTiffEndAsSentinel | backend/app/services/document_verification.py:753-775 | BMP and TIFF images are refused by the OCR router, so their text ends as the sentinel |
| Inspect.ExtractText | backend/app/services/document_verification.py:715-740 | The character count is the text length, except that the no-method result is the sentinel with count 0; the text is never blank; the empty flag is the empty-text test |
| Inspect.ExtractionRoute | backend/app/services/document_verification.py:715-740 | PDFs never go to Tesseract; native PDF text is used only when its stripped length is at least 80; Tesseract only for non-PDF images |
| Classifier.KeywordCount | backend/app/services/document_verification.py:240-269 | The count is at most the number of keywords, and zero exactly when no keyword occurs in the text |
| Classifier.MaxCount | backend/app/services/document_verification.py:240-269 | Bounds every hit count and is attained by some hit (0 when there are none) |
| Classifier.FirstMaxIndex | backend/app/services/document_verification.py:240-269 | The winner is the earliest category whose count is maximal |
| Classifier.DetectTypeRuleBased | backend/app/services/document_verification.py:240-269 | No hits gives unrelated at 0.35; otherwise the first maximal category wins with the best/second-best confidence; hits are those of the lowered text |
| Classifier.HitPresent | backend/app/services/document_verification.py:240-269 | Every category with a keyword in the text appears in the hit list |
| Classifier.HitsOrdered | backend/app/services/document_verification.py:240-269 | Hits keep the order of the keyword table |
| Classifier.WinnerIsFirstMaximal | backend/app/services/document_verification.py:240-269 | No category beats the winner, and every category before it has strictly fewer hits |
| Classifier.NoHitsIffNoKeyword | backend/app/services/document_verification.py:240-269 | The hit list is empty exactly when no keyword of any category occurs |
| Classifier.DetectionBounds | backend/app/services/document_verification.py:240-269 | With any hit the detected type is never unrelated and the confidence lies in [0.65, 0.95] |
| Classifier.ConfidenceRange | backend/app/services/document_verification.py:240-269 | The confidence formula stays in [0.65, 0.95] whenever the best count is positive and the runner-up is no larger |
| Iban.IbanIsValid | backend/app/services/document_verification.py:329-350 | The loop's remainder-by-97 result equals the mod-97 check on the whole rearranged digit string |
| Iban.Rearranged | backend/app/services/document_verification.py:329-350 | The first four characters move to the end and nothing else changes |
| Iban.DigitSubstitutionDetected | backend/app/services/document_verification.py:329-350 | Replacing any one digit of a valid IBAN by a different digit makes it invalid |
| Iban.ExampleIsValid | backend/app/services/document_verification.py:329-350 | The French example IBAN FR1420041010050500013M02606 is upper-case alphanumeric and passes the check |
| Iban.ExampleTyposRejected | backend/app/services/document_verification.py:329-350 | Every one-digit typo of the example IBAN is rejected |
| Dates.ParseDateLoose | backend/app/services/document_verification.py:302-327 | Any parsed date is a real calendar date (month range, month length, leap years) |
| Dates.ParseFrom | backend/app/services/document_verification.py:302-327 | Succeeds exactly when some remaining format parses the text |
| Dates.IsoFormat | backend/app/services/document_verification.py:302-327 | The rendering is ten characters, digits with dashes at positions 4 and 7 |
| Dates.ParseIsoFormat | backend/app/services/document_verification.py:302-327 | Parsing the ISO rendering of a valid date gives that date back |
| Dates.IsoFormatInjective | backend/app/services/document_verification.py:302-327 | Different valid dates render differently |
| Dates.DayFirstFailsOnIso | backend/app/services/document_verification.py:302-327 | Day-first formats never read an ISO-shaped string, so the year-first format decides |
| Fields.Leftmost | backend/app/services/document_verification.py:352-408 | Returns the first position where the matcher succeeds; none before it does |
| Fields.IbanAtCorrect | backend/app/services/document_verification.py:357-363 | The IBAN scanner accepts a span exactly when it is a whole word of IBAN shape |
| Fields.IbanFound | backend/app/services/document_verification.py:357-363 | Whatever is found is IBAN-shaped |
| Fields.BicAtCorrect | backend/app/services/document_verification.py:366-371 | The BIC scanner accepts a span exactly when it is a whole word of BIC shape |
| Fields.DateAtSound | backend/app/services/document_verification.py:374-380 | A date candidate is a whole word of day/month/year shape |
| Fields.DateAtComplete | backend/app/services/document_verification.py:374-380 | Every whole-word date-shaped span is found at its start |
| Fields.DatesFoundSorted | backend/app/services/document_verification.py:374-380 | The stored dates are strictly increasing, without duplicates, exactly the parsed candidates, each an ISO rendering of a valid date |
| Fields.KeptAmounts | backend/app/services/document_verification.py:383-391 | Keeps every amount match of at least three characters and nothing else |
| Fields.KeptAmountsAppend | backend/app/services/document_verification.py:383-391 | The filter distributes over concatenation, so kept matches stay in match order and a repeated match is kept each time |
| Fields.FirstTen | backend/app/services/document_verification.py:374-391 | A prefix of at most ten items, exactly ten when there are that many |
| Fields.LabelValueFirstAcceptable | backend/app/services/document_verification.py:394-406 | The value of a labelled field comes from the first pattern whose candidate is acceptable; none means no pattern qualifies |
| Fields.LabelValueShape | backend/app/services/document_verification.py:394-406 | A labelled value is acceptable and single-spaced |
| Fields.ExtractFieldsRegex | backend/app/services/document_verification.py:352-408 | The scalar fields are as scanned; each labelled field is present exactly when its patterns yield a value, and then holds that value |
| Fields.StoreScalars | backend/app/services/document_verification.py:357-391 | bank_account, bank_bic, dates_found and amounts_found are stored exactly when something was found |
| Fields.AddLabelFields | backend/app/services/document_verification.py:394-406 | Adds exactly the table's fields that yield a value and leaves every other key untouched |
| Augment.JsonSnipFindsObject | backend/app/services/document_verification.py:411-427 | Between the first '{' and the last '}' the whole object is decoded, whatever text surrounds it |
| Augment.JsonSnipBracesReversed | backend/app/services/document_verification.py:411-427 | When no '}' follows a '{' there is nothing to decode |
| Augment.Payload | backend/app/services/document_verification.py:562-600 | Disabled, empty text or a failed extractor call all give an empty payload |
| Augment.MergedCorrect | backend/app/services/document_verification.py:587-600 | Merging keeps every field, never overwrites a filled one, and only fills holes with non-null extractor values |
| Augment.MergeIdempotent | backend/app/services/document_verification.py:587-600 | Merging the same extractor output twice changes nothing more |
| Augment.RegexFieldsSurvive | backend/app/services/document_verification.py:587-600 | Truthy scanned fields are never replaced |
| Augment.TypeOverrideBounds | backend/app/services/document_verification.py:603-615 | The extractor changes the type only below 0.65 confidence, never lowers it and caps it at 0.95 |
| Augment.OverrideOnlyWithoutHits | backend/app/services/document_verification.py:603-615 | When the keywords found any category, the extractor cannot override it |
| Augment.Augment | backend/app/services/document_verification.py:587-615 | A dict payload is merged into the fields, and the type and confidence follow the override rule |
| Validate.ValidateFormat | backend/app/services/document_verification.py:781-808 | A not-an-image issue exactly when the profile needs an image and the file is none; an unreadable issue exactly when the text is empty and the profile forbids that |
| Validate.ValidateType | backend/app/services/document_verification.py:810-836 | At most one issue: unrelated content, or a type mismatch between detected and selected |
| Validate.MissingFields | backend/app/services/document_verification.py:838-856 | Exactly the required fields that are absent, null or blank |
| Validate.ValidateRequiredFields | backend/app/services/document_verification.py:838-856 | One missing-field issue per missing required field, in profile order |
| Validate.RequiredIssuesShape | backend/app/services/document_verification.py:838-856 | A filled field is never reported missing |
| Validate.ValidateSemantics | backend/app/services/document_verification.py:858-912 | Fails exactly when a date field is truthy and not a string; otherwise raises the IBAN, birth-date and expiry issues in that order |
| Validate.BirthIssuesExclusive | backend/app/services/document_verification.py:877-898 | At most one birth-date issue: a future date, or one more than 120 years back |
| Validate.ExpiryOnlyForIdentity | backend/app/services/document_verification.py:900-910 | An expiry issue is raised exactly for an identity document that expired before today |
| Validate.IbanCheckScope | backend/app/services/document_verification.py:861-874 | Only bank-details documents can get an invalid-IBAN issue, and a valid IBAN never does |
| Decision.DecideOutcomes | backend/app/services/document_verification.py:918-949 | Compliant exactly when there is no critical or high issue; rejected exactly when there is a critical one |
| Decision.EvidenceException | backend/app/services/document_verification.py:918-949 | With only medium issues, evidence of damage is still verified; every other type is only partially compliant |
| Decision.Clamp | backend/app/services/document_verification.py:993-994 | The result lies in 0..98 and leaves values already in range unchanged |
| Decision.RoundHalfEven | backend/app/services/document_verification.py:993-994 | Rounds to the nearest integer; a value exactly halfway goes to the even neighbour |
| Decision.ScoreConfidence | backend/app/services/document_verification.py:951-994 | Computes the specified score, which lies in 0..98 |
| Decision.MoreIssuesNeverRaise | backend/app/services/document_verification.py:981-990 | Adding an issue never raises the confidence score |
| Decision.CompletenessFromMissing | backend/app/services/document_verification.py:967-976 | Completeness is one minus the share of missing-field issues the required-field validator raises |
| Report.IssueSummary | backend/app/services/document_verification.py:1000-1006 | No summary exactly when there are no issues |
| Report.SummaryAppend | backend/app/services/document_verification.py:1000-1006 | Below the limit, one more issue appends "; " and its part |
| Report.SummaryIgnoresTail | backend/app/services/document_verification.py:1000-1006 | Issues beyond the limit do not change the summary |
| Report.PreviewsEmptyIff | backend/app/services/document_verification.py:1026-1041 | There are no previews exactly when no listed field is truthy |
| Report.TopHitsAreLargest | backend/app/services/document_verification.py:1043-1045 | At most four hits, drawn from all hits, in descending count, and every hit left out is no larger |
| Report.IssueSectionShape | backend/app/services/document_verification.py:1047-1053 | One heading line plus at most ten issue lines, or "none" when there are no issues |
| Report.ReportLayout | backend/app/services/document_verification.py:1008-1055 | The report starts with the document heading; its length counts four header lines, at most one preview line, a hits line exactly when there are hits, and the issue section, whose last line is "none" or the last shown issue |
| Report.ReportIgnoresTail | backend/app/services/document_verification.py:1047-1053 | Issues after the tenth do not change the report |
| Report.AnalysisReport | backend/app/services/document_verification.py:1008-1055 | Builds the specified report by joining the section lines with newlines |
| Pipeline.DocIdText | backend/app/services/document_verification.py:570 | The document id is the given non-empty id, and "unknown" when the id is missing or falsy |
| Pipeline.VerifyDocument | backend/app/services/document_verification.py:562-658 | Indexed exactly when the profile allows it and the document is compliant; the score lies in 0..98; verified implies compliant and rejected implies not; a rejection needs a related type and readable text; an image-only profile fails without an image; an empty upload fails when the profile needs text; no issues means verified |
| Pipeline.EmptyUploadIsEmpty | backend/app/services/document_verification.py:715-740 | An empty upload always yields empty text |
| Pipeline.Judge | backend/app/services/document_verification.py:625-649 | Rejected exactly when a critical issue exists; compliant exactly when there is no critical or high issue; no issues means verified with no summary; the score lies in 0..98 |
| Pipeline.RunValidators | backend/app/services/document_verification.py:618-622 | Fails exactly when a date field is truthy and not a string; otherwise concatenates the four validators' issues |
| Pipeline.MissingReported | backend/app/services/document_verification.py:618-622 | Every missing required field is reported among the collected issues |
| Pipeline.CriticalFromType | backend/app/services/document_verification.py:618-625 | Only the type validator can produce a critical issue, so rejection comes from it alone |
| Workflow.PairOf | backend/app/verification/graph.py:76-77 | An entry counts as a key/value pair only as a two-element list with a string key or a two-character string |
| Workflow.StorePairsSources | backend/app/verification/graph.py:76-77 | Every key the update adds comes from a pair, and for a list of pairs the last pair is stored |
| Workflow.GraphState.UpdateFromPairs | backend/app/verification/graph.py:76-77 | Stores the pairs in order up to the first entry that is not a pair, and reports success exactly when every entry is a pair |
| Workflow.ParserNodeEffect | backend/app/verification/graph.py:53-88 | The parser node appends only its own issues and leaves the review flag as it was |
| Workflow.NodesAppendInOrder | backend/app/verification/graph.py:53-146 | After the three nodes, the issues are the parser's, then the validator's, then the coherence checker's |
| Workflow.FindingsReadBack | backend/app/verification/graph.py:53-146 | The decision node reads back exactly the findings each agent stored |
| Workflow.RejectedTypeWins | backend/app/verification/graph.py:148-163 | A parser that rejects the document type gives REJECTED, whatever the issues |
| Workflow.ValidVerdictClean | backend/app/verification/graph.py:148-202 | A verdict mapped to valid implies an accepted document type, issues that are all dicts, and no critical or high issue |
| Workflow.LadderOrder | backend/app/verification/graph.py:184-202 | The ladder tests critical, then high, then completeness below 0.7, then coherence below 0.7, then medium |
| Workflow.MissingFindingsPass | backend/app/verification/graph.py:148-202 | With no agent findings, clean issues lead to "passed all checks" |
| Workflow.StatusNameInjective | backend/app/verification/graph.py:243-253 | Distinct overall statuses have distinct names |
| Workflow.VerdictStatus | backend/app/verification/graph.py:243-253 | Each decision text maps to its intended status under the substring tests |
| Workflow.ErrorStatus | backend/app/verification/graph.py:234-253 | The error and empty decisions map to needs-review when the flag is set, otherwise invalid |
| Workflow.ConvertIssuesAppend | backend/app/verification/graph.py:255-267 | Converting a concatenation converts each part |
| Workflow.ConvertIssuesKeepsDicts | backend/app/verification/graph.py:255-267 | Every dict entry becomes one issue and nothing else does |
| Workflow.ConvertAll | backend/app/verification/graph.py:255-267 | The loop keeps exactly the converted dict entries, in order |
| Workflow.ResultValidIff | backend/app/verification/graph.py:269-278 | The result is valid exactly when the overall status is valid; the summary is the decision |
| Workflow.DecidedResult | backend/app/verification/graph.py:148-278 | A reached verdict produces the status the verdict maps to |
| Workflow.FailedResult | backend/app/verification/graph.py:234-278 | A failure yields an invalid or needs-review result, never a valid one |
| Workflow.Conclude | backend/app/verification/graph.py:241-278 | Builds the result of the current state |
| Workflow.GraphState.constructor | backend/app/verification/graph.py:204-232 | Starts from the initial state of the document |
| Workflow.GraphState.RunParser | backend/app/verification/graph.py:53-88 | Updates the state as the parser step specifies |
| Workflow.GraphState.RunValidator | backend/app/verification/graph.py:90-114 | Updates the state as the validator step specifies |
| Workflow.GraphState.RunCoherenceChecker | backend/app/verification/graph.py:116-146 | Updates the state as the coherence step specifies |
| Workflow.GraphState.RunNodes | backend/app/verification/graph.py:204-232 | Runs the three nodes in graph order |
| Workflow.GraphState.Fail | backend/app/verification/graph.py:234-239 | Records the error and the error decision on the same state object |
| Workflow.GraphState.MakeDecision | backend/app/verification/graph.py:148-202 | Applies the decision step and reports a failure raised by malformed findings |
| Workflow.DecideOutcome | backend/app/verification/graph.py:148-202 | The scan-based decision equals the specified ladder |
| Workflow.ScanSeverities | backend/app/verification/graph.py:165-173 | Reports whether all issues are dicts and, if so, which severities occur |
| VerificationGraph.ValidateDocument | backend/app/verification/graph.py:204-278 | Returns the result of the final state reached by the nodes and the decision, or of the failed state |
| VerificationGraph.FinalIssues | backend/app/verification/graph.py:204-278 | The result's issues are the converted issues of the agents in node order |
| VerificationGraph.RejectedTypeResult | backend/app/verification/graph.py:148-163 | A rejected document type always gives an invalid result |
| VerificationGraph.RaisedDecisionResult | backend/app/verification/graph.py:234-253 | A failing decision gives the error summary, keeps the nodes' issues, and is needs-review exactly when the coherence checker asked for human review, because that flag stays on the same state object |
| VerificationGraph.ValidResultIsClean | backend/app/verification/graph.py:148-278 | A valid result implies an accepted document type, issues that are all dicts, and no critical or high issue |
| AgentsGraph.ValidateDocument | backend/app/agents/graph.py:201-268 | Returns the result of the final state; when the run raises, of the initial state holding the nested data the nodes filled, with the error; the issues are always the agents' issues in node order |
| AgentsGraph.ShareNested | backend/app/agents/graph.py:228-233 | The initial state takes on the nested data, issues and agent outputs of the run and keeps its own top-level entries |
| AgentsGraph.FinalIssues | backend/app/agents/graph.py:83-233 | The final state holds the parser's, validator's and coherence checker's issues in that order, whether or not the decision raised |
| AgentsGraph.RejectedTypeResult | backend/app/agents/graph.py:152-199 | A rejected document type always gives an invalid result |
| AgentsGraph.RaisedRunResult | backend/app/agents/graph.py:201-245 | A raising decision gives the error summary and an invalid result even when the coherence checker asked for review, while the agents' issues, extracted data and reports survive |
| AgentsGraph.ValidResultIsClean | backend/app/agents/graph.py:152-257 | A valid result implies an accepted document type, issues that are all dicts, and no critical or high issue |
| Ocr.DetectDocumentType | backend/app/services/ocr_service.py:301-353 | Never returns a legacy type |
| Ocr.DetectFromFirstMatch | backend/app/services/ocr_service.py:301-353 | The first rule with a matching keyword decides; unrelated when none matches |
| Ocr.DetectDocumentTypeCorrect | backend/app/services/ocr_service.py:301-353 | A rule's type is returned exactly when one of its keywords occurs and no earlier rule's does |
| Ocr.RuleTypesDistinct | backend/app/services/ocr_service.py:301-353 | The rules name distinct types, none of them unrelated |
| Ocr.Suffix | backend/app/services/ocr_service.py:107-121 | A suffix starts with a dot and has at least one more character |
| Ocr.TrailingSeparatorIgnored | backend/app/services/ocr_service.py:108 | A trailing "/" or "/." changes neither the name nor the suffix, as pathlib drops empty and "." components |
| Ocr.RouteFor | backend/app/services/ocr_service.py:107-121 | Routed exactly when the lowered suffix is in one of the tables, to the document path exactly for document suffixes, keeping a given MIME type |
| Ocr.UnsupportedSuffix | backend/app/services/ocr_service.py:23-35 | .bmp and .tiff files are refused |
| Ocr.ExtendedNameRoutes | backend/app/services/ocr_service.py:107-121 | A name with text after its last "/", extended with .pdf or .png, is routed, to the document path exactly for .pdf |
| Ocr.BuildPrompt | backend/app/services/ocr_service.py:255-268 | The prompt carries the table or reading-order line as requested and always ends with the sentinel instruction |
| Ocr.RawText | backend/app/services/ocr_service.py:231-233 | The raw text is never blank; it is the sentinel or the stripped reply, and the stripped reply whenever that is non-blank |
| Ocr.EffectiveMime | backend/app/services/ocr_service.py:212 | Never empty, and a given MIME type is kept |
| Ocr.PageCountByExtension | backend/app/services/ocr_service.py:287-299 | With the MIME type left to the tables, a .pdf upload reports the reader's page count and every image extension reports one page |
| Ocr.ProcessDocumentBytes | backend/app/services/ocr_service.py:95-253 | Fails for unrouted files and failed replies; otherwise the raw text comes from the reply and the MIME type from the route |
| Rag.KeywordHitsAppend | backend/app/services/rag_service.py:269-273 | Keyword hits over concatenated queries add up |
| Rag.RepeatedWordsCountAgain | backend/app/services/rag_service.py:269-273 | A repeated query word counts each time, like the source's loop over query words |
| Rag.ScoreBounds | backend/app/services/rag_service.py:262-273 | A topic match scores at least 10; without one, the score is at most the number of query words |
| Rag.ScoreArticle | backend/app/services/rag_service.py:262-273 | Computes the specified score |
| Rag.RelevantSpec | backend/app/services/rag_service.py:262-276 | Exactly the articles with positive score are kept, paired with their score, in knowledge-base order |
| Rag.CollectRelevant | backend/app/services/rag_service.py:262-276 | The loop builds exactly that list |
| Rag.RetrieveFromKnowledgeBase | backend/app/services/rag_service.py:247-290 | Returns the specified context and sources, with one source per selected article and at most top-k of them |
| Rag.FallbackIsHead | backend/app/services/rag_service.py:281-283 | With no relevant article, the first top-k articles of the base are used |
| Rag.RankedSelection | backend/app/services/rag_service.py:278-286 | The selection has at most top-k relevant articles in descending score; every article left out scores no higher; ties keep base order |
| Rag.ChunkPartsComplete | backend/app/services/rag_service.py:228-235 | Every chunk with content contributes its numbered part |
| Rag.ChunkPartsSound | backend/app/services/rag_service.py:228-235 | Every part comes from a chunk with content, numbered by its position |
| Rag.SourceRefsDistinct | backend/app/services/rag_service.py:237-238 | Source references are never repeated |
| Rag.SourceRefsComplete | backend/app/services/rag_service.py:230-238 | Every chunk with content has its reference listed |
| Rag.SourceRefsSound | backend/app/services/rag_service.py:230-238 | Every listed reference belongs to a chunk with content |
| Rag.FormatChunks | backend/app/services/rag_service.py:221-241 | The loop yields the joined parts and the distinct references |
| Rag.CombineContextsShape | backend/app/services/rag_service.py:292-306 | The placeholder appears exactly when both contexts are empty; the document section comes first |
| Rag.SufficientIffLong | backend/app/services/rag_service.py:308-319 | Sufficient exactly when either stripped context is longer than 50 characters |
| Rag.GenerateResponse | backend/app/services/rag_service.py:137-178 | Without sufficient context the fixed refusal with no sources; otherwise the generated answer with document and knowledge sources |
| Rag.TermLookupIgnoresCase | backend/app/services/rag_service.py:377-380 | Terms that lower-case alike get the same answer |
| Rag.StoredTermsFound | backend/app/services/rag_service.py:99-112 | Every stored lower-case term is found |
| Rag.MixedCaseKeysUnreachable | backend/app/services/rag_service.py:377-380 | A vocabulary key with an upper-case letter is never reached by any term |
| ConcatFrontend.OnlyNameMatters | scripts/concat_frontend.py:21-27 | Exclusion depends on the file name only, not on its directories |
| ConcatFrontend.NonConfigNames | scripts/concat_frontend.py:21-27 | A name without "config" is excluded exactly when it is a listed name |
| ConcatFrontend.ConfigRuleIgnoresCase | scripts/concat_frontend.py:25 | Names equal up to case are excluded alike by the config rule |
| ConcatFrontend.TsxKept | scripts/concat_frontend.py:18-27 | A .tsx file is never excluded by the config rule, even when its name mentions config |
| ConcatFrontend.WalkSound | scripts/concat_frontend.py:30-37 | Every yielded path exists in the tree, is not excluded and passes through no excluded directory |
| ConcatFrontend.WalkComplete | scripts/concat_frontend.py:30-37 | Every such path is yielded |
| ConcatFrontend.OutputNotReread | scripts/concat_frontend.py:11-17 | The bundle's own file is never read back into it |
| ConcatFrontend.IterFiles | scripts/concat_frontend.py:30-37 | The recursive walk yields exactly the specified files |
| ConcatFrontend.SortedFilesCorrect | scripts/concat_frontend.py:44 | The sorted list is a permutation ordered by lowered path, and equal keys keep walk order |
| ConcatFrontend.OutputHasSections | scripts/concat_frontend.py:48-55 | Every sorted file's header and content appear in the bundle |
| ConcatFrontend.OutputSplit | scripts/concat_frontend.py:48-55 | The bundle is the earlier files, this file's section, then the later files |
| ConcatFrontend.OutFile.Append | scripts/concat_frontend.py:47-55 | Appends to the file's text |
| ConcatFrontend.Concatenate | scripts/concat_frontend.py:40-57 | A missing folder is an error that writes nothing; otherwise the file holds exactly the bundle of the sorted walk and the result is 0 |
| Ordering.StableSortCorrect | scripts/concat_frontend.py:44 | The sort is ordered, a permutation, and keeps the input order among equal keys |
| Ordering.TopEntries | backend/app/services/rag_service.py:278-286 | The first entries of a stable descending sort are the largest ones, in descending order |
| Text.NormalizeSpacesIdempotent | backend/app/services/document_verification.py:298-300 | Normalizing spaces twice is the same as once |
| Text.NormalizeSpacesKeepsText | backend/app/services/document_verification.py:298-300 | Normalizing keeps every non-space character, in order |
| Text.StripEmptyIffBlank | backend/app/services/document_verification.py:64-67 | Stripping gives the empty string exactly for blank text |

## Left out

- Calls to Gemini, Vertex AI, Vertex AI Search, PyPDF2, PIL and Tesseract are not modelled. Their replies are parameters: the OCR reply, native PDF page texts, Tesseract output, the structured extractor's reply, the agents' responses, the search chunks and the answer generator.
- The clock is not modelled. Today's date is a parameter, and processing times are not modelled.
- `json.loads` is a parameter `decode`. `float(...)` parsing of the extractor's confidence is a parameter `parseFloat`. Stored confidences and scores are exact reals, so binary floating-point rounding is not modelled.
- Text rendering in the source's own formats is given as parameters: `:.2f` formatting of confidences and `str()` of field values.
- The amount regular expression is not modelled. Its matches are an input token list, and only the filtering, conversion and truncation to ten are modelled.
- The IBAN, BIC, date and label expressions are modelled as deterministic scanners that follow them over the model's character classes, not as a regular-expression engine.
- Text.IsDigit, Text.IsWordChar and Fields.IsCodeChar: Python's `str` patterns give `\d`, `\w` and `\b` their Unicode meaning, and `re.IGNORECASE` also folds letters such as İ, ı, ſ and the Kelvin sign. The model's digits are ASCII only and its word characters Latin-1 only, so the scanners can differ from the source on text outside Latin-1 (an Arabic-Indic digit inside an IBAN, a Greek letter right before one).
- `strptime` is modelled only for the formats the source uses.
- Case mapping covers ASCII and Latin-1 only. Python's special cases such as `ß` expanding to `SS` are not modelled.
- Exception messages raised by library code are not reproduced. A failure carries an error string.
- Logging is not modelled.
- Ocr.PageCountByExtension: does not state the page count of .docx and .pptx uploads, which the source leaves as none; their MIME strings make the proof costly.
- `Inspect.GeminiOcrText`: the page count given to the OCR router comes in as a parameter; PyPDF2's page reader is not modelled.
- AgentsGraph.ValidateDocument: LangGraph hands the nodes a new top-level dictionary whose nested dictionaries and issue list are the objects of `initial_state`. The model copies the nested contents back into the initial state when the handler runs (ShareNested) instead of sharing objects; nothing else touches them in between, so the final state is the same.
- Workflow.ParserFindingsStep: `dict.update` with a list also accepts a pair whose key is a number, a boolean or null, and a two-key dictionary (its two keys). Extracted data has string keys and Dafny maps have no key order, so the model treats such entries as not pairs and raises there.
- The `previous_findings` argument the agents receive is not modelled; agents are parameters whose replies do not depend on it.
- `model_dump` serialisation of agent responses keeps all six fields, but the contracts reason only about the dump's findings entry.
- A proof that the two graph variants agree on every input is not part of the model.
- `Ocr._extract_markdown_tables` (ocr_service.py:270-285) is not modelled: its regular expression parses table text the model treats as opaque.
- The file-path variants `process_document`, `_process_document_file` and `_process_image_file` are not modelled: they read a path from disk and then do what the byte variants do.
- `Rag.GenerateResponse` does not model the exception path (rag_service.py:180-187), which only applies when a called service raises. It also does not model the JSON encoding of the source list.
- Vertex AI Search being disabled or failing is modelled as an absent chunk list.
- `Rag.get_vocabulary_terms` is not modelled: it returns the dictionary's keys in insertion order, which a Dafny `map` does not have.
- `Rag.RetrieveFromKnowledgeBase`: `top_k` is a natural number; the source's negative slice bounds are not modelled.
- Chunk source values are strings; non-string metadata values are not modelled.
- `ConcatFrontend.Concatenate`: the folder's existence and the directory tree are parameters, and each file's decoded content is given.
  - The UTF-8 decoding fallback with replacement characters is not modelled.
  - Symbolic links and `os.walk` ordering are not modelled: the tree's entry order stands for the listing order.
  - The in-place pruning `dirnames[:] = ...` is modelled as the walk not descending into excluded directories.
  - Paths are sequences of names, not `pathlib` objects.
- `_inspect_file` ORs the MIME test and the signature test (document_verification.py:664-676), so a file can be both a PDF and an image; the model does the same.
