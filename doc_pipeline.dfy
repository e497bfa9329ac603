/** `DocumentVerificationService.verify_document`: inspect the upload, extract its text,
    classify it, pull fields out of it, let the structured extractor fill holes, run the four
    validator passes, decide, score and report. Everything the service asks of the outside
    world (PDF reader, Tesseract, the OCR and extraction models, the amount pattern's
    matches, today's date, number and value printing) is a parameter. */
module Pipeline {
  import opened Wrappers
  import opened Text
  import opened Json
  import opened DocModel
  import opened Dates
  import Inspect
  import Classifier
  import Fields
  import Augment
  import Validate
  import Decision
  import Report

  /** The `document_id` argument: absent, an integer or a string. */
  datatype DocumentId = NoId | IntId(n: int) | StrId(s: string)

  /** `str(document_id or "unknown")`: a falsy id (none, zero, the empty string) reads
      "unknown". */
  function DocIdText(id: DocumentId): (r: string)
    ensures r != []
    ensures id.StrId? && id.s != [] ==> r == id.s
    ensures id == NoId || id == IntId(0) || id == StrId("") ==> r == "unknown"
  {
    match id
    case NoId => "unknown"
    case IntId(n) => if n == 0 then "unknown" else IntToString(n)
    case StrId(s) => if s == [] then "unknown" else s
  }

  /** The outside world of one verification. */
  datatype Outside = Outside(
    extractors: Inspect.Extractors,
    augmenterEnabled: bool,
    augmenterReply: Result<string>,
    decode: string -> Option<Value>,
    parseFloat: string -> Option<real>,
    amountMatches: seq<Fields.AmountMatch>,
    today: Date,
    formatConf: real -> string,
    render: Value -> string)

  /** The dictionary `verify_document` returns. */
  datatype VerificationResult = VerificationResult(
    status: VerificationStatus,
    analysis: string,
    confidenceScore: int,
    isCompliant: bool,
    complianceIssues: Option<string>,
    shouldIndex: bool,
    extractedFields: map<string, Value>)

  /** The text the extraction cascade produces for an upload. */
  function Extracted(content: seq<Inspect.Byte>, mimeType: string, filename: string, env: Outside): ExtractedText {
    Inspect.ExtractText(content, Inspect.InspectFile(content, mimeType, filename), env.extractors)
  }

  /** `verify_document`. An `Err` is the exception a non-string date field raises in the
      semantic pass, which the service lets through. The result is indexed only when the
      profile allows it and the document is compliant; the status is never "needs review";
      a document is rejected only for readable text of an unrelated kind; a non-image under an
      image-only profile, and an empty upload under a profile that needs text, are never
      compliant; a document without issues is verified. */
  method VerifyDocument(content: seq<Inspect.Byte>, documentType: DocumentType, mimeType: string,
                        documentId: DocumentId, filename: string, env: Outside)
    returns (r: Result<VerificationResult>)
    ensures r.Ok? ==> r.value.shouldIndex == (ProfileOf(NormalizeDocumentType(documentType)).shouldIndex && r.value.isCompliant)
    ensures r.Ok? ==> r.value.status in {Verified, Rejected, PartiallyCompliant}
    ensures r.Ok? ==> 0 <= r.value.confidenceScore <= 98
    ensures r.Ok? && r.value.status == Verified ==> r.value.isCompliant
    ensures r.Ok? && r.value.status == Rejected ==> !r.value.isCompliant
    ensures r.Ok? && r.value.status == Rejected ==>
      NormalizeDocumentType(documentType) != Unrelated && !Extracted(content, mimeType, filename, env).isEmpty
    ensures r.Ok? && ProfileOf(NormalizeDocumentType(documentType)).mustBeImage
      && !Inspect.InspectFile(content, mimeType, filename).isImage
      ==> !r.value.isCompliant
    ensures r.Ok? && content == [] && !ProfileOf(NormalizeDocumentType(documentType)).allowEmptyText ==> !r.value.isCompliant
    ensures r.Ok? && r.value.complianceIssues.None? ==> r.value.status == Verified && r.value.isCompliant
  {
    var docId := DocIdText(documentId);
    var meta := Inspect.InspectFile(content, mimeType, filename);
    var selected := NormalizeDocumentType(documentType);
    var extracted := Inspect.ExtractText(content, meta, env.extractors);
    if content == [] {
      EmptyUploadIsEmpty(meta, env.extractors);
    }
    var detected, conf, hits, fields := ReadDocument(extracted, selected, env);
    var checked := RunValidators(meta, selected, detected, extracted, fields, env.today);
    if checked.Err? {
      return Err(checked.error);
    }
    var issues := checked.value;
    var status, compliant, score, summary := Judge(selected, detected, conf, extracted, fields, issues);
    var analysis := Report.AnalysisReport(docId, selected, detected, conf, env.formatConf, extracted, fields, env.render, issues, hits);
    r := Ok(VerificationResult(status, analysis, score, compliant, summary, ProfileOf(selected).shouldIndex && compliant, fields));
  }

  /** An empty upload yields the no-text marker, which counts as empty text. */
  lemma {:induction false} EmptyUploadIsEmpty(meta: FileMeta, env: Inspect.Extractors)
    ensures Inspect.ExtractText([], meta, env).isEmpty
  {
    SentinelIsEmpty();
  }

  /** Steps 2 to 4: the rule-based type, the regular-expression fields, and the structured
      extractor's fields and type signal (asked only for text that is not empty). The
      keyword hits are those of the extracted text and the confidence stays within
      [0, 0.95]. */
  method ReadDocument(extracted: ExtractedText, selected: NormType, env: Outside)
    returns (detected: NormType, conf: real, hits: seq<(NormType, nat)>, fields: map<string, Value>)
    ensures hits == Classifier.Hits(|Classifier.Categories|, Lower(extracted.text))
    ensures 0.0 <= conf <= 0.95
  {
    detected, conf, hits := Classifier.DetectTypeRuleBased(extracted.text);
    Classifier.DetectionBounds(extracted.text);
    fields := Fields.ExtractFieldsRegex(extracted.text, env.amountMatches);
    var payload := Augment.Payload(env.augmenterEnabled, extracted.isEmpty, env.augmenterReply, env.decode);
    Augment.TypeOverrideBounds(payload, detected, conf, env.parseFloat);
    fields, detected, conf := Augment.Augment(fields, detected, conf, payload, env.parseFloat);
  }

  /** Steps 6 to 8 without the report: the decision, the score and the summary. The status is
      rejected exactly for a critical issue; compliance is the absence of critical and high
      issues; no issue at all means verified; the summary is absent exactly when there is no
      issue. */
  method Judge(selected: NormType, detected: NormType, conf: real, extracted: ExtractedText,
               fields: map<string, Value>, issues: seq<Issue>)
    returns (status: VerificationStatus, compliant: bool, score: int, summary: Option<string>)
    ensures status in {Verified, Rejected, PartiallyCompliant}
    ensures status == Rejected <==> Decision.HasSeverity(issues, Critical)
    ensures compliant <==> !Decision.HasSeverity(issues, Critical) && !Decision.HasSeverity(issues, High)
    ensures status == Verified ==> compliant
    ensures issues == [] ==> status == Verified && compliant
    ensures 0 <= score <= 98
    ensures summary.None? <==> issues == []
  {
    var profile := ProfileOf(selected);
    var decision := Decision.Decide(profile, selected, issues);
    Decision.DecideOutcomes(profile, selected, issues);
    status, compliant := decision.0, decision.1;
    score := Decision.ScoreConfidence(profile, selected, detected, conf, extracted, fields, issues);
    summary := Report.IssueSummary(issues, 8);
  }

  lemma {:induction false} SentinelIsEmpty()
    ensures IsEmptyText(NoTextSentinel)
  {
    SentinelInsideIsEmpty(NoTextSentinel, 0);
  }

  /** The four validator passes in order (format, type, required fields, semantics) and the
      issues they add up to: the only critical issue is the unrelated-content one; the format
      issues are there when their conditions hold; every missing required field has its
      issue. */
  method RunValidators(meta: FileMeta, selected: NormType, detected: NormType, extracted: ExtractedText,
                       fields: map<string, Value>, today: Date)
    returns (r: Result<seq<Issue>>)
    ensures r.Err? <==> Validate.DateField(fields, "date_of_birth").Err? || Validate.DateField(fields, "expiry_date").Err?
    ensures r.Ok? ==> (Decision.HasSeverity(r.value, Critical) <==> Validate.UnrelatedContent(selected, detected, extracted))
    ensures r.Ok? && ProfileOf(selected).mustBeImage && !meta.isImage ==> Validate.NotImageIssue in r.value
    ensures r.Ok? && extracted.isEmpty && !ProfileOf(selected).allowEmptyText ==> Validate.UnreadableIssue in r.value
    ensures r.Ok? ==> forall f :: f in Validate.MissingFields(ProfileOf(selected).requiredFields, fields) ==>
      Validate.MissingIssue(f) in r.value
  {
    var profile := ProfileOf(selected);
    var format := Validate.ValidateFormat(meta, selected, extracted);
    var typed := Validate.ValidateType(selected, detected, extracted);
    var required := Validate.ValidateRequiredFields(profile, fields);
    var semantic := Validate.ValidateSemantics(selected, fields, today);
    if semantic.Err? {
      return Err(semantic.error);
    }
    var issues := format + typed + required + semantic.value;
    NoCriticalOutsideType(format, required, semantic.value, selected, fields, today);
    CriticalFromType(format, typed, required, semantic.value);
    MissingReported(profile.requiredFields, fields, format + typed, required, semantic.value);
    return Ok(issues);
  }

  /** Every missing required field has its issue in the combined list. */
  lemma {:induction false} MissingReported(requiredFields: seq<string>, fields: map<string, Value>,
                        before: seq<Issue>, required: seq<Issue>, after: seq<Issue>)
    requires required == Validate.MissingIssues(Validate.MissingFields(requiredFields, fields))
    ensures forall f :: f in Validate.MissingFields(requiredFields, fields) ==>
      Validate.MissingIssue(f) in before + required + after
  {
    forall f | f in Validate.MissingFields(requiredFields, fields)
      ensures Validate.MissingIssue(f) in before + required + after
    {
      var missing := Validate.MissingFields(requiredFields, fields);
      var k :| 0 <= k < |missing| && missing[k] == f;
      assert required[k] == Validate.MissingIssue(f);
    }
  }

  /** No pass but the type pass raises a critical issue. */
  lemma {:induction false} NoCriticalOutsideType(format: seq<Issue>, required: seq<Issue>, semantic: seq<Issue>,
                              selected: NormType, fields: map<string, Value>, today: Date)
    requires forall i :: i in format ==> i == Validate.NotImageIssue || i == Validate.UnreadableIssue
    requires required == Validate.MissingIssues(Validate.MissingFields(ProfileOf(selected).requiredFields, fields))
    requires Validate.DateField(fields, "date_of_birth").Ok? && Validate.DateField(fields, "expiry_date").Ok?
    requires semantic ==
      (if Validate.BadIban(selected, fields) then [Validate.InvalidIbanIssue] else [])
      + Validate.BirthIssues(Validate.DateField(fields, "date_of_birth").value, today)
      + Validate.ExpiryIssues(Validate.DateField(fields, "expiry_date").value, today, selected)
    ensures forall i :: i in format + required + semantic ==> i.severity != Critical
  {
    RequiredNotCritical(Validate.MissingFields(ProfileOf(selected).requiredFields, fields), required);
    SemanticNotCritical(Validate.BadIban(selected, fields), Validate.DateField(fields, "date_of_birth").value,
                        Validate.DateField(fields, "expiry_date").value, today, selected, semantic);
    NoneCritical(format, required, semantic);
  }

  lemma {:induction false} RequiredNotCritical(missing: seq<string>, required: seq<Issue>)
    requires required == Validate.MissingIssues(missing)
    ensures forall i :: i in required ==> i.severity != Critical
  {
    forall i | i in required ensures i.severity != Critical {
      var k :| 0 <= k < |required| && required[k] == i;
    }
  }

  lemma {:induction false} NoneCritical(a: seq<Issue>, b: seq<Issue>, c: seq<Issue>)
    requires forall i :: i in a ==> i.severity != Critical
    requires forall i :: i in b ==> i.severity != Critical
    requires forall i :: i in c ==> i.severity != Critical
    ensures forall i :: i in a + b + c ==> i.severity != Critical
  {
    forall i | i in a + b + c ensures i.severity != Critical {
      assert i in a || i in b || i in c;
    }
  }

  lemma {:induction false} SemanticNotCritical(badIban: bool, dob: Option<Date>, exp: Option<Date>, today: Date, selected: NormType,
                            semantic: seq<Issue>)
    requires semantic ==
      (if badIban then [Validate.InvalidIbanIssue] else [])
      + Validate.BirthIssues(dob, today) + Validate.ExpiryIssues(exp, today, selected)
    ensures forall i :: i in semantic ==> i.severity != Critical
  {
    var bank, birth, expiry := (if badIban then [Validate.InvalidIbanIssue] else []),
      Validate.BirthIssues(dob, today), Validate.ExpiryIssues(exp, today, selected);
    assert forall i :: i in birth ==> i == Validate.FutureBirthIssue || i == Validate.OldBirthIssue;
    forall i | i in semantic ensures i.severity != Critical {
      assert i in bank || i in birth || i in expiry;
    }
  }

  /** So a critical issue among all of them is one of the type pass's. */
  lemma {:induction false} CriticalFromType(format: seq<Issue>, typed: seq<Issue>, required: seq<Issue>, semantic: seq<Issue>)
    requires forall i :: i in format + required + semantic ==> i.severity != Critical
    ensures Decision.HasSeverity(format + typed + required + semantic, Critical) <==> Decision.HasSeverity(typed, Critical)
  {
    var all := format + typed + required + semantic;
    if Decision.HasSeverity(all, Critical) {
      var i :| i in all && i.severity == Critical;
      assert i in format || i in typed || i in required || i in semantic;
    }
  }
}
