/** The four validation passes of the verification service, run in the order format, type,
    required fields, semantics. Each returns the issues it finds, in the order it finds them.
    Today's date is a parameter. */
module Validate {
  import opened Wrappers
  import opened Text
  import opened Json
  import opened DocModel
  import opened Dates
  import Iban

  // ---------------------------------------------------------------------------------------
  // The issues the passes can raise
  // ---------------------------------------------------------------------------------------

  const NotImageIssue := Issue("file", Invalid, High, NotImageMsg)
  const UnreadableIssue := Issue("ocr_text", Unreadable, High, UnreadableMsg)
  const UnrelatedIssue := Issue("document_type", UnrelatedDoc, Critical, UnrelatedMsg)
  const InvalidIbanIssue := Issue("bank_account", Invalid, High, IbanMsg)
  const FutureBirthIssue := Issue("date_of_birth", Invalid, High, FutureBirthMsg)
  const OldBirthIssue := Issue("date_of_birth", Suspicious, Medium, OldBirthMsg)
  const ExpiredIssue := Issue("expiry_date", Invalid, Medium, ExpiredMsg)

  function MismatchIssue(detected: NormType, selected: NormType): Issue {
    Issue("document_type", Mismatch, Medium, MismatchMsg(detected, selected))
  }

  function MissingIssue(f: string): Issue {
    Issue(f, Missing, High, MissingMsg(f))
  }

  // ---------------------------------------------------------------------------------------
  // _validate_format
  // ---------------------------------------------------------------------------------------

  /** `_validate_format`: a non-image where the profile demands an image, then unreadable
      text where the profile does not allow empty text; both `high`. */
  method ValidateFormat(meta: FileMeta, selected: NormType, extracted: ExtractedText) returns (issues: seq<Issue>)
    ensures NotImageIssue in issues <==> ProfileOf(selected).mustBeImage && !meta.isImage
    ensures UnreadableIssue in issues <==> extracted.isEmpty && !ProfileOf(selected).allowEmptyText
    ensures forall i :: i in issues ==> i == NotImageIssue || i == UnreadableIssue
    ensures |issues| == (if NotImageIssue in issues then 1 else 0) + (if UnreadableIssue in issues then 1 else 0)
    ensures |issues| == 2 ==> issues[0] == NotImageIssue
  {
    issues := [];
    var profile := ProfileOf(selected);
    if profile.mustBeImage && !meta.isImage {
      issues := issues + [NotImageIssue];
    }
    if extracted.isEmpty && !profile.allowEmptyText {
      issues := issues + [UnreadableIssue];
    }
  }

  // ---------------------------------------------------------------------------------------
  // _validate_type
  // ---------------------------------------------------------------------------------------

  /** The hard rejection: readable text classified as unrelated for a selected insurance type. */
  predicate UnrelatedContent(selected: NormType, detected: NormType, extracted: ExtractedText) {
    detected == Unrelated && !extracted.isEmpty && selected != Unrelated
  }

  /** `detected_norm not in (selected_norm, NORM_UNRELATED)` for a selected insurance type;
      the confidence score penalises the same condition. */
  predicate TypeMismatch(selected: NormType, detected: NormType) {
    selected != Unrelated && detected != selected && detected != Unrelated
  }

  /** `_validate_type`: exactly one `critical` issue for unrelated content; otherwise at most
      one `medium` mismatch. */
  method ValidateType(selected: NormType, detected: NormType, extracted: ExtractedText) returns (issues: seq<Issue>)
    ensures |issues| <= 1
    ensures UnrelatedContent(selected, detected, extracted) ==> issues == [UnrelatedIssue]
    ensures TypeMismatch(selected, detected) ==> issues == [MismatchIssue(detected, selected)]
    ensures issues == [] <==> !UnrelatedContent(selected, detected, extracted) && !TypeMismatch(selected, detected)
  {
    if detected == Unrelated && !extracted.isEmpty && selected != Unrelated {
      return [UnrelatedIssue];
    }
    issues := [];
    if selected != Unrelated && detected != selected && detected != Unrelated {
      issues := [MismatchIssue(detected, selected)];
    }
  }

  // ---------------------------------------------------------------------------------------
  // _validate_required_fields
  // ---------------------------------------------------------------------------------------

  /** `val is None or (isinstance(val, str) and not val.strip())` for `fields.get(f)`. */
  predicate IsMissing(fields: map<string, Value>, f: string) {
    f !in fields || fields[f] == Null || (fields[f].Str? && IsBlank(fields[f].s))
  }

  /** The required fields that are missing, in profile order. */
  function MissingFields(required: seq<string>, fields: map<string, Value>): (r: seq<string>)
    ensures |r| <= |required|
    ensures forall f :: f in r <==> f in required && IsMissing(fields, f)
    decreases |required|
  {
    if required == [] then []
    else
      var n := |required| - 1;
      assert required == required[..n] + [required[n]];
      MissingFields(required[..n], fields) + (if IsMissing(fields, required[n]) then [required[n]] else [])
  }

  /** One "missing" issue per field name, in order. */
  function MissingIssues(missing: seq<string>): (r: seq<Issue>)
    ensures |r| == |missing|
    ensures forall k :: 0 <= k < |r| ==> r[k] == MissingIssue(missing[k])
    decreases |missing|
  {
    if missing == [] then []
    else MissingIssues(missing[..|missing| - 1]) + [MissingIssue(missing[|missing| - 1])]
  }

  /** `_validate_required_fields`: one `high` "missing" issue per missing required field, in
      profile order. */
  method ValidateRequiredFields(profile: Profile, fields: map<string, Value>) returns (issues: seq<Issue>)
    ensures issues == MissingIssues(MissingFields(profile.requiredFields, fields))
  {
    issues := [];
    var required := profile.requiredFields;
    var j := 0;
    while j < |required|
      invariant j <= |required|
      invariant issues == MissingIssues(MissingFields(required[..j], fields))
    {
      MissingStepAt(required, j, fields);
      issues := issues + if IsMissing(fields, required[j]) then [MissingIssue(required[j])] else [];
      j := j + 1;
    }
    assert required[..j] == required;
  }

  lemma {:induction false} MissingStepAt(required: seq<string>, j: nat, fields: map<string, Value>)
    requires j < |required|
    ensures MissingIssues(MissingFields(required[..j + 1], fields))
      == MissingIssues(MissingFields(required[..j], fields))
         + (if IsMissing(fields, required[j]) then [MissingIssue(required[j])] else [])
  {
    assert required[..j + 1] == required[..j] + [required[j]];
    MissingStep(required[..j], required[j], fields);
  }

  lemma {:induction false} MissingStep(prefix: seq<string>, f: string, fields: map<string, Value>)
    ensures MissingIssues(MissingFields(prefix + [f], fields))
      == MissingIssues(MissingFields(prefix, fields)) + (if IsMissing(fields, f) then [MissingIssue(f)] else [])
  {
    assert (prefix + [f])[..|prefix|] == prefix;
    var before := MissingFields(prefix, fields);
    if IsMissing(fields, f) {
      assert (before + [f])[..|before|] == before;
    }
  }

  /** Every issue of the required-field pass is a `high` "missing" issue, and a field with a
      real value, or a string with some non-blank character, never gets one. */
  lemma {:induction false} RequiredIssuesShape(profile: Profile, fields: map<string, Value>, f: string)
    requires f in fields && fields[f] != Null && !(fields[f].Str? && IsBlank(fields[f].s))
    ensures f !in MissingFields(profile.requiredFields, fields)
    ensures forall g :: g in MissingFields(profile.requiredFields, fields) ==> MissingIssue(g).severity == High
  {
  }

  // ---------------------------------------------------------------------------------------
  // _validate_semantics
  // ---------------------------------------------------------------------------------------

  /** `parse_date_loose(fields.get(key) or "")`: a falsy value parses as nothing, a string is
      parsed, and any other truthy value makes `.strip()` raise `AttributeError`. */
  function DateField(fields: map<string, Value>, key: string): (r: Result<Option<Date>>)
    ensures r.Ok? && r.value.Some? ==> ValidDate(r.value.value)
  {
    var v := Get(fields, key, Null);
    if !Truthy(v) then Ok(None)
    else if v.Str? then Ok(ParseDateLoose(v.s))
    else Err("AttributeError: '" + key + "' is not a string")
  }

  /** The IBAN check applies to a bank-details upload whose account value is a non-blank
      string that fails `iban_is_valid`. */
  predicate BadIban(selected: NormType, fields: map<string, Value>) {
    && selected == BankDetails
    && "bank_account" in fields && fields["bank_account"].Str?
    && !IsBlank(fields["bank_account"].s)
    && !Iban.ValidIban(fields["bank_account"].s)
  }

  /** The date-of-birth issues for a parsed date. */
  function BirthIssues(dob: Option<Date>, today: Date): seq<Issue> {
    match dob
    case None => []
    case Some(d) =>
      (if Before(today, d) then [FutureBirthIssue] else [])
      + (if today.year - d.year > 120 then [OldBirthIssue] else [])
  }

  /** The expiry issue for a parsed expiry date. */
  function ExpiryIssues(exp: Option<Date>, today: Date, selected: NormType): seq<Issue> {
    if exp.Some? && Before(exp.value, today) && selected == IdDocument then [ExpiredIssue] else []
  }

  /** `_validate_semantics` with `today` given: the IBAN check for bank details, the two
      date-of-birth checks and the expiry check for identity documents, in that order. A
      date field holding a non-string truthy value raises, and nothing is returned. */
  method ValidateSemantics(selected: NormType, fields: map<string, Value>, today: Date) returns (r: Result<seq<Issue>>)
    ensures r.Err? <==> DateField(fields, "date_of_birth").Err? || DateField(fields, "expiry_date").Err?
    ensures r.Ok? ==> (r.value ==
      (if BadIban(selected, fields) then [InvalidIbanIssue] else [])
      + BirthIssues(DateField(fields, "date_of_birth").value, today)
      + ExpiryIssues(DateField(fields, "expiry_date").value, today, selected))
  {
    var bank := BankIssues(selected, fields);
    var dob := DateField(fields, "date_of_birth");
    if dob.Err? {
      return Err(dob.error);
    }
    var birth := BirthChecks(dob.value, today);
    var exp := DateField(fields, "expiry_date");
    if exp.Err? {
      return Err(exp.error);
    }
    var expiry := ExpiryCheck(exp.value, today, selected);
    return Ok(bank + birth + expiry);
  }

  /** The two date-of-birth checks of `_validate_semantics`. */
  method BirthChecks(dob: Option<Date>, today: Date) returns (issues: seq<Issue>)
    ensures issues == BirthIssues(dob, today)
  {
    issues := [];
    if dob.Some? {
      var d := dob.value;
      if Before(today, d) {
        issues := issues + [FutureBirthIssue];
      }
      if today.year - d.year > 120 {
        issues := issues + [OldBirthIssue];
      }
    }
  }

  /** The expiry check of `_validate_semantics`. */
  method ExpiryCheck(exp: Option<Date>, today: Date, selected: NormType) returns (issues: seq<Issue>)
    ensures issues == ExpiryIssues(exp, today, selected)
  {
    issues := [];
    if exp.Some? && Before(exp.value, today) && selected == IdDocument {
      issues := issues + [ExpiredIssue];
    }
  }

  /** The IBAN part of `_validate_semantics`. */
  method BankIssues(selected: NormType, fields: map<string, Value>) returns (issues: seq<Issue>)
    ensures issues == if BadIban(selected, fields) then [InvalidIbanIssue] else []
  {
    issues := [];
    if selected == BankDetails {
      var iban := Get(fields, "bank_account", Null);
      if iban.Str? && !IsBlank(iban.s) {
        var ok := Iban.IbanIsValid(iban.s);
        if !ok {
          issues := issues + [InvalidIbanIssue];
        }
      }
    }
  }

  /** A date of birth in the future and one more than 120 years back can never both be
      reported: at most one date-of-birth issue, `high` for the future and `medium` for the
      implausibly old. */
  lemma {:induction false} BirthIssuesExclusive(dob: Option<Date>, today: Date)
    ensures |BirthIssues(dob, today)| <= 1
    ensures dob.Some? && Before(today, dob.value) ==> BirthIssues(dob, today) == [FutureBirthIssue]
    ensures dob.Some? && today.year - dob.value.year > 120 ==> BirthIssues(dob, today) == [OldBirthIssue]
  {
    if dob.Some? && Before(today, dob.value) {
      assert dob.value.year >= today.year;
    }
  }

  /** Only identity documents are checked for expiry, and only a date strictly before today
      counts as expired. */
  lemma {:induction false} ExpiryOnlyForIdentity(exp: Option<Date>, today: Date, selected: NormType)
    ensures ExpiryIssues(exp, today, selected) != [] <==>
      selected == IdDocument && exp.Some? && Before(exp.value, today)
  {
  }

  /** Uploads other than bank details never get the IBAN issue, and a valid IBAN never does. */
  lemma {:induction false} IbanCheckScope(selected: NormType, fields: map<string, Value>)
    ensures selected != BankDetails ==> !BadIban(selected, fields)
    ensures "bank_account" in fields && fields["bank_account"].Str? && Iban.ValidIban(fields["bank_account"].s)
      ==> !BadIban(selected, fields)
  {
  }
}
