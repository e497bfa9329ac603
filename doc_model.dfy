/** The records and enumerations of the document-verification service: the normalised
    document types and their verification profiles, the user-facing document types, the
    verification statuses, issues, extracted text and file metadata. */
module DocModel {
  import opened Wrappers
  import opened Text

  /** The normalised type labels the service works with internally. */
  datatype NormType =
    | Unrelated
    | IdDocument
    | BankDetails
    | InsurancePolicy
    | ClaimForm
    | IncidentReport
    | ProofOfOwnership
    | RepairEstimate
    | MedicalReport
    | EvidenceOfDamage

  function NormName(n: NormType): string {
    match n
    case Unrelated => "unrelated"
    case IdDocument => "id_document"
    case BankDetails => "bank_details"
    case InsurancePolicy => "insurance_policy"
    case ClaimForm => "claim_form"
    case IncidentReport => "incident_report"
    case ProofOfOwnership => "proof_of_ownership"
    case RepairEstimate => "repair_estimate"
    case MedicalReport => "medical_report"
    case EvidenceOfDamage => "evidence_of_damage"
  }

  /** `label in PROFILES`, returning the type the label names: exactly the inverse of `NormName`. */
  function NormFromName(s: string): (r: Option<NormType>)
    ensures r.Some? ==> NormName(r.value) == s
    ensures r.None? <==> forall n: NormType :: NormName(n) != s
  {
    match s
    case "unrelated" => Some(Unrelated)
    case "id_document" => Some(IdDocument)
    case "bank_details" => Some(BankDetails)
    case "insurance_policy" => Some(InsurancePolicy)
    case "claim_form" => Some(ClaimForm)
    case "incident_report" => Some(IncidentReport)
    case "proof_of_ownership" => Some(ProofOfOwnership)
    case "repair_estimate" => Some(RepairEstimate)
    case "medical_report" => Some(MedicalReport)
    case "evidence_of_damage" => Some(EvidenceOfDamage)
    case _ => None
  }

  lemma {:induction false} NormNameRoundTrip(n: NormType)
    ensures NormFromName(NormName(n)) == Some(n)
  {
  }

  /** A verification profile: what a document of a type must contain and how it is handled. */
  datatype Profile = Profile(
    requiredFields: seq<string>,
    allowEmptyText: bool,
    mustBeImage: bool,
    goodEnoughIfImage: bool,
    shouldIndex: bool)

  /** `PROFILES[n]`; every normalised type has a profile, so `PROFILES.get(n, ...)` never
      falls back. */
  function ProfileOf(n: NormType): Profile {
    match n
    case IdDocument => Profile(["holder_name", "id_number", "date_of_birth"], false, false, false, true)
    case BankDetails => Profile(["holder_name", "bank_account"], false, false, false, true)
    case InsurancePolicy => Profile(["holder_name", "policy_number"], false, false, false, true)
    case ClaimForm => Profile(["holder_name", "incident_date", "claim_number"], false, false, false, true)
    case IncidentReport => Profile(["incident_date", "incident_location"], false, false, false, true)
    case ProofOfOwnership => Profile(["holder_name", "purchase_date"], false, false, false, true)
    case RepairEstimate => Profile(["provider_name", "amount_total"], false, false, false, true)
    case MedicalReport => Profile(["holder_name", "medical_date"], false, false, false, true)
    case EvidenceOfDamage => Profile([], true, true, true, false)
    case Unrelated => Profile([], true, false, false, false)
  }

  /** The shape of the profile table: only photo evidence must be an image; exactly photo
      evidence and unrelated documents may have empty text, require nothing and are not
      indexed; every other type requires two or three fields. */
  lemma {:induction false} ProfileTableShape(n: NormType)
    ensures ProfileOf(n).mustBeImage <==> n == EvidenceOfDamage
    ensures ProfileOf(n).goodEnoughIfImage <==> n == EvidenceOfDamage
    ensures ProfileOf(n).allowEmptyText <==> n in {EvidenceOfDamage, Unrelated}
    ensures !ProfileOf(n).shouldIndex <==> n in {EvidenceOfDamage, Unrelated}
    ensures ProfileOf(n).requiredFields == [] <==> n in {EvidenceOfDamage, Unrelated}
    ensures ProfileOf(n).requiredFields != [] ==> 2 <= |ProfileOf(n).requiredFields| <= 3
  {
  }

  /** The document types a caller can select, canonical and legacy. */
  datatype DocumentType =
    | DtInsurancePolicy
    | DtClaimForm
    | DtIncidentReport
    | DtProofOfOwnership
    | DtEvidenceOfDamage
    | DtRepairEstimate
    | DtMedicalReport
    | DtIdDocument
    | DtBankDetails
    | DtIdentity
    | DtInvoice
    | DtPoliceReport
    | DtPhotos
    | DtOther
    | DtUnrelated

  /** The enum's string value. */
  function DocumentTypeValue(dt: DocumentType): string {
    match dt
    case DtInsurancePolicy => "insurance_policy"
    case DtClaimForm => "claim_form"
    case DtIncidentReport => "incident_report"
    case DtProofOfOwnership => "proof_of_ownership"
    case DtEvidenceOfDamage => "evidence_of_damage"
    case DtRepairEstimate => "repair_estimate"
    case DtMedicalReport => "medical_report"
    case DtIdDocument => "id_document"
    case DtBankDetails => "bank_details"
    case DtIdentity => "identity"
    case DtInvoice => "invoice"
    case DtPoliceReport => "police_report"
    case DtPhotos => "photos"
    case DtOther => "other"
    case DtUnrelated => "unrelated"
  }

  predicate IsLegacy(dt: DocumentType) {
    dt in {DtIdentity, DtInvoice, DtPoliceReport, DtPhotos, DtOther}
  }

  /** `_normalize_document_type`: the mapping onto the profile keys. */
  function NormalizeDocumentType(dt: DocumentType): NormType {
    match dt
    case DtInsurancePolicy => InsurancePolicy
    case DtClaimForm => ClaimForm
    case DtIncidentReport => IncidentReport
    case DtProofOfOwnership => ProofOfOwnership
    case DtRepairEstimate => RepairEstimate
    case DtMedicalReport => MedicalReport
    case DtIdDocument => IdDocument
    case DtBankDetails => BankDetails
    case DtEvidenceOfDamage => EvidenceOfDamage
    case DtIdentity => IdDocument
    case DtInvoice => ProofOfOwnership
    case DtPoliceReport => IncidentReport
    case DtPhotos => EvidenceOfDamage
    case DtUnrelated => Unrelated
    case DtOther => Unrelated
  }

  /** A canonical type keeps its own label; the legacy aliases land on their successors;
      every normalised type is reached from a canonical one. */
  lemma {:induction false} NormalizeDocumentTypeCorrect(dt: DocumentType)
    ensures !IsLegacy(dt) ==> NormName(NormalizeDocumentType(dt)) == DocumentTypeValue(dt)
    ensures dt == DtIdentity ==> NormalizeDocumentType(dt) == IdDocument
    ensures dt == DtInvoice ==> NormalizeDocumentType(dt) == ProofOfOwnership
    ensures dt == DtPoliceReport ==> NormalizeDocumentType(dt) == IncidentReport
    ensures dt == DtPhotos ==> NormalizeDocumentType(dt) == EvidenceOfDamage
    ensures dt == DtOther ==> NormalizeDocumentType(dt) == Unrelated
  {
  }

  lemma {:induction false} NormalizeDocumentTypeOnto(n: NormType)
    ensures exists dt :: !IsLegacy(dt) && NormalizeDocumentType(dt) == n
  {
    var dt :=
      match n
      case Unrelated => DtUnrelated
      case IdDocument => DtIdDocument
      case BankDetails => DtBankDetails
      case InsurancePolicy => DtInsurancePolicy
      case ClaimForm => DtClaimForm
      case IncidentReport => DtIncidentReport
      case ProofOfOwnership => DtProofOfOwnership
      case RepairEstimate => DtRepairEstimate
      case MedicalReport => DtMedicalReport
      case EvidenceOfDamage => DtEvidenceOfDamage;
    assert !IsLegacy(dt) && NormalizeDocumentType(dt) == n;
  }

  datatype VerificationStatus = Pending | Processing | Verified | Rejected | NeedsReview | PartiallyCompliant

  datatype Severity = Critical | High | Medium | Low | OtherSeverity

  function SeverityLabel(s: Severity): string {
    match s
    case Critical => "critical"
    case High => "high"
    case Medium => "medium"
    case Low => "low"
    case OtherSeverity => "other"
  }

  datatype IssueType = Missing | Invalid | Mismatch | Unreadable | Suspicious | UnrelatedDoc

  function IssueTypeLabel(t: IssueType): string {
    match t
    case Missing => "missing"
    case Invalid => "invalid"
    case Mismatch => "mismatch"
    case Unreadable => "unreadable"
    case Suspicious => "suspicious"
    case UnrelatedDoc => "unrelated"
  }

  /** The messages the validators attach to an issue; each stands for its description and
      suggestion texts, given by `Description` and `Suggestion`. */
  datatype Message =
    | NotImageMsg
    | UnreadableMsg
    | UnrelatedMsg
    | MismatchMsg(detected: NormType, selected: NormType)
    | MissingMsg(name: string)
    | IbanMsg
    | FutureBirthMsg
    | OldBirthMsg
    | ExpiredMsg

  function Description(m: Message): string {
    match m
    case NotImageMsg => "Expected an image file for photo evidence, but received a non-image document."
    case UnreadableMsg => "OCR extracted no usable text from this document."
    case UnrelatedMsg => "Document content appears unrelated to insurance documents."
    case MismatchMsg(d, s) => "Detected type looks like '" + NormName(d) + "' but user selected '" + NormName(s) + "'."
    case MissingMsg(f) => "Required field '" + f + "' not found in the document text."
    case IbanMsg => "IBAN format/check digits look invalid."
    case FutureBirthMsg => "Date of birth is in the future."
    case OldBirthMsg => "Date of birth looks unusually old; may be OCR error."
    case ExpiredMsg => "ID document appears expired."
  }

  function Suggestion(m: Message): Option<string> {
    match m
    case NotImageMsg => Some("Upload a JPG/PNG/WebP photo.")
    case UnreadableMsg => Some("Upload a clearer scan/photo or a digital PDF.")
    case UnrelatedMsg => Some("Upload the correct document type.")
    case MismatchMsg(_, _) => Some("Confirm the selected document type or upload the right document.")
    case MissingMsg(_) => Some("Upload a clearer document where this field is visible.")
    case IbanMsg => Some("Upload a bank document that clearly shows the IBAN.")
    case FutureBirthMsg => None
    case OldBirthMsg => None
    case ExpiredMsg => Some("Upload a valid, unexpired ID if required.")
  }

  /** An `Issue` of the verification report; its description and suggestion are those of its
      message. */
  datatype Issue = Issue(field: string, issueType: IssueType, severity: Severity, message: Message) {
    function description(): string {
      Description(message)
    }

    function suggestion(): Option<string> {
      Suggestion(message)
    }
  }

  datatype ExtractionMethod = PdfNative | Tesseract | GeminiOcr | NoMethod

  /** The text placed where no text could be extracted. */
  const NoTextSentinel: string := "[No text content extracted from document]"

  /** `ExtractedText.is_empty`: blank after stripping, or holding the no-text marker anywhere. */
  predicate IsEmptyText(text: string) {
    var normalized := Lower(Strip(text));
    normalized == [] || HasMarker(normalized)
  }

  const EmptyMarker: string := "no text content extracted"

  /** `"no text content extracted" in s`, searched position by position (the same test as
      `Contains`, see `HasMarkerIsContains`). */
  predicate HasMarker(s: string) {
    StartsWith(s, EmptyMarker) || (s != [] && HasMarker(s[1..]))
  }

  lemma {:induction false} HasMarkerAt(s: string, i: nat)
    requires i <= |s| && StartsWith(s[i..], EmptyMarker)
    ensures HasMarker(s)
    decreases i
  {
    if i > 0 {
      assert s[1..][i - 1..] == s[i..];
      HasMarkerAt(s[1..], i - 1);
    }
  }

  lemma {:induction false} HasMarkerIsContains(s: string)
    ensures HasMarker(s) <==> Contains(s, EmptyMarker)
    decreases |s|
  {
    if Contains(s, EmptyMarker) {
      var i :| 0 <= i <= |s| && StartsWith(s[i..], EmptyMarker);
      HasMarkerAt(s, i);
    }
    if HasMarker(s) && !StartsWith(s, EmptyMarker) {
      HasMarkerIsContains(s[1..]);
      var i :| 0 <= i <= |s[1..]| && StartsWith(s[1..][i..], EmptyMarker);
      assert s[1..][i..] == s[i + 1..];
      ContainsAt(s, EmptyMarker, i + 1);
    }
    if StartsWith(s, EmptyMarker) {
      assert s[0..] == s;
      ContainsAt(s, EmptyMarker, 0);
    }
  }

  /** The outcome of text extraction. `isEmpty` is the `is_empty` property, a function of the
      text alone (`IsEmptyText`), recorded when the value is built. */
  datatype ExtractedText = ExtractedText(text: string, extraction: ExtractionMethod, charCount: nat, isEmpty: bool)

  /** The check is containment, not equality: any text with the sentinel inside it, whatever
      surrounds it, counts as empty. */
  lemma {:induction false} SentinelInsideIsEmpty(text: string, i: nat)
    requires i + |NoTextSentinel| <= |text| && text[i..i + |NoTextSentinel|] == NoTextSentinel
    ensures IsEmptyText(text)
  {
    var n := |NoTextSentinel|;
    assert text[i] == NoTextSentinel[0] && text[i + n - 1] == NoTextSentinel[n - 1];
    var j := StripKeepsInterior(text, i, n);
    SentinelAtHasMarker(Strip(text), j);
  }

  /** Lower-casing a text with the sentinel at `j` puts the marker at `j + 1`. */
  lemma {:induction false} SentinelAtHasMarker(s: string, j: nat)
    requires j + |NoTextSentinel| <= |s| && s[j..j + |NoTextSentinel|] == NoTextSentinel
    ensures HasMarker(Lower(s))
  {
    var n := |NoTextSentinel|;
    var low := Lower(s);
    LowerSlice(s, j, n);
    LoweredSentinelHasMarker(s[j..j + n]);
    assert low[j + 1..][..25] == low[j..j + n][1..][..25];
    HasMarkerAt(low, j + 1);
  }

  lemma {:induction false} LoweredSentinelHasMarker(s: string)
    requires s == NoTextSentinel
    ensures StartsWith(Lower(s)[1..], "no text content extracted")
  {
    SentinelHead();
    LowerSlice(s, 0, 26);
    LoweredHead();
    assert Lower(s)[1..][..25] == Lower(s)[0..26][1..];
  }

  lemma {:induction false} SentinelHead()
    ensures |NoTextSentinel| >= 26 && NoTextSentinel[0..26] == "[No text content extracted"
  {
  }

  lemma {:induction false} LoweredHead()
    ensures Lower("[No text content extracted")[1..] == "no text content extracted"
  {
    assert Lower("[No text content extracted") == "[no text content extracted";
  }

  /** A stretch that starts and ends with a non-blank character survives `strip`. */
  lemma {:induction false} StripKeepsInterior(text: string, i: nat, n: nat) returns (j: nat)
    requires 0 < n && i + n <= |text| && !IsSpace(text[i]) && !IsSpace(text[i + n - 1])
    ensures j + n <= |Strip(text)| && Strip(text)[j..j + n] == text[i..i + n]
  {
    var l := TrimLeft(text);
    j := TrimmedWindow(text, l, TrimRight(l), i, n);
  }

  /** The same for any `l` that drops only blanks from the front of `text` and any `r` that
      drops only blanks from the back of `l`. */
  lemma {:induction false} TrimmedWindow(text: string, l: string, r: string, i: nat, n: nat) returns (j: nat)
    requires 0 < n && i + n <= |text| && !IsSpace(text[i]) && !IsSpace(text[i + n - 1])
    requires |l| <= |text| && l == text[|text| - |l|..]
    requires forall k :: 0 <= k < |text| - |l| ==> IsSpace(text[k])
    requires |r| <= |l| && r == l[..|r|]
    requires forall k :: |r| <= k < |l| ==> IsSpace(l[k])
    ensures j + n <= |r| && r[j..j + n] == text[i..i + n]
  {
    var a := |text| - |l|;
    assert a <= i;
    j := i - a;
    assert l[j + n - 1] == text[i + n - 1];
    assert j + n <= |r|;
    assert r[j..j + n] == l[j..j + n];
  }

  lemma {:induction false} LowerSlice(s: string, j: nat, n: nat)
    requires j + n <= |s|
    ensures Lower(s)[j..j + n] == Lower(s[j..j + n])
  {
  }

  /** Text made only of whitespace is empty. */
  lemma {:induction false} BlankTextIsEmpty(text: string)
    requires forall i :: 0 <= i < |text| ==> IsSpace(text[i])
    ensures IsEmptyText(text)
  {
    assert TrimLeft(text) == [];
  }

  datatype FileMeta = FileMeta(filename: string, mimeType: string, isPdf: bool, isImage: bool)
}
