/** The OCR service: the keyword ladder that guesses a document type from OCR text, the
    routing of an upload by its file extension, the prompt sent with the file, the
    normalisation of the model's reply and the page-count estimate. The vision model and
    the PDF reader are parameters. */
module Ocr {
  import opened Wrappers
  import opened Text
  import opened DocModel

  // ---------------------------------------------------------------------------------------
  // detect_document_type
  // ---------------------------------------------------------------------------------------

  /** The types of the if/elif ladder, in the order they are tried. */
  const RuleTypes: seq<DocumentType> := [
    DtInsurancePolicy, DtClaimForm, DtIncidentReport, DtProofOfOwnership, DtRepairEstimate,
    DtMedicalReport, DtIdDocument, DtBankDetails, DtEvidenceOfDamage]

  /** The keywords looked for at each rung, in the order of `RuleTypes`. */
  const RuleWords: seq<seq<string>> := [
    ["policy number", "num\U{e9}ro de police", "insurance policy", "police d'assurance", "coverage",
      "couverture", "premium"],
    ["claim form", "formulaire de r\U{e9}clamation", "claim number", "num\U{e9}ro de sinistre",
      "declaration of loss"],
    ["police report", "rapport de police", "accident report", "constat", "incident report",
      "proc\U{e8}s-verbal"],
    ["proof of ownership", "preuve de propri\U{e9}t\U{e9}", "purchase receipt", "bill of sale",
      "acte de vente", "ownership certificate"],
    ["repair estimate", "devis de r\U{e9}paration", "repair invoice", "facture de r\U{e9}paration",
      "estimate", "devis"],
    ["medical report", "rapport m\U{e9}dical", "diagnosis", "diagnostic", "patient", "doctor",
      "m\U{e9}decin", "hospital", "h\U{f4}pital", "medical bill", "facture m\U{e9}dicale"],
    ["passport", "passeport", "identity card", "carte d'identit\U{e9}", "driver license",
      "permis de conduire", "national id", "r\U{e9}publique fran\U{e7}aise", "carte nationale"],
    ["bank details", "coordonn\U{e9}es bancaires", "iban", "bic", "account number",
      "num\U{e9}ro de compte", "bank account", "rib"],
    ["damage", "dommage", "loss", "perte", "photo", "evidence"]]

  /** `any(word in t for word in words)` */
  predicate AnyIn(words: seq<string>, t: string) {
    exists j :: 0 <= j < |words| && Contains(t, words[j])
  }

  /** The ladder from rung `k` on, over the lower-cased text `t`. */
  function DetectFrom(t: string, k: nat): DocumentType
    requires k <= |RuleTypes|
    decreases |RuleTypes| - k
  {
    if k == |RuleTypes| then DtUnrelated
    else if AnyIn(RuleWords[k], t) then RuleTypes[k]
    else DetectFrom(t, k + 1)
  }

  /** `detect_document_type(ocr_text)`: always one of the nine canonical types or
      `unrelated`, never a legacy alias. */
  function DetectDocumentType(ocrText: string): (dt: DocumentType)
    ensures !IsLegacy(dt)
  {
    DetectFromCanonical(Lower(ocrText), 0);
    DetectFrom(Lower(ocrText), 0)
  }

  lemma {:induction false} DetectFromCanonical(t: string, k: nat)
    requires k <= |RuleTypes|
    ensures !IsLegacy(DetectFrom(t, k))
    decreases |RuleTypes| - k
  {
    if k < |RuleTypes| && !AnyIn(RuleWords[k], t) {
      DetectFromCanonical(t, k + 1);
    }
  }

  /** The ladder stops at the first rung `w` whose keywords occur; it answers `unrelated`
      when no rung's keyword occurs (`w == |RuleTypes|`). */
  lemma {:induction false} DetectFromFirstMatch(t: string, k: nat) returns (w: nat)
    requires k <= |RuleTypes|
    ensures k <= w <= |RuleTypes|
    ensures forall j :: k <= j < w ==> !AnyIn(RuleWords[j], t)
    ensures w < |RuleTypes| ==> AnyIn(RuleWords[w], t) && DetectFrom(t, k) == RuleTypes[w]
    ensures w == |RuleTypes| ==> DetectFrom(t, k) == DtUnrelated
    decreases |RuleTypes| - k
  {
    if k == |RuleTypes| || AnyIn(RuleWords[k], t) {
      w := k;
    } else {
      w := DetectFromFirstMatch(t, k + 1);
    }
  }

  /** The rung types are pairwise distinct and none of them is `unrelated`. */
  lemma {:induction false} RuleTypesDistinct()
    ensures forall i, j :: 0 <= i < j < |RuleTypes| ==> RuleTypes[i] != RuleTypes[j]
    ensures forall i :: 0 <= i < |RuleTypes| ==> RuleTypes[i] != DtUnrelated
  {
  }

  /** The guess is rung `k`'s type exactly when one of its keywords occurs in the lower-cased
      text and none of an earlier rung's does; it is `unrelated` exactly when no keyword of any
      rung occurs. */
  lemma {:induction false} DetectDocumentTypeCorrect(ocrText: string, k: nat)
    requires k < |RuleTypes|
    ensures var t := Lower(ocrText);
      DetectDocumentType(ocrText) == RuleTypes[k] <==>
        AnyIn(RuleWords[k], t) && forall j :: 0 <= j < k ==> !AnyIn(RuleWords[j], t)
    ensures var t := Lower(ocrText);
      DetectDocumentType(ocrText) == DtUnrelated <==> forall j :: 0 <= j < |RuleTypes| ==> !AnyIn(RuleWords[j], t)
  {
    var t := Lower(ocrText);
    var w := DetectFromFirstMatch(t, 0);
    RuleTypesDistinct();
    if w < |RuleTypes| && w != k {
      assert RuleTypes[w] != RuleTypes[k];
    }
  }

  // ---------------------------------------------------------------------------------------
  // Extension routing (process_document_bytes)
  // ---------------------------------------------------------------------------------------

  /** `DOCUMENT_MIME_TYPES` */
  function DocumentMime(ext: string): Option<string> {
    match ext
    case ".pdf" => Some("application/pdf")
    case ".docx" => Some("application/vnd.openxmlformats-officedocument.wordprocessingml.document")
    case ".pptx" => Some("application/vnd.openxmlformats-officedocument.presentationml.presentation")
    case _ => None
  }

  /** `IMAGE_MIME_TYPES` */
  function ImageMime(ext: string): Option<string> {
    match ext
    case ".png" => Some("image/png")
    case ".jpg" => Some("image/jpeg")
    case ".jpeg" => Some("image/jpeg")
    case ".webp" => Some("image/webp")
    case ".avif" => Some("image/avif")
    case _ => None
  }

  /** The text after the last `/`. */
  function LastPart(path: string): (part: string)
    ensures '/' !in part && |part| <= |path|
  {
    match RFind(path, '/')
    case None => path
    case Some(i) => path[i + 1..]
  }

  /** `Path(path).name`: pathlib drops empty and `.` components, so the name is the last
      component that is neither, and empty when there is none. */
  function BaseName(path: string): (name: string)
    ensures '/' !in name && |name| <= |path| && name != "."
    decreases |path|
  {
    var last := LastPart(path);
    if last != [] && last != "." then last
    else match RFind(path, '/')
      case None => ""
      case Some(i) => BaseName(path[..i])
  }

  /** A trailing separator, or a trailing `/.`, changes neither the name nor the suffix:
      `report.pdf/` still has the suffix `.pdf`. */
  lemma {:induction false} TrailingSeparatorIgnored(path: string)
    ensures BaseName(path + "/") == BaseName(path) && Suffix(path + "/") == Suffix(path)
    ensures BaseName(path + "/.") == BaseName(path) && Suffix(path + "/.") == Suffix(path)
  {
    RFindIs(path + "/", '/', |path|);
    assert (path + "/")[..|path|] == path;
    var p2 := path + "/.";
    RFindIs(p2, '/', |path|);
    assert p2[|path| + 1..] == ".";
    assert p2[..|path|] == path;
  }

  /** `Path(filename).suffix`: from the last `.` of the final component, unless that dot
      starts the name or ends it. */
  function Suffix(filename: string): (ext: string)
    ensures ext != [] ==> ext[0] == '.' && 2 <= |ext|
  {
    var name := BaseName(filename);
    match RFind(name, '.')
    case None => ""
    case Some(i) => if 0 < i < |name| - 1 then name[i..] else ""
  }

  /** Where an upload goes, and with which MIME type. */
  datatype Route = DocumentPath(mime: string) | ImagePath(mime: string)

  /** The routing of `process_document_bytes`: the lower-cased suffix picks the document or
      the image path, an empty MIME type is taken from the table, and any other suffix raises
      `ValueError`. */
  function RouteFor(filename: string, mimeType: string): (r: Result<Route>)
    ensures var ext := Lower(Suffix(filename));
      && (r.Ok? <==> DocumentMime(ext).Some? || ImageMime(ext).Some?)
      && (r.Ok? && r.value.DocumentPath? <==> DocumentMime(ext).Some?)
      && (r.Ok? && mimeType != [] ==> r.value.mime == mimeType)
      && (r.Ok? && mimeType == [] && DocumentMime(ext).Some? ==> r.value.mime == DocumentMime(ext).value)
      && (r.Ok? && mimeType == [] && DocumentMime(ext).None? ==> r.value.mime == ImageMime(ext).value)
  {
    var ext := Lower(Suffix(filename));
    if DocumentMime(ext).Some? then
      Ok(DocumentPath(if mimeType != [] then mimeType else DocumentMime(ext).value))
    else if ImageMime(ext).Some? then
      Ok(ImagePath(if mimeType != [] then mimeType else ImageMime(ext).value))
    else Err("Unsupported file type: " + ext)
  }

  /** `.bmp` and `.tiff` are in neither table, so such a name is refused. */
  lemma {:induction false} UnsupportedSuffix(filename: string, mimeType: string)
    requires Lower(Suffix(filename)) == ".bmp" || Lower(Suffix(filename)) == ".tiff"
    ensures RouteFor(filename, mimeType).Err?
  {
    var ext := Lower(Suffix(filename));
    NotInTables(ext);
  }

  lemma {:induction false} NotInTables(ext: string)
    requires ext == ".bmp" || ext == ".tiff"
    ensures DocumentMime(ext).None? && ImageMime(ext).None?
  {
  }

  /** A name with text after its last `/`, extended with `.png` or `.pdf`, routes to the
      image or the document path respectively, whatever it held before. */
  lemma {:induction false} ExtendedNameRoutes(filename: string, ext: string, mimeType: string)
    requires ext == ".png" || ext == ".pdf"
    requires LastPart(filename) != []
    ensures RouteFor(filename + ext, mimeType).Ok?
    ensures RouteFor(filename + ext, mimeType).value.DocumentPath? <==> ext == ".pdf"
  {
    SuffixOfExtended(filename, ext);
    ExtensionTables(ext);
  }

  lemma {:induction false} ExtensionTables(ext: string)
    requires ext == ".png" || ext == ".pdf"
    ensures Lower(ext) == ext
    ensures DocumentMime(ext).Some? <==> ext == ".pdf"
    ensures ImageMime(ext).Some? <==> ext == ".png"
  {
  }

  /** Appending a dotted extension to a name with text after its last `/` makes that
      extension the suffix. */
  lemma {:induction false} SuffixOfExtended(filename: string, ext: string)
    requires |ext| >= 2 && ext[0] == '.' && '.' !in ext[1..] && '/' !in ext
    requires LastPart(filename) != []
    ensures Suffix(filename + ext) == ext
  {
    BaseNameAppend(filename, ext);
    var base := LastPart(filename);
    var name := base + ext;
    assert name == (base + ".") + ext[1..];
    RFindAppend(base + ".", ext[1..], '.');
    RFindIs(base + ".", '.', |base|);
    assert name[|base|..] == ext;
  }

  /** Text without a `/`, at least two characters long, becomes part of the name. */
  lemma {:induction false} BaseNameAppend(path: string, tail: string)
    requires '/' !in tail && |tail| >= 2
    ensures BaseName(path + tail) == LastPart(path) + tail
  {
    LastPartAppend(path, tail);
    var last := LastPart(path + tail);
    assert |last| >= 2;
    assert last != ".";
  }

  lemma {:induction false} LastPartAppend(path: string, tail: string)
    requires '/' !in tail
    ensures LastPart(path + tail) == LastPart(path) + tail
  {
    RFindAppend(path, tail, '/');
    if RFind(path, '/').Some? {
      LastPartAfter(path, tail, RFind(path, '/').value);
    }
  }

  lemma {:induction false} LastPartAfter(path: string, tail: string, i: nat)
    requires RFind(path, '/') == Some(i) && RFind(path + tail, '/') == Some(i)
    ensures LastPart(path + tail) == LastPart(path) + tail
  {
    assert LastPart(path + tail) == (path + tail)[i + 1..];
    SliceAppend(path, tail, i + 1);
  }

  lemma {:induction false} SliceAppend(a: string, b: string, k: nat)
    requires k <= |a|
    ensures (a + b)[k..] == a[k..] + b
  {
  }

  // ---------------------------------------------------------------------------------------
  // _build_prompt, _process_with_gemini, _estimate_page_count
  // ---------------------------------------------------------------------------------------

  const TableLine := "If tables are present, reproduce them as Markdown tables."
  const ReadingOrderLine := "If tables are present, transcribe their text in reading order."
  const SentinelLine := "If no text is found, return: [No text content extracted from document]"

  /** The four fixed opening lines of the OCR prompt. */
  const PromptHead: seq<string> := [
    "You are an OCR engine. Extract all readable text from the provided file.",
    "Return only the extracted text. Do not add commentary or summaries.",
    "Preserve line breaks and headings when possible.",
    "Do not describe images or layout elements; only transcribe text."]

  /** `_build_prompt(include_tables)`: the fixed lines, then the table line chosen by the flag,
      then the instruction to answer with the no-text marker, joined by line feeds. */
  method BuildPrompt(includeTables: bool) returns (prompt: string)
    ensures prompt == Join(PromptHead + [if includeTables then TableLine else ReadingOrderLine, SentinelLine], "\n")
    ensures EndsWith(prompt, "\n" + SentinelLine)
  {
    var lines := PromptHead;
    if includeTables {
      lines := lines + [TableLine];
    } else {
      lines := lines + [ReadingOrderLine];
    }
    lines := lines + [SentinelLine];
    assert lines == PromptHead + [if includeTables then TableLine else ReadingOrderLine, SentinelLine];
    prompt := Join(lines, "\n");
    JoinEndsWithLast(lines, "\n");
  }

  /** A join of two or more parts ends with the separator and the last part. */
  lemma {:induction false} JoinEndsWithLast(parts: seq<string>, sep: string)
    requires |parts| >= 2
    ensures EndsWith(Join(parts, sep), sep + parts[|parts| - 1])
  {
    JoinSnoc(parts[..|parts| - 1], parts[|parts| - 1], sep);
    assert parts[..|parts| - 1] + [parts[|parts| - 1]] == parts;
  }

  lemma {:induction false} JoinSnoc(parts: seq<string>, last: string, sep: string)
    requires parts != []
    ensures Join(parts + [last], sep) == Join(parts, sep) + sep + last
  {
    if |parts| == 1 {
      assert parts + [last] == [parts[0], last];
      assert Join([parts[0], last], sep) == parts[0] + sep + Join([last], sep);
    } else {
      assert (parts + [last])[1..] == parts[1..] + [last];
      JoinSnoc(parts[1..], last, sep);
    }
  }

  /** The normalised reply of `_process_with_gemini`: the stripped text, or the no-text marker
      when the model answered nothing but whitespace. Either way it is never blank. */
  function RawText(response: string): (r: string)
    ensures Strip(r) != []
    ensures r == NoTextSentinel || r == Strip(response)
    ensures Strip(response) != [] ==> r == Strip(response)
  {
    var t := Strip(response);
    if t == [] then
      SentinelStrips();
      NoTextSentinel
    else
      StripNonBlankFixed(t, response);
      t
  }

  lemma {:induction false} SentinelStrips()
    ensures Strip(NoTextSentinel) == NoTextSentinel
  {
    StripFixed(NoTextSentinel);
  }

  /** A text whose ends are not whitespace is its own strip. */
  lemma {:induction false} StripFixed(s: string)
    requires s != [] && !IsSpace(s[0]) && !IsSpace(s[|s| - 1])
    ensures Strip(s) == s
  {
    assert TrimLeft(s) == s;
  }

  lemma {:induction false} StripNonBlankFixed(t: string, response: string)
    requires t == Strip(response) && t != []
    ensures Strip(t) == t
  {
    StripEnds(response);
    StripFixed(t);
  }

  /** A non-empty strip starts and ends with a non-blank character. */
  lemma {:induction false} StripEnds(s: string)
    requires Strip(s) != []
    ensures !IsSpace(Strip(s)[0]) && !IsSpace(Strip(s)[|Strip(s)| - 1])
  {
    var l := TrimLeft(s);
    assert TrimRight(l) == l[..|TrimRight(l)|];
  }

  /** `mime_type or "application/octet-stream"` */
  function EffectiveMime(mimeType: string): (m: string)
    ensures m != []
    ensures mimeType != [] ==> m == mimeType
  {
    if mimeType != [] then mimeType else "application/octet-stream"
  }

  /** `_estimate_page_count`: the reader's page count (nothing when it raised, `pdfPages`) for a
      MIME type mentioning `pdf`, one page for an image, nothing otherwise. */
  function EstimatePageCount(mimeType: string, pdfPages: Option<nat>): Option<nat>
  {
    if Contains(mimeType, "pdf") then pdfPages
    else if StartsWith(mimeType, "image/") then Some(1)
    else None
  }

  /** The page count a caller gets when it leaves the MIME type to the routing table: the
      PDF reader's count for `.pdf` and one page for every image extension. */
  lemma {:induction false} PageCountByExtension(filename: string, text: string, pdfPages: Option<nat>)
    requires RouteFor(filename, "").Ok?
    ensures var ext := Lower(Suffix(filename));
      var out := ProcessDocumentBytes(filename, "", Ok(text), pdfPages).value;
      && (ext == ".pdf" ==> out.pageCount == pdfPages)
      && (ImageMime(ext).Some? ==> out.pageCount == Some(1))
  {
    var ext := Lower(Suffix(filename));
    var mime := RouteFor(filename, "").value.mime;
    assert ProcessDocumentBytes(filename, "", Ok(text), pdfPages).value.pageCount
        == EstimatePageCount(EffectiveMime(mime), pdfPages);
    TablesDisjoint(ext);
    if ext == ".pdf" {
      assert mime == "application/pdf";
      PdfMimePages(mime, pdfPages);
    } else if ImageMime(ext).Some? {
      TablesDisjoint(ext);
      assert mime == ImageMime(ext).value;
      ImageMimeValues(ext);
      ImageMimePages(mime, pdfPages);
    }
  }

  lemma {:induction false} TablesDisjoint(ext: string)
    ensures ImageMime(ext).Some? ==> DocumentMime(ext).None?
    ensures ext == ".pdf" ==> ImageMime(ext).None?
  {
  }

  lemma {:induction false} ImageMimeValues(ext: string)
    requires ImageMime(ext).Some?
    ensures var m := ImageMime(ext).value;
      m == "image/png" || m == "image/jpeg" || m == "image/webp" || m == "image/avif"
  {
    match ext
    case ".png" =>
    case ".jpg" =>
    case ".jpeg" =>
    case ".webp" =>
    case ".avif" =>
    case _ =>
  }

  lemma {:induction false} PdfMimePages(mime: string, pdfPages: Option<nat>)
    requires mime == "application/pdf"
    ensures EstimatePageCount(EffectiveMime(mime), pdfPages) == pdfPages
  {
    assert mime[12..][..3] == "pdf";
    ContainsAt(mime, "pdf", 12);
  }

  lemma {:induction false} ImageMimePages(mime: string, pdfPages: Option<nat>)
    requires mime == "image/png" || mime == "image/jpeg" || mime == "image/webp" || mime == "image/avif"
    ensures EstimatePageCount(EffectiveMime(mime), pdfPages) == Some(1)
  {
    assert mime[..6] == "image/";
    MissingCharNotContained(mime, "pdf", 1);
  }

  /** What `_process_with_gemini` returns that the pipeline uses. */
  datatype OcrOutput = OcrOutput(rawText: string, mimeType: string, pageCount: Option<nat>)

  /** `process_document_bytes`: route by suffix, then send the file with the routed MIME type
      (octet-stream when still empty). `reply` is the model's text, `Err` when the request
      raised; `pdfPages` is what the PDF reader makes of the bytes. */
  function ProcessDocumentBytes(filename: string, mimeType: string, reply: Result<string>,
                                pdfPages: Option<nat>): (r: Result<OcrOutput>)
    ensures RouteFor(filename, mimeType).Err? ==> r.Err?
    ensures r.Ok? ==> reply.Ok? && r.value.rawText == RawText(reply.value)
    ensures r.Ok? ==> r.value.mimeType != [] && r.value.mimeType == EffectiveMime(RouteFor(filename, mimeType).value.mime)
  {
    match RouteFor(filename, mimeType)
    case Err(e) => Err(e)
    case Ok(route) =>
      var mime := EffectiveMime(route.mime);
      match reply
      case Err(e) => Err(e)
      case Ok(text) => Ok(OcrOutput(RawText(text), mime, EstimatePageCount(mime, pdfPages)))
  }
}
