/** File inspection and the text-extraction cascade of the verification service: the MIME
    hint and the magic bytes decide whether an upload is a PDF or an image, then the text comes
    from the PDF's own text layer, from Tesseract, or from the remote OCR service. The PDF
    reader, Tesseract and the OCR model's reply are parameters. */
module Inspect {
  import opened Wrappers
  import opened Text
  import opened DocModel
  import Ocr

  /** A byte of the uploaded file. */
  type Byte = b: int | 0 <= b < 256

  predicate BytesStartWith(content: seq<Byte>, sig: seq<Byte>) {
    |sig| <= |content| && content[..|sig|] == sig
  }

  /** `b"%PDF"` */
  const PdfMagic: seq<Byte> := [0x25, 0x50, 0x44, 0x46]

  /** The image signatures, in the order they are tried: JPEG, PNG, GIF, BMP. */
  const ImageSignatures: seq<seq<Byte>> := [
    [0xff, 0xd8, 0xff],
    [0x89, 0x50, 0x4e, 0x47],
    [0x47, 0x49, 0x46, 0x38],
    [0x42, 0x4d]]

  /** `b"RIFF"` and `b"WEBP"` */
  const Riff: seq<Byte> := [0x52, 0x49, 0x46, 0x46]
  const Webp: seq<Byte> := [0x57, 0x45, 0x42, 0x50]

  /** `_looks_like_image`: the content starts with one of the signatures, or is a RIFF
      container whose bytes 8 to 11 read `WEBP`. */
  function LooksLikeImage(content: seq<Byte>): (r: bool)
    ensures r <==>
      (exists k :: 0 <= k < |ImageSignatures| && BytesStartWith(content, ImageSignatures[k]))
      || (|content| >= 12 && content[..4] == Riff && content[8..12] == Webp)
    ensures content == [] ==> !r
  {
    if content == [] then false
    else SignatureFrom(content, 0) || (|content| >= 12 && content[..4] == Riff && content[8..12] == Webp)
  }

  /** The loop over the signatures, from the `k`-th on. */
  function SignatureFrom(content: seq<Byte>, k: nat): (r: bool)
    requires k <= |ImageSignatures|
    ensures r <==> exists j :: k <= j < |ImageSignatures| && BytesStartWith(content, ImageSignatures[j])
    decreases |ImageSignatures| - k
  {
    if k == |ImageSignatures| then false
    else BytesStartWith(content, ImageSignatures[k]) || SignatureFrom(content, k + 1)
  }

  /** `_inspect_file`: the lower-cased MIME type (octet-stream when empty), `upload` for a
      missing name, and the PDF and image flags, each the disjunction of the MIME hint and
      the magic bytes. */
  function InspectFile(content: seq<Byte>, mimeType: string, filename: string): (meta: FileMeta)
    ensures meta.isPdf <==> Contains(Lower(mimeType), "pdf") || (|content| >= 4 && content[..4] == PdfMagic)
    ensures meta.isImage <==> Contains(Lower(mimeType), "image/") || LooksLikeImage(content)
    ensures meta.mimeType != [] && meta.filename != []
    ensures mimeType != [] ==> meta.mimeType == Lower(mimeType)
  {
    var mt := Lower(mimeType);
    FileMeta(
      if filename != [] then filename else "upload",
      if mt != [] then mt else "application/octet-stream",
      Contains(mt, "pdf") || (|content| >= 4 && content[..4] == PdfMagic),
      Contains(mt, "image/") || LooksLikeImage(content))
  }

  /** Both flags can hold at once: a PDF declared with an image MIME type. */
  lemma {:induction false} PdfAndImageAtOnce(content: seq<Byte>)
    requires |content| >= 4 && content[..4] == PdfMagic
    ensures InspectFile(content, "image/png", "scan").isPdf
    ensures InspectFile(content, "image/png", "scan").isImage
  {
    var mt := Lower("image/png");
    assert mt == "image/png";
    assert mt[..6] == "image/";
    ContainsAt(mt, "image/", 0);
  }

  // ---------------------------------------------------------------------------------------
  // _extract_pdf_native
  // ---------------------------------------------------------------------------------------

  /** The pages that hold more than whitespace. */
  function NonBlank(parts: seq<string>): (r: seq<string>)
    ensures |r| <= |parts|
    ensures forall k :: 0 <= k < |r| ==> !IsBlank(r[k]) && r[k] in parts
    ensures forall p :: p in parts && !IsBlank(p) ==> p in r
  {
    if parts == [] then []
    else (if !IsBlank(parts[0]) then [parts[0]] else []) + NonBlank(parts[1..])
  }

  /** The filter distributes over concatenation, so the kept pages stay in reading order and
      a page that occurs twice is kept twice. */
  lemma {:induction false} NonBlankAppend(a: seq<string>, b: seq<string>)
    ensures NonBlank(a + b) == NonBlank(a) + NonBlank(b)
  {
    if a == [] {
      assert a + b == b;
    } else {
      assert (a + b)[1..] == a[1..] + b;
      NonBlankAppend(a[1..], b);
    }
  }

  /** `_extract_pdf_native`: the non-blank (`x.strip()` truthy, see `StripEmptyIffBlank`) page texts joined by blank lines and stripped, or
      the empty string when the reader raised (`pages` is `Err`). */
  function PdfNativeText(pages: Result<seq<string>>): string {
    match pages
    case Err(_) => ""
    case Ok(parts) => Strip(Join(NonBlank(parts), "\n\n"))
  }

  // ---------------------------------------------------------------------------------------
  // _extract_with_gemini_ocr
  // ---------------------------------------------------------------------------------------

  /** `re.search(r"\.(png|jpg|jpeg|webp|bmp|tiff)$", name)`: `$` also matches before a final
      line feed. */
  predicate HasImageExtension(name: string) {
    exists e :: e in ImageExtensions && (EndsWith(name, e) || EndsWith(name, e + "\n"))
  }

  const ImageExtensions: set<string> := {".png", ".jpg", ".jpeg", ".webp", ".bmp", ".tiff"}

  /** The name handed to the OCR service so that it can route the bytes: `.pdf` appended to a
      PDF whose name lacks it, then `.png` to an image whose name lacks an image extension. */
  function OcrFilename(meta: FileMeta): (name: string)
    ensures meta.isPdf && !EndsWith(Lower(meta.filename), ".pdf") && !meta.isImage ==> name == meta.filename + ".pdf"
    ensures !meta.isPdf && meta.isImage && HasImageExtension(Lower(meta.filename)) ==> name == meta.filename
  {
    var f1 := if meta.isPdf && !EndsWith(Lower(meta.filename), ".pdf") then meta.filename + ".pdf" else meta.filename;
    if meta.isImage && !HasImageExtension(Lower(f1)) then f1 + ".png" else f1
  }

  /** Every case of `OcrFilename`, and what it is for: an image always leaves with an image
      extension and a PDF that is not also an image with `.pdf`. */
  lemma {:induction false} OcrFilenameCases(meta: FileMeta)
    ensures var name := OcrFilename(meta);
      var lacksPdf := meta.isPdf && !EndsWith(Lower(meta.filename), ".pdf");
      && (lacksPdf && meta.isImage ==> name == meta.filename + ".pdf" + ".png")
      && (!lacksPdf && meta.isImage && !HasImageExtension(Lower(meta.filename)) ==> name == meta.filename + ".png")
      && (!lacksPdf && (!meta.isImage || HasImageExtension(Lower(meta.filename))) ==> name == meta.filename)
      && (meta.isImage ==> HasImageExtension(Lower(name)))
      && (meta.isPdf && !meta.isImage ==> EndsWith(Lower(name), ".pdf"))
  {
    if meta.isPdf && !EndsWith(Lower(meta.filename), ".pdf") {
      var f1 := meta.filename + ".pdf";
      PdfAppended(meta.filename);
      if meta.isImage {
        PngAppended(f1);
      }
    } else if meta.isImage && !HasImageExtension(Lower(meta.filename)) {
      PngAppended(meta.filename);
    }
  }

  /** A name with `.pdf` appended ends in `.pdf` and has no image extension once lowered. */
  lemma {:induction false} PdfAppended(s: string)
    ensures EndsWith(Lower(s + ".pdf"), ".pdf") && !HasImageExtension(Lower(s + ".pdf"))
  {
    LowerAppendExt(s, ".pdf");
    PdfNotImageExtension(Lower(s));
  }

  /** A name with `.png` appended has an image extension once lowered. */
  lemma {:induction false} PngAppended(s: string)
    ensures HasImageExtension(Lower(s + ".png"))
  {
    LowerAppendExt(s, ".png");
    PngIsImageExtension(Lower(s));
  }

  /** Lower-casing a name with an ASCII extension appended lower-cases the name alone. */
  lemma {:induction false} LowerAppendExt(s: string, ext: string)
    requires ext == ".pdf" || ext == ".png"
    ensures Lower(s + ext) == Lower(s) + ext
    ensures EndsWith(Lower(s + ext), ext)
  {
    assert Lower(ext) == ext;
    assert Lower(s + ext) == Lower(s) + Lower(ext);
  }

  /** A name ending in `.pdf` has none of the image extensions, not even before a line feed. */
  lemma {:induction false} PdfNotImageExtension(s: string)
    ensures !HasImageExtension(s + ".pdf")
  {
    var n := s + ".pdf";
    assert n[|n| - 1] == 'f' && n[|n| - 2] == 'd';
    forall e | e in ImageExtensions
      ensures !EndsWith(n, e) && !EndsWith(n, e + "\n")
    {
      assert e == ".png" || e == ".jpg" || e == ".jpeg" || e == ".webp" || e == ".bmp" || e == ".tiff";
      assert |e| >= 2 && (e[|e| - 2] != 'd' || e[|e| - 1] != 'f');
      EndsWithTail(n, e);
      EndsWithTail(n, e + "\n");
    }
  }

  lemma {:induction false} EndsWithTail(n: string, e: string)
    requires |e| >= 2
    ensures EndsWith(n, e) ==> n[|n| - 1] == e[|e| - 1] && n[|n| - 2] == e[|e| - 2]
  {
    if EndsWith(n, e) {
      assert n[|n| - |e|..][|e| - 1] == n[|n| - 1];
      assert n[|n| - |e|..][|e| - 2] == n[|n| - 2];
    }
  }

  lemma {:induction false} PngIsImageExtension(s: string)
    ensures HasImageExtension(s + ".png")
  {
    assert ".png" in ImageExtensions && EndsWith(s + ".png", ".png");
  }

  /** `_extract_with_gemini_ocr`: the stripped text of the OCR service, or the no-text marker
      when it raised or returned only whitespace. `reply` is the model's answer and `pdfPages`
      the PDF reader's page count. */
  function GeminiOcrText(meta: FileMeta, reply: Result<string>, pdfPages: Option<nat>): (text: string)
    ensures Strip(text) != []
  {
    match Ocr.ProcessDocumentBytes(OcrFilename(meta), meta.mimeType, reply, pdfPages)
    case Err(_) => SentinelNotBlank(); NoTextSentinel
    case Ok(out) =>
      var t := Strip(out.rawText);
      if t == [] then SentinelNotBlank(); NoTextSentinel
      else StripStripped(out.rawText); t
  }

  lemma {:induction false} SentinelNotBlank()
    ensures Strip(NoTextSentinel) != []
  {
    Ocr.SentinelStrips();
  }

  lemma {:induction false} StripStripped(s: string)
    requires Strip(s) != []
    ensures Strip(Strip(s)) == Strip(s)
  {
    Ocr.StripNonBlankFixed(Strip(s), s);
  }

  /** A non-PDF image named `.bmp` or `.tiff` keeps its name, which the OCR service refuses:
      such an upload ends as the no-text marker, whatever the model would have said. */
  lemma {:induction false} BmpAndTiffEndAsSentinel(meta: FileMeta, reply: Result<string>, pdfPages: Option<nat>)
    requires !meta.isPdf && meta.isImage
    requires Lower(Ocr.Suffix(meta.filename)) == ".bmp" || Lower(Ocr.Suffix(meta.filename)) == ".tiff"
    requires EndsWith(Lower(meta.filename), Lower(Ocr.Suffix(meta.filename)))
    ensures GeminiOcrText(meta, reply, pdfPages) == NoTextSentinel
  {
    var e := Lower(Ocr.Suffix(meta.filename));
    assert e in ImageExtensions;
    assert HasImageExtension(Lower(meta.filename));
    assert OcrFilename(meta) == meta.filename;
    Ocr.UnsupportedSuffix(meta.filename, meta.mimeType);
  }

  // ---------------------------------------------------------------------------------------
  // _extract_text
  // ---------------------------------------------------------------------------------------

  /** The outside world of the extraction cascade: the PDF reader's page texts, whether
      Tesseract is installed, Tesseract's output (`Err` when it raised), the OCR model's reply
      and the PDF reader's page count. */
  datatype Extractors = Extractors(
    pdfPages: Result<seq<string>>,
    tesseractAvailable: bool,
    tesseract: Result<string>,
    ocrReply: Result<string>,
    pageCount: Option<nat>)

  /** `_extract_text`: empty content gives the no-text marker; a PDF uses its own text when
      that has at least 80 characters once stripped and otherwise goes to the remote OCR; an
      image tries Tesseract first; everything else ends at the remote OCR. The text is never
      blank; the character count is its length, except for empty content, where the marker
      is reported with a count of 0. */
  function ExtractText(content: seq<Byte>, meta: FileMeta, env: Extractors): (r: ExtractedText)
    ensures r.extraction != NoMethod ==> r.charCount == |r.text|
    ensures r.extraction == NoMethod ==> r.text == NoTextSentinel && r.charCount == 0
    ensures Strip(r.text) != []
    ensures r.isEmpty == IsEmptyText(r.text)
  {
    if content == [] then
      SentinelNotBlank();
      ExtractedText(NoTextSentinel, NoMethod, 0, IsEmptyText(NoTextSentinel))
    else if meta.isPdf then
      var native := PdfNativeText(env.pdfPages);
      if native != [] && |Strip(native)| >= 80 then ExtractedText(native, PdfNative, |native|, IsEmptyText(native))
      else
        var text := GeminiOcrText(meta, env.ocrReply, env.pageCount);
        ExtractedText(text, GeminiOcr, |text|, IsEmptyText(text))
    else if meta.isImage && env.tesseractAvailable && env.tesseract.Ok? && Strip(env.tesseract.value) != [] then
      var txt := Strip(env.tesseract.value);
      StripStripped(env.tesseract.value);
      ExtractedText(txt, Tesseract, |txt|, IsEmptyText(txt))
    else
      var text := GeminiOcrText(meta, env.ocrReply, env.pageCount);
      ExtractedText(text, GeminiOcr, |text|, IsEmptyText(text))
  }

  /** Which extractor produced the text: a PDF never reaches Tesseract, and its own text layer
      is used only when it has at least 80 characters once stripped; Tesseract is used only on
      a non-PDF image with Tesseract installed and a non-blank result; no method at all only
      for empty content. */
  lemma {:induction false} ExtractionRoute(content: seq<Byte>, meta: FileMeta, env: Extractors)
    ensures var r := ExtractText(content, meta, env);
      && (meta.isPdf ==> r.extraction != Tesseract)
      && (r.extraction == PdfNative ==> meta.isPdf && |Strip(r.text)| >= 80)
      && (r.extraction == Tesseract ==> !meta.isPdf && meta.isImage && env.tesseractAvailable)
      && (r.extraction == NoMethod <==> content == [])
      && (content != [] && meta.isPdf && |Strip(PdfNativeText(env.pdfPages))| < 80 ==> r.extraction == GeminiOcr)
  {
  }
}
