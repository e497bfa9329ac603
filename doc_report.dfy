/** The two texts the verification service writes about a document: the one-line summary of
    its issues and the multi-line analysis report. How a confidence is printed with two
    decimals (`:.2f`) and how a non-string field value is printed (`str(v)`) are
    parameters. */
module Report {
  import opened Wrappers
  import opened Text
  import opened Json
  import opened DocModel
  import Ordering

  // ---------------------------------------------------------------------------------------
  // _issue_summary
  // ---------------------------------------------------------------------------------------

  /** `f"{severity.upper()} {field}: {description}"` */
  function SummaryPart(i: Issue): string {
    Upper(SeverityLabel(i.severity)) + " " + i.field + ": " + i.description()
  }

  /** The parts of the summary, one per issue, in order. */
  function SummaryParts(issues: seq<Issue>): (parts: seq<string>)
    ensures |parts| == |issues|
    decreases |issues|
  {
    if issues == [] then []
    else SummaryParts(issues[..|issues| - 1]) + [SummaryPart(issues[|issues| - 1])]
  }

  /** `_issue_summary`: nothing when there is no issue, otherwise the parts of the first
      `maxItems` issues joined by `"; "`. */
  function IssueSummary(issues: seq<Issue>, maxItems: nat): (r: Option<string>)
    ensures r.None? <==> issues == []
  {
    if issues == [] then None else Some(Join(SummaryParts(Ordering.Take(issues, maxItems)), "; "))
  }

  /** Each issue within the limit adds its own part after a separator; the summary of one
      issue is that issue's part. */
  lemma {:induction false} SummaryAppend(issues: seq<Issue>, i: Issue, maxItems: nat)
    requires |issues| + 1 <= maxItems
    ensures issues == [] ==> IssueSummary([i], maxItems) == Some(SummaryPart(i))
    ensures issues != [] ==>
      IssueSummary(issues + [i], maxItems) == Some(IssueSummary(issues, maxItems).value + "; " + SummaryPart(i))
  {
    var all := issues + [i];
    assert all[..|all| - 1] == issues;
    if issues == [] {
      assert SummaryParts([i]) == [SummaryPart(i)];
    } else {
      JoinAppend(SummaryParts(issues), SummaryPart(i), "; ");
    }
  }

  /** Issues past the limit leave the summary unchanged. */
  lemma {:induction false} SummaryIgnoresTail(issues: seq<Issue>, more: seq<Issue>, maxItems: nat)
    requires |issues| >= maxItems && issues != []
    ensures IssueSummary(issues + more, maxItems) == IssueSummary(issues, maxItems)
  {
    assert (issues + more)[..maxItems] == issues[..maxItems];
  }

  /** With a limit of zero the summary of a non-empty list is the empty string, not nothing. */
  lemma {:induction false} SummaryZeroLimit(issues: seq<Issue>)
    requires issues != []
    ensures IssueSummary(issues, 0) == Some("")
  {
  }

  // ---------------------------------------------------------------------------------------
  // _analysis_report
  // ---------------------------------------------------------------------------------------

  /** `extracted.method` */
  function MethodName(m: ExtractionMethod): string {
    match m
    case PdfNative => "pdf_native"
    case Tesseract => "tesseract"
    case GeminiOcr => "gemini_ocr"
    case NoMethod => "none"
  }

  /** `str(b)` */
  function BoolText(b: bool): string {
    if b then "True" else "False"
  }

  /** The first four lines: the document, the selected and detected types, and the text
      extraction. */
  function Header(docId: string, selected: NormType, detected: NormType, conf: real, formatConf: real -> string,
                  extracted: ExtractedText): seq<string> {
    ["Document " + docId + " verification report",
     "- Selected type: " + NormName(selected),
     "- Detected type: " + NormName(detected) + " (conf=" + formatConf(conf) + ")",
     "- OCR method: " + MethodName(extracted.extraction) + ", chars=" + NatToString(extracted.charCount)
       + ", empty=" + BoolText(extracted.isEmpty)]
  }

  /** The fields worth a preview, in the order they are shown. */
  const Interesting: seq<string> :=
    ["holder_name", "id_number", "date_of_birth", "bank_account", "policy_number", "claim_number", "incident_date"]

  /** `f"{v}"`: a string as it is, anything else as `render` prints it. */
  function Show(v: Value, render: Value -> string): string {
    if v.Str? then v.s else render(v)
  }

  /** `f"{k}={v}"` for every key of `keys` whose value is truthy, in the order of `keys`. */
  function Previews(fields: map<string, Value>, keys: seq<string>, render: Value -> string): (r: seq<string>)
    ensures |r| <= |keys|
    decreases |keys|
  {
    if keys == [] then []
    else
      var k := keys[|keys| - 1];
      Previews(fields, keys[..|keys| - 1], render)
        + (if k in fields && Truthy(fields[k]) then [k + "=" + Show(fields[k], render)] else [])
  }

  /** A preview line is written exactly when one of the keys holds a truthy value. */
  lemma {:induction false} PreviewsEmptyIff(fields: map<string, Value>, keys: seq<string>, render: Value -> string)
    ensures Previews(fields, keys, render) == [] <==> forall k :: k in keys && k in fields ==> !Truthy(fields[k])
    decreases |keys|
  {
    if keys != [] {
      var init := keys[..|keys| - 1];
      PreviewsEmptyIff(fields, init, render);
      assert keys == init + [keys[|keys| - 1]];
    }
  }

  /** `"- Extracted: " + ", ".join(previews[:6])`, when there is a preview. */
  function PreviewSection(fields: map<string, Value>, render: Value -> string): seq<string> {
    var previews := Previews(fields, Interesting, render);
    if previews == [] then [] else ["- Extracted: " + Join(Ordering.Take(previews, 6), ", ")]
  }

  /** The items of `keyword_hits` as (count, name) pairs, in the order of the dictionary. */
  function HitEntries(hits: seq<(NormType, nat)>): (es: seq<(int, string)>)
    ensures |es| == |hits|
    ensures forall k :: 0 <= k < |hits| ==> es[k] == (hits[k].1 as int, NormName(hits[k].0))
  {
    seq(|hits|, k requires 0 <= k < |hits| => (hits[k].1 as int, NormName(hits[k].0)))
  }

  /** `sorted(keyword_hits.items(), key=count, reverse=True)[:4]` */
  function TopHits(hits: seq<(NormType, nat)>): seq<(int, string)> {
    Ordering.Take(Ordering.StableSort(HitEntries(hits), Ordering.Greater), 4)
  }

  /** `f"{k}:{v}"` for each pair. */
  function HitTexts(top: seq<(int, string)>): (r: seq<string>)
    ensures |r| == |top|
    decreases |top|
  {
    if top == [] then []
    else HitTexts(top[..|top| - 1]) + [top[|top| - 1].1 + ":" + IntToString(top[|top| - 1].0)]
  }

  /** The keyword line, when some keyword was hit. */
  function HitSection(hits: seq<(NormType, nat)>): seq<string> {
    if hits == [] then [] else ["- Keyword hits: " + Join(HitTexts(TopHits(hits)), ", ")]
  }

  /** The keyword line names at most four categories, each one that was hit, in non-increasing
      order of count; every category left out has a count no larger than any shown; and
      categories with equal counts keep the order of the dictionary. */
  lemma {:induction false} TopHitsAreLargest(hits: seq<(NormType, nat)>)
    ensures |TopHits(hits)| == if |hits| < 4 then |hits| else 4
    ensures forall t :: t in TopHits(hits) ==> t in HitEntries(hits)
    ensures forall i, j :: 0 <= i < j < |TopHits(hits)| ==> TopHits(hits)[i].0 >= TopHits(hits)[j].0
    ensures forall e :: e in HitEntries(hits) ==> e in TopHits(hits) || forall t :: t in TopHits(hits) ==> t.0 >= e.0
    ensures forall c :: Ordering.KeyRun(TopHits(hits), c) <= Ordering.KeyRun(HitEntries(hits), c)
  {
    var es := HitEntries(hits);
    Ordering.GreaterIsStrictTotalOrder();
    Ordering.StableSortCorrect(es, Ordering.Greater);
    Ordering.StableSortLength(es, Ordering.Greater);
    Ordering.TopEntries(es, Ordering.StableSort(es, Ordering.Greater), 4);
  }

  /** `f" | suggestion: {s}"` when the suggestion is a non-empty string. */
  function SuggestionSuffix(s: Option<string>): string {
    if s.Some? && s.value != [] then " | suggestion: " + s.value else ""
  }

  /** `f"  * [{severity}] {field} ({issue_type}) {description}{sug}"` */
  function IssueLine(i: Issue): string {
    "  * [" + SeverityLabel(i.severity) + "] " + i.field + " (" + IssueTypeLabel(i.issueType) + ") "
      + i.description() + SuggestionSuffix(i.suggestion())
  }

  /** `[f(x) for x in xs]`, built from the back as the loops append. */
  function Render<T>(xs: seq<T>, f: T -> string): (r: seq<string>)
    ensures |r| == |xs|
    decreases |xs|
  {
    if xs == [] then [] else Render(xs[..|xs| - 1], f) + [f(xs[|xs| - 1])]
  }

  /** The issue lines: a heading and the first ten issues, or a line saying there is none. */
  function IssueSection(issues: seq<Issue>): seq<string> {
    if issues == [] then ["- Issues: none"] else ["- Issues:"] + Render(Ordering.Take(issues, 10), IssueLine)
  }

  /** The lines of `_analysis_report`, in order. */
  function ReportLines(docId: string, selected: NormType, detected: NormType, conf: real, formatConf: real -> string,
                       extracted: ExtractedText, fields: map<string, Value>, render: Value -> string,
                       issues: seq<Issue>, hits: seq<(NormType, nat)>): seq<string> {
    Header(docId, selected, detected, conf, formatConf, extracted)
      + PreviewSection(fields, render) + HitSection(hits) + IssueSection(issues)
  }

  /** Rendering a longer list extends the rendering of the shorter one. */
  lemma {:induction false} RenderPrefix<T>(xs: seq<T>, f: T -> string, n: nat)
    requires n <= |xs|
    ensures Render(xs[..n], f) == Render(xs, f)[..n]
    decreases |xs|
  {
    if n < |xs| {
      var init := xs[..|xs| - 1];
      assert xs[..n] == init[..n];
      RenderPrefix(init, f, n);
      assert Render(xs, f) == Render(init, f) + [f(xs[|xs| - 1])];
      assert (Render(init, f) + [f(xs[|xs| - 1])])[..n] == Render(init, f)[..n];
    } else {
      assert xs[..n] == xs;
    }
  }

  /** The `k`-th rendered line is `f` of the `k`-th element. */
  lemma {:induction false} RenderAt<T>(xs: seq<T>, f: T -> string, k: nat)
    requires k < |xs|
    ensures Render(xs, f)[k] == f(xs[k])
  {
    RenderPrefix(xs, f, k + 1);
    assert xs[..k + 1][..k] == xs[..k];
  }

  /** The report starts with the document line and has the four fixed lines, at most one
      preview line, a keyword line exactly when a keyword was hit, and one line for each of the
      first ten issues after a heading (or a single "none" line); it ends with the last issue
      shown. */
  lemma {:induction false} ReportLayout(docId: string, selected: NormType, detected: NormType, conf: real, formatConf: real -> string,
                     extracted: ExtractedText, fields: map<string, Value>, render: Value -> string,
                     issues: seq<Issue>, hits: seq<(NormType, nat)>)
    ensures var lines := ReportLines(docId, selected, detected, conf, formatConf, extracted, fields, render, issues, hits);
      var shown := if |issues| < 10 then |issues| else 10;
      && lines[0] == "Document " + docId + " verification report"
      && |lines| == 4 + |PreviewSection(fields, render)| + |HitSection(hits)| + 1 + shown
      && |PreviewSection(fields, render)| <= 1
      && (|HitSection(hits)| == 1 <==> hits != [])
      && (issues == [] ==> lines[|lines| - 1] == "- Issues: none")
      && (issues != [] ==> lines[|lines| - 1] == IssueLine(issues[shown - 1]))
  {
    var head := Header(docId, selected, detected, conf, formatConf, extracted);
    var pre, hit := PreviewSection(fields, render), HitSection(hits);
    var tail := IssueSection(issues);
    IssueSectionShape(issues);
    SectionSizes(fields, render, hits);
    HeaderShape(docId, selected, detected, conf, formatConf, extracted);
    ConcatLayout(head, pre, hit, tail);
  }

  lemma {:induction false} HeaderShape(docId: string, selected: NormType, detected: NormType, conf: real, formatConf: real -> string,
                    extracted: ExtractedText)
    ensures var head := Header(docId, selected, detected, conf, formatConf, extracted);
      |head| == 4 && head[0] == "Document " + docId + " verification report"
  {
  }

  lemma {:induction false} ConcatLayout(head: seq<string>, pre: seq<string>, hit: seq<string>, tail: seq<string>)
    requires head != [] && tail != []
    ensures var all := head + pre + hit + tail;
      |all| == |head| + |pre| + |hit| + |tail| && all[0] == head[0] && all[|all| - 1] == tail[|tail| - 1]
  {
  }

  lemma {:induction false} SectionSizes(fields: map<string, Value>, render: Value -> string, hits: seq<(NormType, nat)>)
    ensures |PreviewSection(fields, render)| <= 1
    ensures |HitSection(hits)| == 1 <==> hits != []
  {
  }

  /** The issue section has a heading and one line per shown issue, the last shown issue at
      the end, or only the "none" line. */
  lemma {:induction false} IssueSectionShape(issues: seq<Issue>)
    ensures var shown := if |issues| < 10 then |issues| else 10;
      && |IssueSection(issues)| == 1 + shown
      && (issues == [] ==> IssueSection(issues)[0] == "- Issues: none")
      && (issues != [] ==> IssueSection(issues)[shown] == IssueLine(issues[shown - 1]))
  {
    if issues != [] {
      var taken := Ordering.Take(issues, 10);
      var body := Render(taken, IssueLine);
      assert IssueSection(issues) == ["- Issues:"] + body;
      RenderAt(taken, IssueLine, |taken| - 1);
      assert taken[|taken| - 1] == issues[|taken| - 1];
      HeadedLast("- Issues:", body);
    }
  }

  lemma {:induction false} HeadedLast(heading: string, body: seq<string>)
    requires body != []
    ensures |[heading] + body| == 1 + |body| && ([heading] + body)[|body|] == body[|body| - 1]
  {
  }

  /** Issues past the tenth leave the report unchanged. */
  lemma {:induction false} ReportIgnoresTail(docId: string, selected: NormType, detected: NormType, conf: real, formatConf: real -> string,
                          extracted: ExtractedText, fields: map<string, Value>, render: Value -> string,
                          issues: seq<Issue>, more: seq<Issue>, hits: seq<(NormType, nat)>)
    requires |issues| >= 10
    ensures ReportLines(docId, selected, detected, conf, formatConf, extracted, fields, render, issues + more, hits)
         == ReportLines(docId, selected, detected, conf, formatConf, extracted, fields, render, issues, hits)
  {
    assert Ordering.Take(issues + more, 10) == Ordering.Take(issues, 10);
  }

  /** `_analysis_report`: the lines are appended one by one and joined by line feeds. */
  method AnalysisReport(docId: string, selected: NormType, detected: NormType, conf: real, formatConf: real -> string,
                        extracted: ExtractedText, fields: map<string, Value>, render: Value -> string,
                        issues: seq<Issue>, hits: seq<(NormType, nat)>)
    returns (report: string)
    ensures report == Join(ReportLines(docId, selected, detected, conf, formatConf, extracted, fields, render, issues, hits), "\n")
  {
    var lines := Header(docId, selected, detected, conf, formatConf, extracted);
    var extractedLine := PreviewLinesOf(fields, render);
    lines := lines + extractedLine;
    var hitLine := HitLinesOf(hits);
    lines := lines + hitLine;
    var issueLines := IssueLinesOf(issues);
    lines := lines + issueLines;
    report := Join(lines, "\n");
  }

  /** The preview line, when there is a preview. */
  method PreviewLinesOf(fields: map<string, Value>, render: Value -> string) returns (lines: seq<string>)
    ensures lines == PreviewSection(fields, render)
  {
    var previews := CollectPreviews(fields, render);
    lines := [];
    if previews != [] {
      lines := ["- Extracted: " + Join(Ordering.Take(previews, 6), ", ")];
    }
  }

  /** The keyword line: the four largest counts, ties in dictionary order. */
  method HitLinesOf(hits: seq<(NormType, nat)>) returns (lines: seq<string>)
    ensures lines == HitSection(hits)
  {
    lines := [];
    if hits != [] {
      var top := TopHits(hits);
      lines := ["- Keyword hits: " + Join(HitTexts(top), ", ")];
    }
  }

  /** The preview loop over the interesting keys. */
  method CollectPreviews(fields: map<string, Value>, render: Value -> string) returns (previews: seq<string>)
    ensures previews == Previews(fields, Interesting, render)
  {
    previews := [];
    var j := 0;
    while j < |Interesting|
      invariant j <= |Interesting|
      invariant previews == Previews(fields, Interesting[..j], render)
    {
      var k := Interesting[j];
      assert Interesting[..j + 1][..j] == Interesting[..j];
      if k in fields && Truthy(fields[k]) {
        previews := previews + [k + "=" + Show(fields[k], render)];
      }
      j := j + 1;
    }
    assert Interesting[..j] == Interesting;
  }

  /** The issue lines: the loop over the first ten issues. */
  method IssueLinesOf(issues: seq<Issue>) returns (lines: seq<string>)
    ensures lines == IssueSection(issues)
  {
    if issues == [] {
      return ["- Issues: none"];
    }
    var shown := Ordering.Take(issues, 10);
    var body: seq<string> := [];
    var j := 0;
    while j < |shown|
      invariant j <= |shown|
      invariant body == Render(shown[..j], IssueLine)
    {
      assert shown[..j + 1][..j] == shown[..j];
      body := body + [IssueLine(shown[j])];
      j := j + 1;
    }
    assert shown[..j] == shown;
    lines := ["- Issues:"] + body;
  }
}
