/** The decision ladder and the confidence score of the verification service. */
module Decision {
  import opened Json
  import opened DocModel
  import Validate

  // ---------------------------------------------------------------------------------------
  // _decide
  // ---------------------------------------------------------------------------------------

  predicate HasSeverity(issues: seq<Issue>, sev: Severity) {
    exists i :: i in issues && i.severity == sev
  }

  /** `_decide`: the status and the compliance flag, first rule wins: any critical issue
      rejects; photo evidence with no high issue is verified; a high issue leaves the document
      partially compliant and not compliant; a medium issue partially compliant but
      compliant; otherwise verified. */
  function Decide(profile: Profile, selected: NormType, issues: seq<Issue>): (VerificationStatus, bool) {
    if HasSeverity(issues, Critical) then (Rejected, false)
    else if selected == EvidenceOfDamage && profile.goodEnoughIfImage && !HasSeverity(issues, High) then (Verified, true)
    else if HasSeverity(issues, High) then (PartiallyCompliant, false)
    else if HasSeverity(issues, Medium) then (PartiallyCompliant, true)
    else (Verified, true)
  }

  /** Compliance is exactly the absence of critical and high issues; the status is rejected
      exactly for a critical issue, and is never "needs review" (nor pending or processing). */
  lemma {:induction false} DecideOutcomes(profile: Profile, selected: NormType, issues: seq<Issue>)
    ensures Decide(profile, selected, issues).1 <==> !HasSeverity(issues, Critical) && !HasSeverity(issues, High)
    ensures Decide(profile, selected, issues).0 == Rejected <==> HasSeverity(issues, Critical)
    ensures Decide(profile, selected, issues).0 in {Verified, Rejected, PartiallyCompliant}
    ensures Decide(profile, selected, issues).0 != NeedsReview
  {
  }

  /** The photo-evidence exception: with its profile, a damage photo with no critical and no
      high issue is verified even when medium issues are present, where any other type with
      the same issues would be partially compliant. */
  lemma {:induction false} EvidenceException(selected: NormType, issues: seq<Issue>)
    requires !HasSeverity(issues, Critical) && !HasSeverity(issues, High) && HasSeverity(issues, Medium)
    ensures selected == EvidenceOfDamage ==> Decide(ProfileOf(selected), selected, issues) == (Verified, true)
    ensures selected != EvidenceOfDamage ==> Decide(ProfileOf(selected), selected, issues) == (PartiallyCompliant, true)
  {
  }

  // ---------------------------------------------------------------------------------------
  // _score_confidence
  // ---------------------------------------------------------------------------------------

  /** `sev_pen.get(severity, 6)` */
  function Penalty(sev: Severity): (p: nat)
    ensures 3 <= p <= 35
  {
    match sev
    case Critical => 35
    case High => 18
    case Medium => 8
    case Low => 3
    case OtherSeverity => 6
  }

  /** The sum of the penalties of `issues`. */
  function SumPenalty(issues: seq<Issue>): (r: nat)
    ensures r >= 3 * |issues|
    decreases |issues|
  {
    if issues == [] then 0
    else SumPenalty(issues[..|issues| - 1]) + Penalty(issues[|issues| - 1].severity)
  }

  /** `min(1.0, char_count / 1200.0)` */
  function OcrQuality(charCount: nat): (q: real)
    ensures 0.0 <= q <= 1.0
  {
    if charCount as real / 1200.0 < 1.0 then charCount as real / 1200.0 else 1.0
  }

  /** The number of required fields present: not absent, not null, and not a blank string. */
  function Found(required: seq<string>, fields: map<string, Value>): (r: nat)
    ensures r <= |required|
    decreases |required|
  {
    if required == [] then 0
    else
      var n := |required| - 1;
      Found(required[..n], fields) + (if Validate.IsMissing(fields, required[n]) then 0 else 1)
  }

  /** `found / max(1, len(required))`, or 1 when nothing is required. */
  function Completeness(required: seq<string>, fields: map<string, Value>): (c: real)
    ensures 0.0 <= c <= 1.0
  {
    if required == [] then 1.0 else Found(required, fields) as real / |required| as real
  }

  /** The score before clamping: the base from type confidence, completeness and OCR quality,
      less the issue penalties, the mismatch penalty and the empty-text penalty. */
  function RawScore(profile: Profile, selected: NormType, detected: NormType, detectedConf: real,
                    extracted: ExtractedText, fields: map<string, Value>, issues: seq<Issue>): real {
    25.0 + 35.0 * detectedConf + 25.0 * Completeness(profile.requiredFields, fields) + 15.0 * OcrQuality(extracted.charCount)
    - SumPenalty(issues) as real
    - (if Validate.TypeMismatch(selected, detected) then 10.0 else 0.0)
    - (if extracted.isEmpty && !profile.allowEmptyText then 15.0 else 0.0)
  }

  /** `max(0.0, min(98.0, x))` */
  function Clamp(x: real): (r: real)
    ensures 0.0 <= r <= 98.0
    ensures 0.0 <= x <= 98.0 ==> r == x
  {
    if x < 0.0 then 0.0 else if x > 98.0 then 98.0 else x
  }

  /** Python's `round` on a number: to the nearest integer, ties to the even one. */
  function RoundHalfEven(x: real): (n: int)
    ensures x - 0.5 <= n as real <= x + 0.5
    ensures x == x.Floor as real + 0.5 ==> n % 2 == 0
    ensures x != x.Floor as real + 0.5 ==> x - 0.5 < n as real < x + 0.5
  {
    var f := x.Floor;
    var frac := x - f as real;
    if frac < 0.5 then f
    else if frac > 0.5 then f + 1
    else if f % 2 == 0 then f else f + 1
  }

  /** The confidence score `_score_confidence` returns. */
  function Score(profile: Profile, selected: NormType, detected: NormType, detectedConf: real,
                 extracted: ExtractedText, fields: map<string, Value>, issues: seq<Issue>): int {
    RoundHalfEven(Clamp(RawScore(profile, selected, detected, detectedConf, extracted, fields, issues)))
  }

  /** `_score_confidence`: the loops count the present required fields and subtract the issue
      penalties one by one. */
  method ScoreConfidence(profile: Profile, selected: NormType, detected: NormType, detectedConf: real,
                         extracted: ExtractedText, fields: map<string, Value>, issues: seq<Issue>)
    returns (score: int)
    ensures score == Score(profile, selected, detected, detectedConf, extracted, fields, issues)
    ensures 0 <= score <= 98
  {
    var s := RawScoreOf(profile, selected, detected, detectedConf, extracted, fields, issues);
    s := if s > 98.0 then 98.0 else s;
    s := if s < 0.0 then 0.0 else s;
    assert s == Clamp(RawScore(profile, selected, detected, detectedConf, extracted, fields, issues));
    score := RoundHalfEven(s);
    ScoreBounds(profile, selected, detected, detectedConf, extracted, fields, issues);
  }

  /** The unclamped score, as `_score_confidence` accumulates it. */
  method RawScoreOf(profile: Profile, selected: NormType, detected: NormType, detectedConf: real,
                    extracted: ExtractedText, fields: map<string, Value>, issues: seq<Issue>)
    returns (s: real)
    ensures s == RawScore(profile, selected, detected, detectedConf, extracted, fields, issues)
  {
    var completeness := CompletenessOf(profile.requiredFields, fields);
    var penalty := SumPenalties(issues);
    // the base, less the issue, mismatch and unreadable-text penalties
    s := 25.0 + 35.0 * detectedConf + 25.0 * completeness + 15.0 * OcrQuality(extracted.charCount)
      - penalty as real
      - (if Validate.TypeMismatch(selected, detected) then 10.0 else 0.0)
      - (if extracted.isEmpty && !profile.allowEmptyText then 15.0 else 0.0);
  }

  /** `found / max(1, len(required))`, with 1.0 when no field is required. */
  method CompletenessOf(required: seq<string>, fields: map<string, Value>) returns (completeness: real)
    ensures completeness == Completeness(required, fields)
  {
    completeness := 1.0;
    if required != [] {
      var found := CountFound(required, fields);
      var denominator := if |required| > 1 then |required| else 1;
      assert denominator == |required|;
      completeness := found as real / denominator as real;
    }
  }

  /** The loop counting the required fields that are present. */
  method CountFound(required: seq<string>, fields: map<string, Value>) returns (found: nat)
    ensures found == Found(required, fields)
  {
    found := 0;
    var j := 0;
    while j < |required|
      invariant j <= |required|
      invariant found == Found(required[..j], fields)
    {
      assert required[..j + 1][..j] == required[..j];
      if !Validate.IsMissing(fields, required[j]) {
        found := found + 1;
      }
      j := j + 1;
    }
    assert required[..j] == required;
  }

  /** The loop subtracting the severity penalty of every issue, as one total. */
  method SumPenalties(issues: seq<Issue>) returns (total: nat)
    ensures total == SumPenalty(issues)
  {
    total := 0;
    var k := 0;
    while k < |issues|
      invariant k <= |issues|
      invariant total == SumPenalty(issues[..k])
    {
      assert issues[..k + 1][..k] == issues[..k];
      total := total + Penalty(issues[k].severity);
      k := k + 1;
    }
    assert issues[..k] == issues;
  }

  /** The score is an integer between 0 and 98: never 100. */
  lemma {:induction false} ScoreBounds(profile: Profile, selected: NormType, detected: NormType, detectedConf: real,
                    extracted: ExtractedText, fields: map<string, Value>, issues: seq<Issue>)
    ensures 0 <= Score(profile, selected, detected, detectedConf, extracted, fields, issues) <= 98
  {
    var x := Clamp(RawScore(profile, selected, detected, detectedConf, extracted, fields, issues));
    if x == 98.0 {
      assert x.Floor == 98;
    }
  }

  /** Rounding half to even never reverses the order of two numbers. */
  lemma {:induction false} RoundMonotone(x: real, y: real)
    requires x <= y
    ensures RoundHalfEven(x) <= RoundHalfEven(y)
  {
    var fx, fy := x.Floor, y.Floor;
    if fx == fy {
      assert x - fx as real <= y - fy as real;
    }
  }

  /** Each issue costs its own penalty: appending one lowers the raw score by exactly that. */
  lemma {:induction false} RawScoreAppend(profile: Profile, selected: NormType, detected: NormType, detectedConf: real,
                       extracted: ExtractedText, fields: map<string, Value>, issues: seq<Issue>, extra: Issue)
    ensures RawScore(profile, selected, detected, detectedConf, extracted, fields, issues + [extra])
      == RawScore(profile, selected, detected, detectedConf, extracted, fields, issues) - Penalty(extra.severity) as real
  {
    assert (issues + [extra])[..|issues|] == issues;
  }

  /** With everything else fixed, one more issue never raises the score. */
  lemma {:induction false} MoreIssuesNeverRaise(profile: Profile, selected: NormType, detected: NormType, detectedConf: real,
                             extracted: ExtractedText, fields: map<string, Value>, issues: seq<Issue>, extra: Issue)
    ensures Score(profile, selected, detected, detectedConf, extracted, fields, issues + [extra])
      <= Score(profile, selected, detected, detectedConf, extracted, fields, issues)
  {
    RawScoreAppend(profile, selected, detected, detectedConf, extracted, fields, issues, extra);
    var a := RawScore(profile, selected, detected, detectedConf, extracted, fields, issues + [extra]);
    var b := RawScore(profile, selected, detected, detectedConf, extracted, fields, issues);
    assert Clamp(a) <= Clamp(b);
    RoundMonotone(Clamp(a), Clamp(b));
  }

  /** The presence test of the score is the exact complement of the missing test of the
      required-field pass. */
  lemma {:induction false} FoundComplementsMissing(required: seq<string>, fields: map<string, Value>)
    ensures Found(required, fields) + |Validate.MissingFields(required, fields)| == |required|
    decreases |required|
  {
    if required != [] {
      FoundComplementsMissing(required[..|required| - 1], fields);
    }
  }

  /** So completeness is one less the share of required fields reported missing. */
  lemma {:induction false} CompletenessFromMissing(required: seq<string>, fields: map<string, Value>)
    requires required != []
    ensures Completeness(required, fields)
      == 1.0 - |Validate.MissingIssues(Validate.MissingFields(required, fields))| as real / |required| as real
  {
    FoundComplementsMissing(required, fields);
    var missing := Validate.MissingFields(required, fields);
    assert |Validate.MissingIssues(missing)| == |missing|;
    ShareComplement(Found(required, fields), |missing|, |required|);
  }

  lemma {:induction false} ShareComplement(found: nat, missing: nat, total: nat)
    requires total > 0 && found + missing == total
    ensures found as real / total as real == 1.0 - missing as real / total as real
  {
    var t := total as real;
    var m := missing as real;
    assert t / t == 1.0;
    DivideDifference(t, m, t);
    assert found as real == t - m;
  }

  lemma {:induction false} DivideDifference(a: real, b: real, t: real)
    requires t > 0.0
    ensures a / t - b / t == (a - b) / t
  {
    assert (a / t) * t == a;
    assert (b / t) * t == b;
    assert ((a - b) / t) * t == a - b;
  }
}
