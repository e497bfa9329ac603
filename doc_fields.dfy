/** `extract_fields_regex`: the account number, bank code, dates, amounts and labelled values
    found in a document's text by the fixed patterns of the verification service. The
    regular expressions are modelled as deterministic scanners that give the same match as
    Python's backtracking engine; each scanner is tied to the shape its pattern describes. */
module Fields {
  import opened Wrappers
  import opened Text
  import opened Json
  import opened Ordering
  import opened Dates

  // ---------------------------------------------------------------------------------------
  // Regex primitives
  // ---------------------------------------------------------------------------------------

  /** `\b` in front of a word character at `i`. */
  predicate WordStart(s: string, i: nat) {
    i == 0 || (i <= |s| && !IsWordChar(s[i - 1]))
  }

  /** `\b` behind a word character that ends at `e`. */
  predicate WordEnd(s: string, e: nat) {
    e >= |s| || !IsWordChar(s[e])
  }

  /** The length of the longest run of characters satisfying `p` from `i` (a greedy `p*`). */
  function Run(s: string, i: nat, p: char -> bool): (n: nat)
    ensures i <= |s| ==> i + n <= |s|
    ensures forall k :: i <= k < i + n ==> k < |s| && p(s[k])
    ensures i + n < |s| ==> !p(s[i + n])
    decreases |s| - i
  {
    if i < |s| && p(s[i]) then 1 + Run(s, i + 1, p) else 0
  }

  /** `re.search` / the first `finditer` match: the leftmost position from `i` on where
      the pattern `at` matches. */
  function Leftmost<X>(s: string, i: nat, at: (string, nat) -> Option<X>): (r: Option<nat>)
    ensures r.Some? ==> i <= r.value <= |s| && at(s, r.value).Some?
    ensures forall j :: i <= j <= |s| && (r.None? || j < r.value) ==> at(s, j).None?
    decreases |s| + 1 - i
  {
    if i > |s| then None
    else if at(s, i).Some? then Some(i)
    else Leftmost(s, i + 1, at)
  }

  // ---------------------------------------------------------------------------------------
  // Account number: \b([A-Z]{2}\d{2}[A-Z0-9]{11,30})\b on the compacted upper-cased text
  // ---------------------------------------------------------------------------------------

  /** The shape of an account number: two letters, two digits, 11 to 30 letters or digits. */
  predicate IbanShaped(m: string) {
    && 15 <= |m| <= 34
    && IsUpperLetter(m[0]) && IsUpperLetter(m[1]) && IsDigit(m[2]) && IsDigit(m[3])
    && forall k :: 0 <= k < |m| ==> IsUpperAlnum(m[k])
  }

  /** The length of the account-number match starting at `i`. The greedy `{11,30}` can only
      end where `\b` holds, so the run of letters and digits after the check digits must
      stop at a non-word character. */
  function IbanAt(u: string, i: nat): (r: Option<nat>)
    ensures r.Some? ==> i + r.value <= |u|
  {
    if i + 4 <= |u| && WordStart(u, i)
      && IsUpperLetter(u[i]) && IsUpperLetter(u[i + 1]) && IsDigit(u[i + 2]) && IsDigit(u[i + 3])
    then
      var n := Run(u, i + 4, IsUpperAlnum);
      if 11 <= n <= 30 && WordEnd(u, i + 4 + n) then Some(4 + n) else None
    else None
  }

  /** The scanner matches exactly the word-delimited account-number shapes. */
  lemma {:induction false} IbanAtCorrect(u: string, i: nat, n: nat)
    requires i + n <= |u|
    ensures IbanAt(u, i) == Some(n) <==> WordStart(u, i) && WordEnd(u, i + n) && IbanShaped(u[i..i + n])
  {
    var m := u[i..i + n];
    if IbanAt(u, i) == Some(n) {
      forall k | 0 <= k < |m| ensures IsUpperAlnum(m[k]) {
        assert m[k] == u[i + k];
      }
    }
    if WordStart(u, i) && WordEnd(u, i + n) && IbanShaped(m) {
      assert m[0] == u[i] && m[1] == u[i + 1] && m[2] == u[i + 2] && m[3] == u[i + 3];
      forall k | i + 4 <= k < i + n ensures IsUpperAlnum(u[k]) {
        assert u[k] == m[k - i];
      }
      var r := Run(u, i + 4, IsUpperAlnum);
      assert r == n - 4;
    }
  }

  /** The account number of the text: the first match in the text upper-cased with all
      whitespace removed. */
  function IbanFound(t: string): (r: Option<string>)
    ensures r.Some? ==> IbanShaped(r.value)
  {
    var u := RemoveSpaces(Upper(t));
    match Leftmost(u, 0, IbanAt)
    case None => None
    case Some(p) =>
      var n := IbanAt(u, p).value;
      IbanAtCorrect(u, p, n);
      Some(u[p..p + n])
  }

  // ---------------------------------------------------------------------------------------
  // Bank code: \b([A-Z]{4}[A-Z]{2}[A-Z0-9]{2}([A-Z0-9]{3})?)\b on the upper-cased text
  // ---------------------------------------------------------------------------------------

  /** Six letters, then two or five letters or digits. */
  predicate BicShaped(m: string) {
    && (|m| == 8 || |m| == 11)
    && (forall k :: 0 <= k < 6 ==> IsUpperLetter(m[k]))
    && forall k :: 0 <= k < |m| ==> IsUpperAlnum(m[k])
  }

  /** The length of the bank-code match at `i`: the optional group is tried first. */
  function BicAt(u: string, i: nat): (r: Option<nat>)
    ensures r.Some? ==> i + r.value <= |u|
  {
    if i + 8 <= |u| && WordStart(u, i)
      && (forall k :: i <= k < i + 6 ==> IsUpperLetter(u[k])) && IsUpperAlnum(u[i + 6]) && IsUpperAlnum(u[i + 7])
    then
      if i + 11 <= |u| && IsUpperAlnum(u[i + 8]) && IsUpperAlnum(u[i + 9]) && IsUpperAlnum(u[i + 10])
        && WordEnd(u, i + 11)
      then Some(11)
      else if WordEnd(u, i + 8) then Some(8)
      else None
    else None
  }

  /** The scanner matches exactly the word-delimited bank-code shapes. */
  lemma {:induction false} BicAtCorrect(u: string, i: nat, n: nat)
    requires i + n <= |u|
    ensures BicAt(u, i) == Some(n) <==> WordStart(u, i) && WordEnd(u, i + n) && BicShaped(u[i..i + n])
  {
    var m := u[i..i + n];
    if BicAt(u, i) == Some(n) {
      forall k | 0 <= k < |m| ensures IsUpperAlnum(m[k]) && (k < 6 ==> IsUpperLetter(m[k])) {
        assert m[k] == u[i + k];
      }
    }
    if WordStart(u, i) && WordEnd(u, i + n) && BicShaped(m) {
      forall k | i <= k < i + n ensures IsUpperAlnum(u[k]) && (k < i + 6 ==> IsUpperLetter(u[k])) {
        assert u[k] == m[k - i];
      }
    }
  }

  /** The bank code of the text: the first match in the upper-cased text. */
  function BicFound(t: string): (r: Option<string>)
    ensures r.Some? ==> BicShaped(r.value)
  {
    var u := Upper(t);
    match Leftmost(u, 0, BicAt)
    case None => None
    case Some(p) =>
      var n := BicAt(u, p).value;
      BicAtCorrect(u, p, n);
      Some(u[p..p + n])
  }

  // ---------------------------------------------------------------------------------------
  // Dates: \b(\d{1,2}[\/\-.]\d{1,2}[\/\-.]\d{2,4}|\d{4}[\/\-.]\d{1,2}[\/\-.]\d{1,2})\b
  // ---------------------------------------------------------------------------------------

  predicate IsDateSep(c: char) {
    c == '/' || c == '-' || c == '.'
  }

  /** `m` is a date candidate whose separators sit at `a` and `b`: one or two digits, one or
      two digits, two to four digits; or four digits, one or two, one or two. */
  predicate DateShaped(m: string, a: nat, b: nat) {
    && 0 < a && a + 1 < b && b + 1 < |m|
    && IsDateSep(m[a]) && IsDateSep(m[b])
    && (forall k :: 0 <= k < |m| && k != a && k != b ==> IsDigit(m[k]))
    && b - a - 1 <= 2
    && ((a <= 2 && 2 <= |m| - b - 1 <= 4) || (a == 4 && |m| - b - 1 <= 2))
  }

  /** The length of the date match at `i`. Each digit group must be a whole run of digits,
      since the next character has to be a separator or a `\b`. */
  function DateAt(t: string, i: nat): (r: Option<nat>)
    ensures r.Some? ==> 1 <= r.value && i + r.value <= |t|
  {
    if i < |t| && WordStart(t, i) then
      var d1 := Run(t, i, IsDigit);
      if d1 == 0 || i + d1 >= |t| || !IsDateSep(t[i + d1]) then None
      else
        var j := i + d1 + 1;
        var d2 := Run(t, j, IsDigit);
        if d2 == 0 || d2 > 2 || j + d2 >= |t| || !IsDateSep(t[j + d2]) then None
        else
          var k := j + d2 + 1;
          var d3 := Run(t, k, IsDigit);
          if d1 <= 2 && 2 <= d3 <= 4 && WordEnd(t, k + d3) then Some(k + d3 - i)
          else if d1 == 4 && 1 <= d3 <= 2 && WordEnd(t, k + d3) then Some(k + d3 - i)
          else None
    else None
  }

  /** Every date match is a word-delimited date candidate. */
  lemma {:induction false} DateAtSound(t: string, i: nat) returns (a: nat, b: nat)
    requires DateAt(t, i).Some?
    ensures var n := DateAt(t, i).value;
      WordStart(t, i) && WordEnd(t, i + n) && DateShaped(t[i..i + n], a, b)
  {
    var n := DateAt(t, i).value;
    var m := t[i..i + n];
    a := Run(t, i, IsDigit);
    var d2 := Run(t, i + a + 1, IsDigit);
    b := a + 1 + d2;
    assert m[a] == t[i + a] && m[b] == t[i + b];
    forall k | 0 <= k < |m| && k != a && k != b ensures IsDigit(m[k]) {
      assert m[k] == t[i + k];
    }
  }

  /** Every word-delimited date candidate is matched, with its full length. */
  lemma {:induction false} DateAtComplete(t: string, i: nat, n: nat, a: nat, b: nat)
    requires i + n <= |t| && WordStart(t, i) && WordEnd(t, i + n) && DateShaped(t[i..i + n], a, b)
    ensures DateAt(t, i) == Some(n)
  {
    RunsOfShape(t, i, n, a, b);
    DateAtOfRuns(t, i, a, b, n);
  }

  /** The three digit groups of a date candidate are whole runs of digits in the text. */
  lemma {:induction false} RunsOfShape(t: string, i: nat, n: nat, a: nat, b: nat)
    requires i + n <= |t| && WordEnd(t, i + n) && DateShaped(t[i..i + n], a, b)
    ensures IsDateSep(t[i + a]) && IsDateSep(t[i + b])
    ensures Run(t, i, IsDigit) == a && Run(t, i + a + 1, IsDigit) == b - a - 1
    ensures Run(t, i + b + 1, IsDigit) == n - b - 1
  {
    var m := t[i..i + n];
    assert t[i + a] == m[a] && t[i + b] == m[b];
    GroupRun(t, m, i, 0, a);
    GroupRun(t, m, i, a + 1, b);
    if i + n < |t| {
      assert !IsDigit(t[i + n]);
    }
    GroupRun(t, m, i, b + 1, n);
  }

  /** A stretch of digits of `m`, where `m` sits at `i` in `t`, followed in `t` by a non-digit
      or the end, is a whole run. */
  lemma {:induction false} GroupRun(t: string, m: string, i: nat, lo: nat, hi: nat)
    requires i + |m| <= |t| && m == t[i..i + |m|] && lo <= hi <= |m|
    requires forall k :: lo <= k < hi ==> IsDigit(m[k])
    requires i + hi < |t| ==> !IsDigit(t[i + hi])
    ensures Run(t, i + lo, IsDigit) == hi - lo
  {
    SliceDigits(t, m, i, lo, hi);
    RunIs(t, i + lo, hi - lo, IsDigit);
  }

  lemma {:induction false} SliceDigits(t: string, m: string, i: nat, lo: nat, hi: nat)
    requires i + |m| <= |t| && m == t[i..i + |m|] && lo <= hi <= |m|
    requires forall k :: lo <= k < hi ==> IsDigit(m[k])
    ensures forall k :: i + lo <= k < i + hi ==> IsDigit(t[k])
  {
    forall k | i + lo <= k < i + hi ensures IsDigit(t[k]) {
      assert t[k] == m[k - i];
    }
  }

  /** `DateAt` once the three digit runs and the two separators are known. */
  lemma {:induction false} DateAtOfRuns(t: string, i: nat, a: nat, b: nat, n: nat)
    requires i + n <= |t| && WordStart(t, i) && WordEnd(t, i + n)
    requires 0 < a && a + 1 < b && b + 1 < n && b - a - 1 <= 2
    requires Run(t, i, IsDigit) == a && IsDateSep(t[i + a])
    requires Run(t, i + a + 1, IsDigit) == b - a - 1 && IsDateSep(t[i + b])
    requires Run(t, i + b + 1, IsDigit) == n - b - 1
    requires (a <= 2 && 2 <= n - b - 1 <= 4) || (a == 4 && n - b - 1 <= 2)
    ensures DateAt(t, i) == Some(n)
  {
    assert i + a + 1 + (b - a - 1) == i + b;
  }

  /** A run of `len` characters that satisfy `p`, followed by one that does not or by the end. */
  lemma {:induction false} RunIs(s: string, i: nat, len: nat, p: char -> bool)
    requires i + len <= |s| && (forall k :: i <= k < i + len ==> p(s[k])) && (i + len < |s| ==> !p(s[i + len]))
    ensures Run(s, i, p) == len
  {
  }

  /** `_DATE_RE.finditer(t)` from position `i`: the matched substrings, left to right; the
      search resumes where the previous match ended. */
  function DateMatches(t: string, i: nat): seq<string>
    decreases |t| + 1 - i
  {
    match Leftmost(t, i, DateAt)
    case None => []
    case Some(p) =>
      var n := DateAt(t, p).value;
      [t[p..p + n]] + DateMatches(t, p + n)
  }

  /** The ISO strings of the candidates that `parse_date_loose` accepts, in order. */
  function IsoDates(ms: seq<string>): (ds: seq<string>)
    ensures |ds| <= |ms|
    ensures forall k :: 0 <= k < |ds| ==> exists d :: ValidDate(d) && ds[k] == IsoFormat(d)
  {
    if ms == [] then []
    else
      var rest := IsoDates(ms[..|ms| - 1]);
      match ParseDateLoose(ms[|ms| - 1])
      case None => rest
      case Some(d) => rest + [IsoFormat(d)]
  }

  /** The dates of the text, as ISO strings in the order found (duplicates kept). */
  function DatesIn(t: string): seq<string> {
    IsoDates(DateMatches(t, 0))
  }

  /** `sorted(set(dates))`: strictly increasing, and holding exactly the dates found, each
      the ISO form of a real calendar date. */
  lemma {:induction false} DatesFoundSorted(t: string)
    ensures StrictlyIncreasing(SortedSet(DatesIn(t)))
    ensures forall e :: e in SortedSet(DatesIn(t)) <==> e in DatesIn(t)
    ensures forall e :: e in SortedSet(DatesIn(t)) ==> exists d :: ValidDate(d) && e == IsoFormat(d)
  {
    SortedSetCorrect(DatesIn(t));
    forall e | e in SortedSet(DatesIn(t)) ensures exists d :: ValidDate(d) && e == IsoFormat(d) {
      var k :| 0 <= k < |DatesIn(t)| && DatesIn(t)[k] == e;
    }
  }

  // ---------------------------------------------------------------------------------------
  // Amounts: the matches of the amount pattern are an input
  // ---------------------------------------------------------------------------------------

  /** One match of the amount pattern: the number as written and the currency group. */
  datatype AmountMatch = AmountMatch(raw: string, currency: Option<string>)

  /** `{"raw": raw, "currency": currency or None}` with the currency lower-cased. */
  function AmountEntry(m: AmountMatch): Value {
    var c := Lower(m.currency.GetOr(""));
    Obj(map["raw" := Str(m.raw), "currency" := if c == [] then Null else Str(c)])
  }

  /** The matches kept: those whose number is at least three characters long, in order. */
  function KeptAmounts(ms: seq<AmountMatch>): (r: seq<AmountMatch>)
    ensures |r| <= |ms|
    ensures forall k :: 0 <= k < |r| ==> |r[k].raw| >= 3 && r[k] in ms
    ensures forall m :: m in ms && |m.raw| >= 3 ==> m in r
  {
    if ms == [] then []
    else
      var rest := KeptAmounts(ms[..|ms| - 1]);
      assert forall m :: m in ms ==> m in ms[..|ms| - 1] || m == ms[|ms| - 1];
      var m := ms[|ms| - 1];
      if |m.raw| >= 3 then rest + [m] else rest
  }

  /** The filter distributes over concatenation: the kept matches stay in match order, and
      a number matched twice is kept twice. */
  lemma {:induction false} KeptAmountsAppend(a: seq<AmountMatch>, b: seq<AmountMatch>)
    ensures KeptAmounts(a + b) == KeptAmounts(a) + KeptAmounts(b)
    decreases |b|
  {
    if b == [] {
      assert a + b == a;
    } else {
      var b' := b[..|b| - 1];
      assert (a + b)[..|a + b| - 1] == a + b';
      KeptAmountsAppend(a, b');
    }
  }

  /** The dictionaries of the kept matches. */
  function AmountEntries(ms: seq<AmountMatch>): (vs: seq<Value>)
    ensures |vs| == |ms| && forall k :: 0 <= k < |ms| ==> vs[k] == AmountEntry(ms[k])
  {
    seq(|ms|, k requires 0 <= k < |ms| => AmountEntry(ms[k]))
  }

  /** `amounts[:10]` */
  function FirstTen<T>(xs: seq<T>): (r: seq<T>)
    ensures |r| <= 10 && |r| <= |xs| && r == xs[..|r|]
    ensures |xs| >= 10 ==> |r| == 10
  {
    if |xs| <= 10 then xs else xs[..10]
  }

  // ---------------------------------------------------------------------------------------
  // Labelled values: "label: value" patterns, searched case-insensitively
  // ---------------------------------------------------------------------------------------

  /** One pattern `(?:label|...)\s*[:\-]\s*(group)`: the labels, lower-cased and in the order
      of the alternation, and whether the group is the code class `[A-Z0-9\-\/]+` rather than
      the rest of the line `.+`. */
  datatype LabelPattern = LabelPattern(labels: seq<string>, code: bool)

  /** `_LABEL_PATTERNS`, in dictionary order. */
  const LabelFields: seq<(string, seq<LabelPattern>)> := [
    ("holder_name", [LabelPattern(["name", "nom"], false), LabelPattern(["account holder", "titulaire"], false)]),
    ("policy_number", [LabelPattern(["policy number", "numero de police", "num\U{e9}ro de police"], true)]),
    ("claim_number", [LabelPattern(["claim number", "numero de sinistre", "num\U{e9}ro de sinistre"], true)]),
    ("incident_location", [LabelPattern(["location", "lieu"], false)])]

  /** `[A-Z0-9\-\/]` under `re.IGNORECASE`. */
  predicate IsCodeChar(c: char) {
    'A' <= c <= 'Z' || 'a' <= c <= 'z' || IsDigit(c) || c == '-' || c == '/'
  }

  /** `.`: anything but a line feed. */
  predicate NotNewline(c: char) {
    c != '\n'
  }

  /** The last position in `[lo, hi)` that does not hold a line feed. */
  function LastNotNewline(t: string, lo: nat, hi: nat): (r: Option<nat>)
    requires hi <= |t|
    ensures r.Some? ==> lo <= r.value < hi && t[r.value] != '\n'
    ensures forall k :: lo <= k < hi && (r.None? || r.value < k) ==> t[k] == '\n'
    decreases hi
  {
    if hi <= lo then None
    else if t[hi - 1] != '\n' then Some(hi - 1)
    else LastNotNewline(t, lo, hi - 1)
  }

  /** The group span after the label `lab` matched at `i`. Both `\s*` are maximal, because the
      separator and the first group character are not whitespace. When the whitespace after
      the separator runs to the end of the text, `.+` can only take back its last
      non-line-feed character. */
  function AfterLabel(t: string, i: nat, lab: string, code: bool): (r: Option<(nat, nat)>)
    ensures r.Some? ==> i + |lab| < r.value.0 < r.value.1 <= |t|
    ensures r.Some? ==> i + |lab| <= |t| && Lower(t[i..i + |lab|]) == lab
    ensures r.Some? && code ==> forall k :: r.value.0 <= k < r.value.1 ==> IsCodeChar(t[k])
    ensures r.Some? && !code ==> forall k :: r.value.0 <= k < r.value.1 ==> t[k] != '\n'
  {
    if i + |lab| <= |t| && Lower(t[i..i + |lab|]) == lab then
      var j := i + |lab|;
      var k := j + Run(t, j, IsSpace);
      if k < |t| && (t[k] == ':' || t[k] == '-') then
        var m := k + 1 + Run(t, k + 1, IsSpace);
        if code then
          var c := Run(t, m, IsCodeChar);
          if c > 0 then Some((m, m + c)) else None
        else if m < |t| then Some((m, m + Run(t, m, NotNewline)))
        else
          match LastNotNewline(t, k + 1, m)
          case Some(p) => Some((p, p + 1))
          case None => None
      else None
    else None
  }

  /** The alternation of labels: the first label that leads to a match. */
  function LabelAt(t: string, i: nat, labels: seq<string>, code: bool): (r: Option<(nat, nat)>)
    ensures r.Some? ==> i < r.value.0 < r.value.1 <= |t|
    ensures r.Some? && code ==> forall k :: r.value.0 <= k < r.value.1 ==> IsCodeChar(t[k])
    ensures r.Some? && !code ==> forall k :: r.value.0 <= k < r.value.1 ==> t[k] != '\n'
  {
    if labels == [] then None
    else
      var r := AfterLabel(t, i, labels[0], code);
      if r.Some? then r else LabelAt(t, i, labels[1..], code)
  }

  /** The alternation tries its labels in order: the result is that of the first label that
      leads to a match, and nothing when none does. */
  lemma {:induction false} LabelAtFirstLabel(t: string, i: nat, labels: seq<string>, code: bool) returns (k: nat)
    ensures k <= |labels|
    ensures forall j :: 0 <= j < k ==> AfterLabel(t, i, labels[j], code).None?
    ensures k < |labels| ==> AfterLabel(t, i, labels[k], code).Some? && LabelAt(t, i, labels, code) == AfterLabel(t, i, labels[k], code)
    ensures k == |labels| <==> LabelAt(t, i, labels, code).None?
  {
    var rs := Tries(t, i, labels, code);
    LabelAtIsFirstSome(t, i, labels, code);
    k := FirstSomeIndex(rs);
  }

  /** The result of trying each label at `i`, in order. */
  function Tries(t: string, i: nat, labels: seq<string>, code: bool): (rs: seq<Option<(nat, nat)>>)
    ensures |rs| == |labels| && forall j :: 0 <= j < |labels| ==> rs[j] == AfterLabel(t, i, labels[j], code)
  {
    seq(|labels|, j requires 0 <= j < |labels| => AfterLabel(t, i, labels[j], code))
  }

  /** The first present result of a list of attempts. */
  function FirstSome<X>(rs: seq<Option<X>>): Option<X> {
    if rs == [] then None else if rs[0].Some? then rs[0] else FirstSome(rs[1..])
  }

  lemma {:induction false} LabelAtIsFirstSome(t: string, i: nat, labels: seq<string>, code: bool)
    ensures LabelAt(t, i, labels, code) == FirstSome(Tries(t, i, labels, code))
    decreases |labels|
  {
    if labels != [] {
      LabelAtIsFirstSome(t, i, labels[1..], code);
      assert Tries(t, i, labels, code)[1..] == Tries(t, i, labels[1..], code);
    }
  }

  lemma {:induction false} FirstSomeIndex<X>(rs: seq<Option<X>>) returns (k: nat)
    ensures k <= |rs|
    ensures forall j :: 0 <= j < k ==> rs[j].None?
    ensures k < |rs| ==> rs[k].Some? && FirstSome(rs) == rs[k]
    ensures k == |rs| <==> FirstSome(rs).None?
    decreases |rs|
  {
    if rs == [] || rs[0].Some? {
      k := 0;
    } else {
      var k' := FirstSomeIndex(rs[1..]);
      k := k' + 1;
    }
  }

  /** The span of the leftmost match at or after `i`. */
  function LabelSpanFrom(t: string, i: nat, pat: LabelPattern): (r: Option<(nat, nat)>)
    ensures r.Some? ==> i < r.value.0 < r.value.1 <= |t|
    ensures r.Some? && pat.code ==> forall k :: r.value.0 <= k < r.value.1 ==> IsCodeChar(t[k])
    decreases |t| + 1 - i
  {
    if i > |t| then None
    else
      var r := LabelAt(t, i, pat.labels, pat.code);
      if r.Some? then r else LabelSpanFrom(t, i + 1, pat)
  }

  /** `LabelSpanFrom` is the search for the leftmost position where the pattern matches. */
  lemma {:induction false} LabelSpanLeftmost(t: string, i: nat, pat: LabelPattern)
    ensures LabelSpanFrom(t, i, pat) == (match Leftmost(t, i, (s: string, q: nat) => LabelAt(s, q, pat.labels, pat.code))
      case None => None
      case Some(p) => LabelAt(t, p, pat.labels, pat.code))
    decreases |t| + 1 - i
  {
    if i <= |t| && LabelAt(t, i, pat.labels, pat.code).None? {
      LabelSpanLeftmost(t, i + 1, pat);
    }
  }

  /** `re.search(pat, t, re.IGNORECASE).group(1)`: the group of the leftmost match. */
  function LabelSearch(t: string, pat: LabelPattern): (r: Option<string>)
    ensures r.Some? ==> r.value != []
    ensures r.Some? && pat.code ==> forall k :: 0 <= k < |r.value| ==> IsCodeChar(r.value[k])
  {
    match LabelSpanFrom(t, 0, pat)
    case None => None
    case Some(span) => Some(t[span.0..span.1])
  }

  /** `len(val) > 2 and len(val) < 120` */
  predicate Acceptable(v: string) {
    2 < |v| < 120
  }

  /** The normalised group of one pattern's leftmost match, when it has one. */
  function Candidate(t: string, pat: LabelPattern): Option<string> {
    match LabelSearch(t, pat)
    case None => None
    case Some(g) => Some(NormalizeSpaces(g))
  }

  /** The pattern's leftmost match gives a value the extractor accepts. */
  predicate Qualifies(t: string, pat: LabelPattern) {
    Candidate(t, pat).Some? && Acceptable(Candidate(t, pat).value)
  }

  /** The value stored for a field: the normalised group of the first pattern whose leftmost
      match gives an acceptable value. */
  function LabelValue(t: string, pats: seq<LabelPattern>): Option<string> {
    if pats == [] then None
    else if Qualifies(t, pats[0]) then Candidate(t, pats[0])
    else LabelValue(t, pats[1..])
  }

  /** The candidate of every pattern, in pattern order. */
  function Candidates(t: string, pats: seq<LabelPattern>): (r: seq<Option<string>>)
    ensures |r| == |pats| && forall j :: 0 <= j < |pats| ==> r[j] == Candidate(t, pats[j])
  {
    seq(|pats|, j requires 0 <= j < |pats| => Candidate(t, pats[j]))
  }

  /** The first candidate that is present and acceptable. */
  function FirstAcceptableOf(cs: seq<Option<string>>): Option<string> {
    if cs == [] then None
    else if cs[0].Some? && Acceptable(cs[0].value) then cs[0]
    else FirstAcceptableOf(cs[1..])
  }

  /** `LabelValue` picks the first acceptable candidate. */
  lemma {:induction false} LabelValueCandidates(t: string, pats: seq<LabelPattern>)
    ensures LabelValue(t, pats) == FirstAcceptableOf(Candidates(t, pats))
    decreases |pats|
  {
    if pats != [] {
      assert Candidates(t, pats)[1..] == Candidates(t, pats[1..]);
      LabelValueCandidates(t, pats[1..]);
    }
  }

  /** The index of the first acceptable candidate, `|cs|` when there is none. */
  lemma {:induction false} FirstAcceptableIndex(cs: seq<Option<string>>) returns (k: nat)
    ensures k <= |cs|
    ensures forall j :: 0 <= j < k ==> !(cs[j].Some? && Acceptable(cs[j].value))
    ensures k < |cs| ==> cs[k].Some? && Acceptable(cs[k].value) && FirstAcceptableOf(cs) == cs[k]
    ensures k == |cs| <==> FirstAcceptableOf(cs).None?
    decreases |cs|
  {
    if cs == [] || (cs[0].Some? && Acceptable(cs[0].value)) {
      k := 0;
    } else {
      var k' := FirstAcceptableIndex(cs[1..]);
      k := k' + 1;
    }
  }

  /** A field's value comes from the first pattern that yields an acceptable value (index
      `k`): every earlier pattern found nothing or something too short or too long, and when
      no pattern qualifies (`k == |pats|`) the field is not stored. */
  lemma {:induction false} LabelValueFirstAcceptable(t: string, pats: seq<LabelPattern>) returns (k: nat)
    ensures k <= |pats|
    ensures forall j :: 0 <= j < k ==> !Qualifies(t, pats[j])
    ensures k < |pats| ==> Qualifies(t, pats[k]) && LabelValue(t, pats) == Candidate(t, pats[k])
    ensures k == |pats| <==> LabelValue(t, pats).None?
  {
    LabelValueCandidates(t, pats);
    k := FirstAcceptableIndex(Candidates(t, pats));
  }

  /** A stored value is between 3 and 119 characters long, with no leading, trailing or
      doubled whitespace. */
  lemma {:induction false} LabelValueShape(t: string, pats: seq<LabelPattern>)
    requires LabelValue(t, pats).Some?
    ensures Acceptable(LabelValue(t, pats).value) && WellSpaced(LabelValue(t, pats).value)
    decreases |pats|
  {
    if Qualifies(t, pats[0]) {
      NormalizeSpacesWellSpaced(LabelSearch(t, pats[0]).value);
    } else {
      LabelValueShape(t, pats[1..]);
    }
  }

  /** A code value is stored exactly as it appears in the text. */
  lemma {:induction false} CodeValueVerbatim(t: string, pat: LabelPattern)
    requires pat.code && LabelSearch(t, pat).Some?
    ensures NormalizeSpaces(LabelSearch(t, pat).value) == LabelSearch(t, pat).value
  {
    var v := LabelSearch(t, pat).value;
    assert forall k :: 0 <= k < |v| ==> !IsSpace(v[k]);
    WellSpacedFixed(v);
  }

  // ---------------------------------------------------------------------------------------
  // extract_fields_regex
  // ---------------------------------------------------------------------------------------

  /** The JSON array of strings `xs`. */
  function StrArr(xs: seq<string>): (v: Value)
    ensures v.Arr? && |v.items| == |xs| && forall k :: 0 <= k < |xs| ==> v.items[k] == Str(xs[k])
  {
    Arr(seq(|xs|, k requires 0 <= k < |xs| => Str(xs[k])))
  }

  /** The keys the labelled values are stored under. */
  const LabelNames: set<string> := {"holder_name", "policy_number", "claim_number", "incident_location"}

  /** The keys the pattern searches are stored under. */
  const ScalarNames: set<string> := {"bank_account", "bank_bic", "dates_found", "amounts_found"}

  /** `extract_fields_regex(text)`, given the matches of the amount pattern. Each key is
      written only when its pattern found something, and always with a non-empty value. */
  method ExtractFieldsRegex(text: string, amountMatches: seq<AmountMatch>) returns (out: map<string, Value>)
    ensures ScalarFields(text, amountMatches, out)
    ensures forall k :: 0 <= k < |LabelFields| ==>
      (LabelFields[k].0 in out <==> LabelValue(text, LabelFields[k].1).Some?)
    ensures forall k :: 0 <= k < |LabelFields| && LabelFields[k].0 in out ==>
      out[LabelFields[k].0] == Str(LabelValue(text, LabelFields[k].1).value)
    ensures out.Keys <= ScalarNames + LabelNames
    ensures forall key :: key in out ==> Truthy(out[key])
  {
    var scalars := ExtractScalarFields(text, amountMatches);
    LabelFieldsDistinct();
    ScalarsAreNotLabels();
    out := AddLabelFields(text, scalars, LabelFields);
    forall key | key in out
      ensures Truthy(out[key])
    {
      if key in LabelNames {
        var k :| 0 <= k < |LabelFields| && LabelFields[k].0 == key;
        LabelValueShape(text, LabelFields[k].1);
      }
    }
  }

  /** What the IBAN, BIC, date and amount searches store in `out`. */
  predicate ScalarFields(text: string, amountMatches: seq<AmountMatch>, out: map<string, Value>) {
    && ("bank_account" in out <==> IbanFound(text).Some?)
    && ("bank_account" in out ==> out["bank_account"] == Str(IbanFound(text).value))
    && ("bank_bic" in out <==> BicFound(text).Some?)
    && ("bank_bic" in out ==> out["bank_bic"] == Str(BicFound(text).value))
    && ("dates_found" in out <==> DatesIn(text) != [])
    && ("dates_found" in out ==> out["dates_found"] == StrArr(SortedSet(DatesIn(text))))
    && ("amounts_found" in out <==> KeptAmounts(amountMatches) != [])
    && ("amounts_found" in out ==> out["amounts_found"] == Arr(FirstTen(AmountEntries(KeptAmounts(amountMatches)))))
  }

  /** The first half of `extract_fields_regex`: the IBAN, the BIC, the dates and the amounts. */
  method ExtractScalarFields(text: string, amountMatches: seq<AmountMatch>) returns (out: map<string, Value>)
    ensures ScalarFields(text, amountMatches, out)
    ensures out.Keys <= ScalarNames
    ensures forall key :: key in out ==> Truthy(out[key])
  {
    var iban := IbanFound(text);
    var bic := BicFound(text);
    var dates := CollectDates(DateMatches(text, 0));
    var amounts := CollectAmounts(amountMatches);
    if iban.Some? {
      assert |iban.value| >= 15;
    }
    if bic.Some? {
      assert |bic.value| >= 8;
    }
    out := StoreScalars(iban, bic, dates, amounts);
  }

  /** Stores each search result that found something, under its key. */
  method StoreScalars(iban: Option<string>, bic: Option<string>, dates: seq<string>, amounts: seq<Value>)
    returns (out: map<string, Value>)
    requires iban.Some? ==> iban.value != []
    requires bic.Some? ==> bic.value != []
    ensures "bank_account" in out <==> iban.Some?
    ensures "bank_account" in out ==> out["bank_account"] == Str(iban.value)
    ensures "bank_bic" in out <==> bic.Some?
    ensures "bank_bic" in out ==> out["bank_bic"] == Str(bic.value)
    ensures "dates_found" in out <==> dates != []
    ensures "dates_found" in out ==> out["dates_found"] == StrArr(SortedSet(dates))
    ensures "amounts_found" in out <==> amounts != []
    ensures "amounts_found" in out ==> out["amounts_found"] == Arr(FirstTen(amounts))
    ensures out.Keys <= ScalarNames
    ensures forall key :: key in out ==> Truthy(out[key])
  {
    ScalarNamesDistinct();
    out := map[];
    if iban.Some? {
      out := out["bank_account" := Str(iban.value)];
    }
    if bic.Some? {
      out := out["bank_bic" := Str(bic.value)];
    }
    if dates != [] {
      SortedSetNonEmpty(dates);
      out := out["dates_found" := StrArr(SortedSet(dates))];
    }
    if amounts != [] {
      out := out["amounts_found" := Arr(FirstTen(amounts))];
    }
  }

  lemma {:induction false} ScalarNamesDistinct()
    ensures "bank_account" != "bank_bic" && "bank_account" != "dates_found" && "bank_account" != "amounts_found"
    ensures "bank_bic" != "dates_found" && "bank_bic" != "amounts_found" && "dates_found" != "amounts_found"
  {
  }

  lemma {:induction false} ScalarsAreNotLabels()
    ensures forall key :: key in ScalarNames ==> key !in LabelNames
  {
  }

  /** The loop over the date candidates: the ISO form of each one that parses. */
  method CollectDates(candidates: seq<string>) returns (dates: seq<string>)
    ensures dates == IsoDates(candidates)
  {
    dates := [];
    var i := 0;
    while i < |candidates|
      invariant i <= |candidates|
      invariant dates == IsoDates(candidates[..i])
    {
      IsoDatesStep(candidates, i);
      var d := ParseDateLoose(candidates[i]);
      dates := dates + if d.Some? then [IsoFormat(d.value)] else [];
      i := i + 1;
    }
    assert candidates[..i] == candidates;
  }

  lemma {:induction false} IsoDatesStep(candidates: seq<string>, i: nat)
    requires i < |candidates|
    ensures IsoDates(candidates[..i + 1]) == IsoDates(candidates[..i])
      + match ParseDateLoose(candidates[i]) case None => [] case Some(d) => [IsoFormat(d)]
  {
    assert candidates[..i + 1][..i] == candidates[..i];
  }

  /** The loop over the amount matches, dropping numbers shorter than three characters. */
  method CollectAmounts(ms: seq<AmountMatch>) returns (amounts: seq<Value>)
    ensures amounts == AmountEntries(KeptAmounts(ms))
  {
    amounts := [];
    var i := 0;
    while i < |ms|
      invariant i <= |ms|
      invariant amounts == AmountEntries(KeptAmounts(ms[..i]))
    {
      AmountsStep(ms, i);
      amounts := amounts + if |ms[i].raw| >= 3 then [AmountEntry(ms[i])] else [];
      i := i + 1;
    }
    assert ms[..i] == ms;
  }

  lemma {:induction false} AmountsStep(ms: seq<AmountMatch>, i: nat)
    requires i < |ms|
    ensures AmountEntries(KeptAmounts(ms[..i + 1]))
      == AmountEntries(KeptAmounts(ms[..i])) + if |ms[i].raw| >= 3 then [AmountEntry(ms[i])] else []
  {
    assert ms[..i + 1][..i] == ms[..i];
    var kept := KeptAmounts(ms[..i]);
    if |ms[i].raw| >= 3 {
      assert KeptAmounts(ms[..i + 1]) == kept + [ms[i]];
      AmountEntriesSnoc(kept, ms[i]);
    } else {
      assert KeptAmounts(ms[..i + 1]) == kept;
    }
  }

  lemma {:induction false} AmountEntriesSnoc(ms: seq<AmountMatch>, m: AmountMatch)
    ensures AmountEntries(ms + [m]) == AmountEntries(ms) + [AmountEntry(m)]
  {
    assert forall k :: 0 <= k < |ms| ==> (ms + [m])[k] == ms[k];
  }

  /** The field names of a pattern table. */
  function TableNames(table: seq<(string, seq<LabelPattern>)>): set<string> {
    set k | 0 <= k < |table| :: table[k].0
  }

  /** The loop over `_LABEL_PATTERNS` (passed as `table`): stores each field's value and
      leaves the other keys as they were. */
  method AddLabelFields(t: string, out0: map<string, Value>, table: seq<(string, seq<LabelPattern>)>)
    returns (out: map<string, Value>)
    requires forall a, b :: 0 <= a < b < |table| ==> table[a].0 != table[b].0
    requires forall key :: key in out0 ==> key !in TableNames(table)
    ensures forall key :: key !in TableNames(table) ==> (key in out <==> key in out0)
    ensures forall key :: key !in TableNames(table) && key in out0 ==> out[key] == out0[key]
    ensures forall k :: 0 <= k < |table| ==> (table[k].0 in out <==> LabelValue(t, table[k].1).Some?)
    ensures forall k :: 0 <= k < |table| && table[k].0 in out ==> out[table[k].0] == Str(LabelValue(t, table[k].1).value)
    ensures out.Keys <= out0.Keys + TableNames(table)
  {
    out := out0;
    ghost var names := Names(table);
    ghost var values: seq<Option<string>> := [];
    assert names[..0] == [];
    var f := 0;
    while f < |table|
      invariant f <= |table| && |values| == f
      invariant forall k :: 0 <= k < f ==> values[k] == LabelValue(t, table[k].1)
      invariant out == Stored(out0, names[..f], values)
    {
      var field := table[f].0;
      var found := FirstAcceptable(t, table[f].1);
      StoredStep(out0, names, values, f, found);
      out := if found.Some? then out[field := Str(found.value)] else out;
      values := values + [found];
      f := f + 1;
    }
    assert names[..f] == names;
    NamesAreTableNames(table);
    StoredSpec(out0, names, values);
  }

  /** The field names of a pattern table, in order. */
  function Names(table: seq<(string, seq<LabelPattern>)>): (ns: seq<string>)
    ensures |ns| == |table| && forall k :: 0 <= k < |table| ==> ns[k] == table[k].0
  {
    seq(|table|, k requires 0 <= k < |table| => table[k].0)
  }

  lemma {:induction false} NamesAreTableNames(table: seq<(string, seq<LabelPattern>)>)
    ensures forall key :: key in Names(table) <==> key in TableNames(table)
  {
    var ns := Names(table);
    forall key | key in ns ensures key in TableNames(table) {
      var k :| 0 <= k < |ns| && ns[k] == key;
      assert table[k].0 == key;
    }
  }

  /** The dictionary after storing `vals[k]` under `names[k]`, for each present value in turn. */
  function Stored(out0: map<string, Value>, names: seq<string>, vals: seq<Option<string>>): map<string, Value>
    requires |names| == |vals|
    decreases |names|
  {
    if names == [] then out0
    else
      var prev := Stored(out0, names[..|names| - 1], vals[..|vals| - 1]);
      var v := vals[|vals| - 1];
      if v.Some? then prev[names[|names| - 1] := Str(v.value)] else prev
  }

  lemma {:induction false} StoredStep(out0: map<string, Value>, names: seq<string>, vals: seq<Option<string>>, f: nat, v: Option<string>)
    requires f < |names| && |vals| == f
    ensures var prev := Stored(out0, names[..f], vals);
      Stored(out0, names[..f + 1], vals + [v]) == if v.Some? then prev[names[f] := Str(v.value)] else prev
  {
    assert names[..f + 1][..f] == names[..f] && (vals + [v])[..f] == vals;
  }

  /** Each stored name holds its value when present and is absent otherwise; other keys keep
      what they had. */
  lemma {:induction false} StoredSpec(out0: map<string, Value>, names: seq<string>, vals: seq<Option<string>>)
    requires |names| == |vals|
    requires forall a, b :: 0 <= a < b < |names| ==> names[a] != names[b]
    requires forall key :: key in out0 ==> key !in names
    ensures var out := Stored(out0, names, vals);
      && (forall key :: key !in names ==> (key in out <==> key in out0))
      && (forall key :: key !in names && key in out0 ==> out[key] == out0[key])
      && (forall k :: 0 <= k < |names| ==> (names[k] in out <==> vals[k].Some?))
      && (forall k :: 0 <= k < |names| && names[k] in out ==> out[names[k]] == Str(vals[k].value))
      && (forall key :: key in out ==> key in out0 || key in names)
  {
    var out := Stored(out0, names, vals);
    forall key | key !in names
      ensures (key in out <==> key in out0) && (key in out ==> out[key] == out0[key])
    {
      StoredOther(out0, names, vals, key);
    }
    forall k | 0 <= k < |names|
      ensures (names[k] in out <==> vals[k].Some?) && (names[k] in out ==> out[names[k]] == Str(vals[k].value))
    {
      StoredAt(out0, names, vals, k);
    }
  }

  /** A key that is not one of the names keeps what it had. */
  lemma {:induction false} StoredOther(out0: map<string, Value>, names: seq<string>, vals: seq<Option<string>>, key: string)
    requires |names| == |vals| && key !in names
    ensures var out := Stored(out0, names, vals);
      (key in out <==> key in out0) && (key in out ==> out[key] == out0[key])
    decreases |names|
  {
    if names != [] {
      var n := |names| - 1;
      assert key != names[n];
      assert forall j :: 0 <= j < n ==> names[..n][j] == names[j];
      StoredOther(out0, names[..n], vals[..n], key);
    }
  }

  /** The `k`-th name holds the `k`-th value when present, and is absent otherwise. */
  lemma {:induction false} StoredAt(out0: map<string, Value>, names: seq<string>, vals: seq<Option<string>>, k: nat)
    requires |names| == |vals| && k < |names|
    requires forall a, b :: 0 <= a < b < |names| ==> names[a] != names[b]
    requires names[k] !in out0
    ensures var out := Stored(out0, names, vals);
      (names[k] in out <==> vals[k].Some?) && (names[k] in out ==> out[names[k]] == Str(vals[k].value))
    decreases |names|
  {
    var n := |names| - 1;
    var pn, pv := names[..n], vals[..n];
    if k == n {
      assert forall j :: 0 <= j < n ==> pn[j] == names[j] && pn[j] != names[n];
      StoredOther(out0, pn, pv, names[n]);
    } else {
      assert pn[k] == names[k] && pv[k] == vals[k] && names[k] != names[n];
      StoredAt(out0, pn, pv, k);
    }
  }

  /** The inner loop over one field's patterns, stopping at the first acceptable value. */
  method FirstAcceptable(t: string, patterns: seq<LabelPattern>) returns (found: Option<string>)
    ensures found == LabelValue(t, patterns)
  {
    var rest := patterns;
    while rest != []
      invariant LabelValue(t, patterns) == LabelValue(t, rest)
    {
      var m := LabelSearch(t, rest[0]);
      if m.Some? {
        var val := NormalizeSpaces(m.value);
        if 2 < |val| < 120 {
          return Some(val);
        }
      }
      rest := rest[1..];
    }
    return None;
  }

  lemma {:induction false} LabelFieldsDistinct()
    ensures forall a, b :: 0 <= a < b < |LabelFields| ==> LabelFields[a].0 != LabelFields[b].0
    ensures TableNames(LabelFields) == LabelNames
  {
    assert LabelFields[0].0 == "holder_name" && LabelFields[1].0 == "policy_number";
    assert LabelFields[2].0 == "claim_number" && LabelFields[3].0 == "incident_location";
  }

  lemma {:induction false} SortedSetNonEmpty(xs: seq<string>)
    requires xs != []
    ensures SortedSet(xs) != []
  {
    SortedSetCorrect(xs);
    assert xs[0] in SortedSet(xs);
  }
}
