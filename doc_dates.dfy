/** Calendar dates, the lenient date parser (`parse_date_loose`, which tries nine
    `strptime` formats in turn) and ISO 8601 `YYYY-MM-DD` formatting. */
module Dates {
  import opened Wrappers
  import opened Text

  datatype Date = Date(year: int, month: int, day: int)

  predicate IsLeapYear(y: int) {
    y % 4 == 0 && (y % 100 != 0 || y % 400 == 0)
  }

  function DaysInMonth(y: int, m: int): int
    requires 1 <= m <= 12
  {
    if m == 2 then (if IsLeapYear(y) then 29 else 28)
    else if m in {4, 6, 9, 11} then 30
    else 31
  }

  /** A date Python's `date` type accepts. */
  predicate ValidDate(d: Date) {
    1 <= d.year <= 9999 && 1 <= d.month <= 12 && 1 <= d.day <= DaysInMonth(d.year, d.month)
  }

  /** `a < b` on dates: chronological order. */
  predicate Before(a: Date, b: Date) {
    a.year < b.year || (a.year == b.year && (a.month < b.month || (a.month == b.month && a.day < b.day)))
  }

  function DigitValue(c: char): nat
    requires IsDigit(c)
  {
    (c - '0') as nat
  }

  /** The `strptime` directives used by the parser. */
  datatype Directive = Day | Month | Year4 | Year2

  /** The first alternative of the directive's pattern that matches at `i`, as
      (value, characters consumed):
      `%d` is `3[01]|[12]\d|0[1-9]|[1-9]| [1-9]`, `%m` is `1[0-2]|0[1-9]|[1-9]`,
      `%Y` is four digits and `%y` two. */
  function MatchDirective(dir: Directive, s: string, i: nat): (r: Option<(nat, nat)>)
    ensures r.Some? ==> 1 <= r.value.1 && i + r.value.1 <= |s|
  {
    var has2 := i + 1 < |s|;
    if i >= |s| then None
    else match dir
      case Day =>
        if s[i] == '3' && has2 && '0' <= s[i + 1] <= '1' then Some((30 + DigitValue(s[i + 1]), 2))
        else if '1' <= s[i] <= '2' && has2 && IsDigit(s[i + 1]) then Some((10 * DigitValue(s[i]) + DigitValue(s[i + 1]), 2))
        else if s[i] == '0' && has2 && '1' <= s[i + 1] <= '9' then Some((DigitValue(s[i + 1]), 2))
        else if '1' <= s[i] <= '9' then Some((DigitValue(s[i]), 1))
        else if s[i] == ' ' && has2 && '1' <= s[i + 1] <= '9' then Some((DigitValue(s[i + 1]), 2))
        else None
      case Month =>
        if s[i] == '1' && has2 && '0' <= s[i + 1] <= '2' then Some((10 + DigitValue(s[i + 1]), 2))
        else if s[i] == '0' && has2 && '1' <= s[i + 1] <= '9' then Some((DigitValue(s[i + 1]), 2))
        else if '1' <= s[i] <= '9' then Some((DigitValue(s[i]), 1))
        else None
      case Year4 =>
        if i + 4 <= |s| && IsDigit(s[i]) && IsDigit(s[i + 1]) && IsDigit(s[i + 2]) && IsDigit(s[i + 3]) then
          Some((1000 * DigitValue(s[i]) + 100 * DigitValue(s[i + 1]) + 10 * DigitValue(s[i + 2]) + DigitValue(s[i + 3]), 4))
        else None
      case Year2 =>
        if has2 && IsDigit(s[i]) && IsDigit(s[i + 1]) then
          var v := 10 * DigitValue(s[i]) + DigitValue(s[i + 1]);
          Some((if v <= 68 then 2000 + v else 1900 + v, 2))
        else None
  }

  /** A format: the field order, the separator and (day-first formats only) the year width. */
  datatype Format = DayFirst(sep: char, longYear: bool) | YearFirst(sep: char)

  /** `%d/%m/%Y`, `%d-%m-%Y`, `%d.%m.%Y`, `%d/%m/%y`, `%d-%m-%y`, `%d.%m.%y`, `%Y-%m-%d`,
      `%Y/%m/%d`, `%Y.%m.%d`, in the order they are tried. */
  const Formats: seq<Format> := [
    DayFirst('/', true), DayFirst('-', true), DayFirst('.', true),
    DayFirst('/', false), DayFirst('-', false), DayFirst('.', false),
    YearFirst('-'), YearFirst('/'), YearFirst('.')]

  /** `datetime.strptime(s, fmt).date()`: the pattern must match at the start and consume the
      whole string, and the fields must form a real date; otherwise `ValueError` (`None`). */
  function ParseWith(s: string, f: Format): (r: Option<Date>)
    ensures r.Some? ==> ValidDate(r.value)
  {
    var dirs := match f
      case DayFirst(_, long) => [Day, Month, if long then Year4 else Year2]
      case YearFirst(_) => [Year4, Month, Day];
    var a := MatchDirective(dirs[0], s, 0);
    if a.None? || a.value.1 >= |s| || s[a.value.1] != f.sep then None
    else
      var p := a.value.1 + 1;
      var b := MatchDirective(Month, s, p);
      if b.None? || p + b.value.1 >= |s| || s[p + b.value.1] != f.sep then None
      else
        var q := p + b.value.1 + 1;
        var c := MatchDirective(dirs[2], s, q);
        if c.None? || q + c.value.1 != |s| then None
        else
          var d := if f.DayFirst? then Date(c.value.0, b.value.0, a.value.0) else Date(a.value.0, b.value.0, c.value.0);
          if ValidDate(d) then Some(d) else None
  }

  /** Try the formats from index `k` on. */
  function ParseFrom(s: string, k: nat): (r: Option<Date>)
    requires k <= |Formats|
    ensures r.Some? ==> ValidDate(r.value)
    ensures r.Some? <==> exists j :: k <= j < |Formats| && ParseWith(s, Formats[j]).Some?
    decreases |Formats| - k
  {
    if k == |Formats| then None
    else
      var r := ParseWith(s, Formats[k]);
      if r.Some? then r else ParseFrom(s, k + 1)
  }

  /** `parse_date_loose`: strip, then the first format that parses; `None` when none does. */
  function ParseDateLoose(s: string): (r: Option<Date>)
    ensures r.Some? ==> ValidDate(r.value)
  {
    var t := Strip(s);
    if t == [] then None else ParseFrom(t, 0)
  }

  function Digit(n: nat): char
    requires n < 10
  {
    '0' + n as char
  }

  function Pad2(n: nat): string
    requires n < 100
  {
    [Digit(n / 10), Digit(n % 10)]
  }

  function Pad4(n: nat): string
    requires n < 10000
  {
    [Digit(n / 1000), Digit(n / 100 % 10), Digit(n / 10 % 10), Digit(n % 10)]
  }

  /** `date.isoformat()`: `YYYY-MM-DD`. */
  function IsoFormat(d: Date): (s: string)
    requires ValidDate(d)
    ensures |s| == 10 && s[4] == '-' && s[7] == '-'
    ensures forall i :: 0 <= i < 10 && i != 4 && i != 7 ==> IsDigit(s[i])
  {
    Pad4(d.year) + "-" + Pad2(d.month) + "-" + Pad2(d.day)
  }

  /** The parser reads back what `isoformat` writes: every day-first format fails on the
      four-digit year, and `%Y-%m-%d` recovers the date. */
  lemma {:induction false} ParseIsoFormat(d: Date)
    requires ValidDate(d)
    ensures ParseDateLoose(IsoFormat(d)) == Some(d)
  {
    IsoParsesFromStart(d);
    IsoParsesYearFirst(d);
  }

  lemma {:induction false} IsoParsesFromStart(d: Date)
    requires ValidDate(d)
    ensures ParseDateLoose(IsoFormat(d)) == ParseFrom(IsoFormat(d), 0)
  {
    StrippedParse(IsoFormat(d));
  }

  lemma {:induction false} IsoParsesYearFirst(d: Date)
    requires ValidDate(d)
    ensures ParseFrom(IsoFormat(d), 0) == Some(d)
  {
    YearFirstReadsIso(d);
    YearFirstWins(IsoFormat(d), d);
  }

  lemma {:induction false} StrippedParse(s: string)
    requires |s| == 10 && IsDigit(s[0]) && IsDigit(s[9])
    ensures ParseDateLoose(s) == ParseFrom(s, 0)
  {
    IsoStripped(s);
  }

  lemma {:induction false} YearFirstWins(s: string, d: Date)
    requires |s| == 10 && IsDigit(s[0]) && IsDigit(s[1]) && IsDigit(s[2])
    requires ParseWith(s, YearFirst('-')) == Some(d)
    ensures ParseFrom(s, 0) == Some(d)
  {
    SkipFailingFormats(s, 0);
    assert ParseFrom(s, 6) == Some(d);
  }

  /** On a string opening with three digits every day-first format fails. */
  lemma {:induction false} SkipFailingFormats(s: string, k: nat)
    requires k <= 6 && |s| == 10 && IsDigit(s[0]) && IsDigit(s[1]) && IsDigit(s[2])
    ensures ParseFrom(s, k) == ParseFrom(s, 6)
    decreases 6 - k
  {
    if k < 6 {
      var f := Formats[k];
      DayFirstFormat(k);
      DayFirstFailsOnIso(s, f);
      ParseFromSkips(s, k);
      SkipFailingFormats(s, k + 1);
    }
  }

  /** The first six formats are day-first with a punctuation separator. */
  lemma {:induction false} DayFirstFormat(k: nat)
    requires k < 6
    ensures Formats[k].DayFirst? && Formats[k].sep in "/-."
  {
  }

  lemma {:induction false} ParseFromSkips(s: string, k: nat)
    requires k < |Formats| && ParseWith(s, Formats[k]).None?
    ensures ParseFrom(s, k) == ParseFrom(s, k + 1)
  {
  }

  /** Distinct valid dates have distinct ISO strings: the parser tells them apart. */
  lemma {:induction false} IsoFormatInjective(a: Date, b: Date)
    requires ValidDate(a) && ValidDate(b) && IsoFormat(a) == IsoFormat(b)
    ensures a == b
  {
    ParseIsoFormat(a);
    ParseIsoFormat(b);
  }

  lemma {:induction false} IsoStripped(s: string)
    requires |s| == 10 && IsDigit(s[0]) && IsDigit(s[9])
    ensures Strip(s) == s
  {
    assert !IsSpace(s[0]) && !IsSpace(s[9]);
    var l := TrimLeft(s);
    assert |l| == |s|;
    var r := TrimRight(l);
    assert |r| == |l|;
  }

  lemma {:induction false} DayFirstFailsOnIso(s: string, f: Format)
    requires |s| == 10 && IsDigit(s[0]) && IsDigit(s[1]) && IsDigit(s[2])
    requires f.DayFirst? && !IsDigit(f.sep)
    ensures ParseWith(s, f).None?
  {
  }

  lemma {:induction false} DigitRoundTrip(n: nat)
    requires n < 10
    ensures IsDigit(Digit(n)) && DigitValue(Digit(n)) == n
  {
  }

  lemma {:induction false} Pad4Reads(s: string, i: nat, n: nat)
    requires n < 10000 && i + 4 <= |s| && s[i..i + 4] == Pad4(n)
    ensures MatchDirective(Year4, s, i) == Some((n, 4))
  {
    var p := Pad4(n);
    assert s[i] == p[0] && s[i + 1] == p[1] && s[i + 2] == p[2] && s[i + 3] == p[3];
    DigitRoundTrip(n / 1000);
    DigitRoundTrip(n / 100 % 10);
    DigitRoundTrip(n / 10 % 10);
    DigitRoundTrip(n % 10);
    assert n == 10 * (n / 10) + n % 10;
    assert n / 10 == 10 * (n / 100) + n / 10 % 10;
    assert n / 100 == 10 * (n / 1000) + n / 100 % 10;
  }

  lemma {:induction false} MonthPad2Reads(s: string, i: nat, n: nat)
    requires 1 <= n <= 12 && i + 2 <= |s| && s[i..i + 2] == Pad2(n)
    ensures MatchDirective(Month, s, i) == Some((n, 2))
  {
    assert s[i] == Pad2(n)[0] && s[i + 1] == Pad2(n)[1];
    DigitRoundTrip(n / 10);
    DigitRoundTrip(n % 10);
  }

  lemma {:induction false} DayPad2Reads(s: string, i: nat, n: nat)
    requires 1 <= n <= 31 && i + 2 <= |s| && s[i..i + 2] == Pad2(n)
    ensures MatchDirective(Day, s, i) == Some((n, 2))
  {
    assert s[i] == Pad2(n)[0] && s[i + 1] == Pad2(n)[1];
    DigitRoundTrip(n / 10);
    DigitRoundTrip(n % 10);
  }

  lemma {:induction false} YearFirstReadsIso(d: Date)
    requires ValidDate(d)
    ensures ParseWith(IsoFormat(d), YearFirst('-')) == Some(d)
  {
    var s := IsoFormat(d);
    assert s[..4] == Pad4(d.year) && s[5..7] == Pad2(d.month) && s[8..10] == Pad2(d.day);
    Pad4Reads(s, 0, d.year);
    MonthPad2Reads(s, 5, d.month);
    DayPad2Reads(s, 8, d.day);
  }
}
