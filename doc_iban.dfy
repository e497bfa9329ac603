/** The IBAN check of `iban_is_valid` (document_verification.py): the account number
    is compacted, its length and alphabet are checked, the first four characters are
    moved to the end, letters become two-digit numbers (A = 10 … Z = 35) and the
    resulting decimal number must leave remainder 1 modulo 97 (the MOD 97-10 scheme
    of ISO/IEC 7064 as ISO 13616-1 applies it). */
module Iban {
  import opened Text

  /** `re.sub(r"\s+", "", iban.upper())` */
  function Compact(iban: string): string {
    RemoveSpaces(Upper(iban))
  }

  /** The regex `^[A-Z0-9]+$` on a non-empty string. */
  predicate AllUpperAlnum(s: string) {
    forall i :: 0 <= i < |s| ==> IsUpperAlnum(s[i])
  }

  /** `iban[4:] + iban[:4]` */
  function Rearranged(s: string): (r: string)
    requires |s| >= 4
    ensures |r| == |s|
    ensures forall i :: 0 <= i < |s| ==> r[i] == (if i < |s| - 4 then s[i + 4] else s[i - (|s| - 4)])
  {
    s[4..] + s[..4]
  }

  /** The decimal digits one character contributes: the digit itself, or the two digits
      of `ord(ch) - 55` for a letter. */
  function CharDigits(c: char): (ds: seq<nat>)
    requires IsUpperAlnum(c)
    ensures |ds| == (if IsDigit(c) then 1 else 2)
  {
    if IsDigit(c) then [c as nat - '0' as nat]
    else [(c as nat - 55) / 10, (c as nat - 55) % 10]
  }

  /** The digit string `"".join(digits)` built from the first `n` characters of `s`. */
  function DigitsOf(s: string, n: nat): seq<nat>
    requires n <= |s| && AllUpperAlnum(s)
  {
    if n == 0 then [] else DigitsOf(s, n - 1) + CharDigits(s[n - 1])
  }

  /** The number written by the first `n` decimal digits of `ds`. */
  function NumberOf(ds: seq<nat>, n: nat): nat
    requires n <= |ds|
  {
    if n == 0 then 0 else NumberOf(ds, n - 1) * 10 + ds[n - 1]
  }

  function Pow10(k: nat): nat {
    if k == 0 then 1 else 10 * Pow10(k - 1)
  }

  /** The decimal number whose remainder modulo 97 decides the check. */
  function CheckNumber(s: string): nat
    requires |s| >= 4 && AllUpperAlnum(s)
  {
    var ds := DigitsOf(Rearranged(s), |s|);
    NumberOf(ds, |ds|)
  }

  /** What `iban_is_valid` accepts. */
  predicate ValidIban(iban: string) {
    var s := Compact(iban);
    15 <= |s| <= 34 && AllUpperAlnum(s) && CheckNumber(s) % 97 == 1
  }

  lemma {:induction false} ModStep(a: nat, d: nat)
    ensures (a * 10 + d) % 97 == ((a % 97) * 10 + d) % 97
  {
    var q, r := a / 97, a % 97;
    assert a == 97 * q + r;
    assert a * 10 + d == 97 * (10 * q) + (r * 10 + d);
    DropMultiple(10 * q, r * 10 + d);
  }

  lemma {:induction false} DropMultiple(k: int, x: int)
    ensures (97 * k + x) % 97 == x % 97
  {
  }

  /** `iban_is_valid`: the remainder is folded digit by digit, so that the number itself
      is never built. */
  method IbanIsValid(iban: string) returns (ok: bool)
    ensures ok == ValidIban(iban)
  {
    var s := Compact(iban);
    if !(15 <= |s| <= 34) {
      return false;
    }
    if !AllUpperAlnum(s) {
      return false;
    }
    var rearranged := s[4..] + s[..4];
    var digits: seq<nat> := [];
    for i := 0 to |rearranged|
      invariant digits == DigitsOf(rearranged, i)
    {
      digits := digits + CharDigits(rearranged[i]);
    }
    var rem := 0;
    for j := 0 to |digits|
      invariant rem == NumberOf(digits, j) % 97
    {
      ModStep(NumberOf(digits, j), digits[j]);
      rem := (rem * 10 + digits[j]) % 97;
    }
    ok := rem == 1;
  }

  // ---------------------------------------------------------------------------
  // A single mistyped digit is always caught.
  // ---------------------------------------------------------------------------

  /** Replacing a digit by a digit changes exactly one digit of the digit string. */
  lemma {:induction false} DigitsOfSubstitute(s: string, p: nat, c: char, n: nat)
    requires AllUpperAlnum(s) && p < |s| && IsDigit(s[p]) && IsDigit(c) && n <= |s|
    ensures AllUpperAlnum(s[p := c])
    ensures |DigitsOf(s[p := c], n)| == |DigitsOf(s, n)|
    ensures n <= p ==> DigitsOf(s[p := c], n) == DigitsOf(s, n)
    ensures n > p ==> |DigitsOf(s, p)| < |DigitsOf(s, n)|
    ensures n > p ==> DigitsOf(s[p := c], n) == DigitsOf(s, n)[|DigitsOf(s, p)| := c as nat - '0' as nat]
  {
    var t := s[p := c];
    assert AllUpperAlnum(t) by {
      forall i | 0 <= i < |t| ensures IsUpperAlnum(t[i]) {
        if i != p { assert t[i] == s[i]; }
      }
    }
    if n > 0 {
      DigitsOfSubstitute(s, p, c, n - 1);
      if n - 1 == p {
        assert DigitsOf(t, n - 1) == DigitsOf(s, n - 1);
        assert DigitsOf(t, n) == DigitsOf(s, n - 1) + [c as nat - '0' as nat];
        assert DigitsOf(s, n) == DigitsOf(s, n - 1) + [s[p] as nat - '0' as nat];
      } else if n - 1 > p {
        assert t[n - 1] == s[n - 1];
      } else {
        assert t[n - 1] == s[n - 1];
      }
    }
  }

  /** Changing digit `q` by `d - ds[q]` changes the number by that amount times its place value. */
  lemma {:induction false} NumberOfSubstitute(ds: seq<nat>, q: nat, d: nat, n: nat)
    requires q < |ds| && n <= |ds|
    ensures NumberOf(ds[q := d], n) as int
            == NumberOf(ds, n) as int + (if n > q then (d as int - ds[q] as int) * Pow10(n - 1 - q) else 0)
  {
    if n > 0 {
      NumberOfSubstitute(ds, q, d, n - 1);
      var e := d as int - ds[q] as int;
      var a := NumberOf(ds, n - 1) as int;
      var a' := NumberOf(ds[q := d], n - 1) as int;
      assert NumberOf(ds[q := d], n) == a' * 10 + ds[q := d][n - 1];
      assert NumberOf(ds, n) == a * 10 + ds[n - 1];
      if n - 1 > q {
        var b := Pow10(n - 2 - q);
        assert Pow10(n - 1 - q) == 10 * b;
        assert a' == a + e * b;
        ScaleByTen(a, e, b);
      }
    }
  }

  lemma {:induction false} ScaleByTen(a: int, e: int, b: int)
    ensures (a + e * b) * 10 == a * 10 + e * (10 * b)
  {
  }

  /** `(10 * x) % 97 == 0` forces `x % 97 == 0`, because 68 * 10 = 7 * 97 + 1. */
  lemma {:induction false} TenCancels(x: int)
    ensures (10 * x) % 97 == 0 ==> x % 97 == 0
  {
    var q, r := (10 * x) / 97, (10 * x) % 97;
    assert 10 * x == 97 * q + r;
    assert x == 97 * (68 * q - 7 * x) + 68 * r;
  }

  /** A non-zero digit difference in any place is never a multiple of 97. */
  lemma {:induction false} PlaceValueNotMultiple(e: int, k: nat)
    requires 1 <= e <= 9 || -9 <= e <= -1
    ensures (e * Pow10(k)) % 97 != 0
  {
    if k > 0 {
      PlaceValueNotMultiple(e, k - 1);
      assert e * Pow10(k) == 10 * (e * Pow10(k - 1));
      TenCancels(e * Pow10(k - 1));
    }
  }

  lemma {:induction false} SameRemainder(a: int, b: int)
    ensures a % 97 == b % 97 ==> (a - b) % 97 == 0
  {
    assert a - b == 97 * (a / 97 - b / 97) + (a % 97 - b % 97);
  }

  lemma {:induction false} CompactOfAlnum(s: string)
    requires AllUpperAlnum(s)
    ensures Compact(s) == s
  {
    assert Upper(s) == s;
    RemoveSpacesNoSpace(s);
  }

  lemma {:induction false} RemoveSpacesNoSpace(s: string)
    requires forall i :: 0 <= i < |s| ==> !IsSpace(s[i])
    ensures RemoveSpaces(s) == s
  {
    if s != [] {
      RemoveSpacesNoSpace(s[1..]);
      assert s == [s[0]] + s[1..];
    }
  }

  /** Moving the first four characters commutes with replacing one character. */
  lemma {:induction false} RearrangedSubstitute(s: string, p: nat, c: char)
    requires 4 <= |s| && p < |s|
    ensures Rearranged(s[p := c]) == Rearranged(s)[(if p >= 4 then p - 4 else |s| - 4 + p) := c]
  {
  }

  /** The check number of a compact IBAN with one digit replaced differs from the original
      one by a non-zero digit difference times a power of ten. */
  lemma {:induction false} CheckNumberSubstitute(s: string, p: nat, c: char) returns (e: int, k: nat)
    requires 4 <= |s| && AllUpperAlnum(s)
    requires p < |s| && IsDigit(s[p]) && IsDigit(c) && c != s[p]
    ensures AllUpperAlnum(s[p := c])
    ensures 1 <= e <= 9 || -9 <= e <= -1
    ensures CheckNumber(s[p := c]) as int == CheckNumber(s) as int + e * Pow10(k)
  {
    var q := if p >= 4 then p - 4 else |s| - 4 + p;
    var r := Rearranged(s);
    RearrangedSubstitute(s, p, c);
    e, k := DigitStringSubstitute(r, q, c);
    DigitsOfSubstitute(s, p, c, 0);
  }

  /** The same on the rearranged string. */
  lemma {:induction false} DigitStringSubstitute(r: string, q: nat, c: char) returns (e: int, k: nat)
    requires AllUpperAlnum(r) && q < |r| && IsDigit(r[q]) && IsDigit(c) && c != r[q]
    ensures AllUpperAlnum(r[q := c])
    ensures 1 <= e <= 9 || -9 <= e <= -1
    ensures var ds, ds' := DigitsOf(r, |r|), DigitsOf(r[q := c], |r|);
            NumberOf(ds', |ds'|) as int == NumberOf(ds, |ds|) as int + e * Pow10(k)
  {
    var ds := DigitsOf(r, |r|);
    var i := |DigitsOf(r, q)|;
    var d := c as nat - '0' as nat;
    DigitsOfSubstitute(r, q, c, |r|);
    DigitAt(r, q, |r|);
    NumberOfSubstitute(ds, i, d, |ds|);
    e, k := d as int - ds[i] as int, |ds| - 1 - i;
  }

  lemma {:induction false} DigitsOfPrefix(s: string, m: nat, n: nat)
    requires m <= n <= |s| && AllUpperAlnum(s)
    ensures |DigitsOf(s, m)| <= |DigitsOf(s, n)|
    ensures DigitsOf(s, n)[..|DigitsOf(s, m)|] == DigitsOf(s, m)
  {
    if m < n {
      DigitsOfPrefix(s, m, n - 1);
      assert DigitsOf(s, n) == DigitsOf(s, n - 1) + CharDigits(s[n - 1]);
    }
  }

  /** Digit `p` of `s` sits at position `|DigitsOf(s, p)|` of the digit string. */
  lemma {:induction false} DigitAt(s: string, p: nat, n: nat)
    requires AllUpperAlnum(s) && p < n <= |s| && IsDigit(s[p])
    ensures |DigitsOf(s, p)| < |DigitsOf(s, n)|
    ensures DigitsOf(s, n)[|DigitsOf(s, p)|] == s[p] as nat - '0' as nat
  {
    DigitsOfPrefix(s, p + 1, n);
    assert DigitsOf(s, p + 1) == DigitsOf(s, p) + [s[p] as nat - '0' as nat];
    assert DigitsOf(s, n)[|DigitsOf(s, p)|] == DigitsOf(s, n)[..|DigitsOf(s, p + 1)|][|DigitsOf(s, p)|];
  }

  /** Replacing any one digit of a valid IBAN (in compact form) by another digit makes it
      fail the check. */
  lemma {:induction false} DigitSubstitutionDetected(s: string, p: nat, c: char)
    requires AllUpperAlnum(s) && ValidIban(s)
    requires p < |s| && IsDigit(s[p]) && IsDigit(c) && c != s[p]
    ensures !ValidIban(s[p := c])
  {
    CompactOfAlnum(s);
    var e, k := CheckNumberSubstitute(s, p, c);
    CompactOfAlnum(s[p := c]);
    PlaceValueNotMultiple(e, k);
    SameRemainder(CheckNumber(s[p := c]), CheckNumber(s));
  }

  const ExampleIban := "FR1420041010050500013M02606"

  /** The example rearranged, and its digit string. */
  const ExampleRearranged := "20041010050500013M02606FR14"
  const ExampleDigits: seq<nat> := [2, 0, 0, 4, 1, 0, 1, 0, 0, 5, 0, 5, 0, 0, 0, 1, 3, 2, 2, 0, 2, 6, 0, 6, 1, 5, 2, 7, 1, 4]

  lemma {:induction false} ExampleRearrangement()
    ensures Rearranged(ExampleIban) == ExampleRearranged
    ensures AllUpperAlnum(ExampleRearranged)
  {
    assert ExampleIban[4..] == "20041010050500013M02606";
    assert ExampleIban[..4] == "FR14";
    ExampleAlnum();
  }

  lemma {:induction false} ExampleAlnum()
    ensures AllUpperAlnum(ExampleRearranged)
  {
  }

  lemma {:induction false} ExampleDigitsUpTo2()
    requires AllUpperAlnum(ExampleRearranged)
    ensures DigitsOf(ExampleRearranged, 2) == [2, 0]
  {
    assert DigitsOf(ExampleRearranged, 1) == [2];
  }

  lemma {:induction false} ExampleDigitsUpTo4()
    requires AllUpperAlnum(ExampleRearranged)
    requires DigitsOf(ExampleRearranged, 2) == [2, 0]
    ensures DigitsOf(ExampleRearranged, 4) == [2, 0, 0, 4]
  {
    assert DigitsOf(ExampleRearranged, 3) == [2, 0, 0];
  }

  lemma {:induction false} ExampleDigitsUpTo6()
    requires AllUpperAlnum(ExampleRearranged)
    requires DigitsOf(ExampleRearranged, 4) == [2, 0, 0, 4]
    ensures DigitsOf(ExampleRearranged, 6) == [2, 0, 0, 4, 1, 0]
  {
    assert DigitsOf(ExampleRearranged, 5) == [2, 0, 0, 4, 1];
  }

  lemma {:induction false} ExampleDigitsUpTo8()
    requires AllUpperAlnum(ExampleRearranged)
    requires DigitsOf(ExampleRearranged, 6) == [2, 0, 0, 4, 1, 0]
    ensures DigitsOf(ExampleRearranged, 8) == [2, 0, 0, 4, 1, 0, 1, 0]
  {
    assert DigitsOf(ExampleRearranged, 7) == [2, 0, 0, 4, 1, 0, 1];
  }

  lemma {:induction false} ExampleDigitsUpTo10()
    requires AllUpperAlnum(ExampleRearranged)
    requires DigitsOf(ExampleRearranged, 8) == [2, 0, 0, 4, 1, 0, 1, 0]
    ensures DigitsOf(ExampleRearranged, 10) == [2, 0, 0, 4, 1, 0, 1, 0, 0, 5]
  {
    assert DigitsOf(ExampleRearranged, 9) == [2, 0, 0, 4, 1, 0, 1, 0, 0];
  }

  lemma {:induction false} ExampleDigitsUpTo12()
    requires AllUpperAlnum(ExampleRearranged)
    requires DigitsOf(ExampleRearranged, 10) == [2, 0, 0, 4, 1, 0, 1, 0, 0, 5]
    ensures DigitsOf(ExampleRearranged, 12) == [2, 0, 0, 4, 1, 0, 1, 0, 0, 5, 0, 5]
  {
    assert DigitsOf(ExampleRearranged, 11) == [2, 0, 0, 4, 1, 0, 1, 0, 0, 5, 0];
  }

  lemma {:induction false} ExampleDigitsUpTo14()
    requires AllUpperAlnum(ExampleRearranged)
    requires DigitsOf(ExampleRearranged, 12) == [2, 0, 0, 4, 1, 0, 1, 0, 0, 5, 0, 5]
    ensures DigitsOf(ExampleRearranged, 14) == [2, 0, 0, 4, 1, 0, 1, 0, 0, 5, 0, 5, 0, 0]
  {
    assert DigitsOf(ExampleRearranged, 13) == [2, 0, 0, 4, 1, 0, 1, 0, 0, 5, 0, 5, 0];
  }

  lemma {:induction false} ExampleDigitsUpTo16()
    requires AllUpperAlnum(ExampleRearranged)
    requires DigitsOf(ExampleRearranged, 14) == [2, 0, 0, 4, 1, 0, 1, 0, 0, 5, 0, 5, 0, 0]
    ensures DigitsOf(ExampleRearranged, 16) == [2, 0, 0, 4, 1, 0, 1, 0, 0, 5, 0, 5, 0, 0, 0, 1]
  {
    assert DigitsOf(ExampleRearranged, 15) == [2, 0, 0, 4, 1, 0, 1, 0, 0, 5, 0, 5, 0, 0, 0];
  }

  lemma {:induction false} ExampleDigitsUpTo18()
    requires AllUpperAlnum(ExampleRearranged)
    requires DigitsOf(ExampleRearranged, 16) == [2, 0, 0, 4, 1, 0, 1, 0, 0, 5, 0, 5, 0, 0, 0, 1]
    ensures DigitsOf(ExampleRearranged, 18) == [2, 0, 0, 4, 1, 0, 1, 0, 0, 5, 0, 5, 0, 0, 0, 1, 3, 2, 2]
  {
    assert DigitsOf(ExampleRearranged, 17) == [2, 0, 0, 4, 1, 0, 1, 0, 0, 5, 0, 5, 0, 0, 0, 1, 3];
  }

  lemma {:induction false} ExampleDigitsUpTo20()
    requires AllUpperAlnum(ExampleRearranged)
    requires DigitsOf(ExampleRearranged, 18) == [2, 0, 0, 4, 1, 0, 1, 0, 0, 5, 0, 5, 0, 0, 0, 1, 3, 2, 2]
    ensures DigitsOf(ExampleRearranged, 20) == [2, 0, 0, 4, 1, 0, 1, 0, 0, 5, 0, 5, 0, 0, 0, 1, 3, 2, 2, 0, 2]
  {
    assert DigitsOf(ExampleRearranged, 19) == [2, 0, 0, 4, 1, 0, 1, 0, 0, 5, 0, 5, 0, 0, 0, 1, 3, 2, 2, 0];
  }

  lemma {:induction false} ExampleDigitsUpTo22()
    requires AllUpperAlnum(ExampleRearranged)
    requires DigitsOf(ExampleRearranged, 20) == [2, 0, 0, 4, 1, 0, 1, 0, 0, 5, 0, 5, 0, 0, 0, 1, 3, 2, 2, 0, 2]
    ensures DigitsOf(ExampleRearranged, 22) == [2, 0, 0, 4, 1, 0, 1, 0, 0, 5, 0, 5, 0, 0, 0, 1, 3, 2, 2, 0, 2, 6, 0]
  {
    assert DigitsOf(ExampleRearranged, 21) == [2, 0, 0, 4, 1, 0, 1, 0, 0, 5, 0, 5, 0, 0, 0, 1, 3, 2, 2, 0, 2, 6];
  }

  lemma {:induction false} ExampleDigitsUpTo24()
    requires AllUpperAlnum(ExampleRearranged)
    requires DigitsOf(ExampleRearranged, 22) == [2, 0, 0, 4, 1, 0, 1, 0, 0, 5, 0, 5, 0, 0, 0, 1, 3, 2, 2, 0, 2, 6, 0]
    ensures DigitsOf(ExampleRearranged, 24) == [2, 0, 0, 4, 1, 0, 1, 0, 0, 5, 0, 5, 0, 0, 0, 1, 3, 2, 2, 0, 2, 6, 0, 6, 1, 5]
  {
    assert DigitsOf(ExampleRearranged, 23) == [2, 0, 0, 4, 1, 0, 1, 0, 0, 5, 0, 5, 0, 0, 0, 1, 3, 2, 2, 0, 2, 6, 0, 6];
  }

  lemma {:induction false} ExampleDigitsUpTo26()
    requires AllUpperAlnum(ExampleRearranged)
    requires DigitsOf(ExampleRearranged, 24) == [2, 0, 0, 4, 1, 0, 1, 0, 0, 5, 0, 5, 0, 0, 0, 1, 3, 2, 2, 0, 2, 6, 0, 6, 1, 5]
    ensures DigitsOf(ExampleRearranged, 26) == [2, 0, 0, 4, 1, 0, 1, 0, 0, 5, 0, 5, 0, 0, 0, 1, 3, 2, 2, 0, 2, 6, 0, 6, 1, 5, 2, 7, 1]
  {
    assert DigitsOf(ExampleRearranged, 25) == [2, 0, 0, 4, 1, 0, 1, 0, 0, 5, 0, 5, 0, 0, 0, 1, 3, 2, 2, 0, 2, 6, 0, 6, 1, 5, 2, 7];
  }

  lemma {:induction false} ExampleDigitsUpTo27()
    requires AllUpperAlnum(ExampleRearranged)
    requires DigitsOf(ExampleRearranged, 26) == [2, 0, 0, 4, 1, 0, 1, 0, 0, 5, 0, 5, 0, 0, 0, 1, 3, 2, 2, 0, 2, 6, 0, 6, 1, 5, 2, 7, 1]
    ensures DigitsOf(ExampleRearranged, 27) == [2, 0, 0, 4, 1, 0, 1, 0, 0, 5, 0, 5, 0, 0, 0, 1, 3, 2, 2, 0, 2, 6, 0, 6, 1, 5, 2, 7, 1, 4]
  {
  }

  lemma {:induction false} ExampleDigitsOf()
    requires AllUpperAlnum(ExampleRearranged)
    ensures DigitsOf(ExampleRearranged, 27) == ExampleDigits
  {
    ExampleDigitsUpTo2();
    ExampleDigitsUpTo4();
    ExampleDigitsUpTo6();
    ExampleDigitsUpTo8();
    ExampleDigitsUpTo10();
    ExampleDigitsUpTo12();
    ExampleDigitsUpTo14();
    ExampleDigitsUpTo16();
    ExampleDigitsUpTo18();
    ExampleDigitsUpTo20();
    ExampleDigitsUpTo22();
    ExampleDigitsUpTo24();
    ExampleDigitsUpTo26();
    ExampleDigitsUpTo27();
  }

  lemma {:induction false} ExampleNumber()
    ensures NumberOf(ExampleDigits, 30) % 97 == 1
  {
    assert NumberOf(ExampleDigits, 1) == 2;
    assert NumberOf(ExampleDigits, 2) == 20;
    assert NumberOf(ExampleDigits, 3) == 200;
    assert NumberOf(ExampleDigits, 4) == 2004;
    assert NumberOf(ExampleDigits, 5) == 20041;
    assert NumberOf(ExampleDigits, 6) == 200410;
    assert NumberOf(ExampleDigits, 7) == 2004101;
    assert NumberOf(ExampleDigits, 8) == 20041010;
    assert NumberOf(ExampleDigits, 9) == 200410100;
    assert NumberOf(ExampleDigits, 10) == 2004101005;
    assert NumberOf(ExampleDigits, 11) == 20041010050;
    assert NumberOf(ExampleDigits, 12) == 200410100505;
    assert NumberOf(ExampleDigits, 13) == 2004101005050;
    assert NumberOf(ExampleDigits, 14) == 20041010050500;
    assert NumberOf(ExampleDigits, 15) == 200410100505000;
    assert NumberOf(ExampleDigits, 16) == 2004101005050001;
    assert NumberOf(ExampleDigits, 17) == 20041010050500013;
    assert NumberOf(ExampleDigits, 18) == 200410100505000132;
    assert NumberOf(ExampleDigits, 19) == 2004101005050001322;
    assert NumberOf(ExampleDigits, 20) == 20041010050500013220;
    assert NumberOf(ExampleDigits, 21) == 200410100505000132202;
    assert NumberOf(ExampleDigits, 22) == 2004101005050001322026;
    assert NumberOf(ExampleDigits, 23) == 20041010050500013220260;
    assert NumberOf(ExampleDigits, 24) == 200410100505000132202606;
    assert NumberOf(ExampleDigits, 25) == 2004101005050001322026061;
    assert NumberOf(ExampleDigits, 26) == 20041010050500013220260615;
    assert NumberOf(ExampleDigits, 27) == 200410100505000132202606152;
    assert NumberOf(ExampleDigits, 28) == 2004101005050001322026061527;
    assert NumberOf(ExampleDigits, 29) == 20041010050500013220260615271;
    assert NumberOf(ExampleDigits, 30) == 200410100505000132202606152714;
  }

  /** The example account number passes the check. */
  lemma {:induction false} ExampleIsValid()
    ensures AllUpperAlnum(ExampleIban) && ValidIban(ExampleIban)
  {
    ExampleIbanAlnum();
    CompactOfAlnum(ExampleIban);
    ExampleCheckNumber();
  }

  lemma {:induction false} ExampleIbanAlnum()
    ensures AllUpperAlnum(ExampleIban) && |ExampleIban| == 27
  {
  }

  lemma {:induction false} ExampleCheckNumber()
    requires AllUpperAlnum(ExampleIban)
    ensures CheckNumber(ExampleIban) % 97 == 1
  {
    ExampleRearrangement();
    ExampleDigitsOf();
    ExampleNumber();
    assert |ExampleDigits| == 30 && |ExampleIban| == 27;
  }

  /** Every single-digit typo of the example fails the check. */
  lemma {:induction false} ExampleTyposRejected(p: nat, c: char)
    requires p < |ExampleIban| && IsDigit(ExampleIban[p]) && IsDigit(c) && c != ExampleIban[p]
    ensures !ValidIban(ExampleIban[p := c])
  {
    ExampleIsValid();
    DigitSubstitutionDetected(ExampleIban, p, c);
  }
}
