/** Character classes and string operations with the meaning Python gives them
    (`str.isspace`, `str.lower`, `str.upper`, `str.strip`, `in`, `str.join`,
    `str.split()`, `re.sub(r"\s+", ...)`). Case mapping covers ASCII and Latin-1. */
module Text {
  import opened Wrappers

  /** Python's `str.isspace()`; also the set of characters `\s` matches in a `str` pattern. */
  predicate IsSpace(c: char) {
    || c == ' ' || '\t' <= c <= '\r' || '\U{1c}' <= c <= '\U{1f}' || c == '\U{85}' || c == '\U{a0}'
    || c == '\U{1680}' || '\U{2000}' <= c <= '\U{200a}' || c == '\U{2028}' || c == '\U{2029}'
    || c == '\U{202f}' || c == '\U{205f}' || c == '\U{3000}'
  }

  predicate IsDigit(c: char) { '0' <= c <= '9' }

  predicate IsUpperLetter(c: char) { 'A' <= c <= 'Z' }

  /** The regex class `[A-Z0-9]`. */
  predicate IsUpperAlnum(c: char) { IsUpperLetter(c) || IsDigit(c) }

  /** `\w` in a `str` pattern: letters, digits and the underscore (ASCII, Latin-1, and the
      two letters outside Latin-1 that `UpperChar` produces). */
  predicate IsWordChar(c: char) {
    || IsDigit(c) || 'A' <= c <= 'Z' || 'a' <= c <= 'z' || c == '_'
    || c == '\U{aa}' || c == '\U{b2}' || c == '\U{b3}' || c == '\U{b5}' || c == '\U{b9}' || c == '\U{ba}'
    || '\U{bc}' <= c <= '\U{be}'
    || ('\U{c0}' <= c <= '\U{ff}' && c != '\U{d7}' && c != '\U{f7}')
    || c == '\U{178}' || c == '\U{39c}'
  }

  function LowerChar(c: char): char {
    if 'A' <= c <= 'Z' || ('\U{c0}' <= c <= '\U{de}' && c != '\U{d7}') then (c as int + 32) as char else c
  }

  function UpperChar(c: char): char {
    if 'a' <= c <= 'z' || ('\U{e0}' <= c <= '\U{fe}' && c != '\U{f7}') then (c as int - 32) as char
    else if c == '\U{b5}' then '\U{39c}'
    else if c == '\U{ff}' then '\U{178}'
    else c
  }

  /** `s.lower()` */
  function Lower(s: string): (r: string)
    ensures |r| == |s| && forall i :: 0 <= i < |s| ==> r[i] == LowerChar(s[i])
  {
    seq(|s|, i requires 0 <= i < |s| => LowerChar(s[i]))
  }

  /** `s.upper()` (one character to one character; the expansion of `ß` is not modelled) */
  function Upper(s: string): (r: string)
    ensures |r| == |s| && forall i :: 0 <= i < |s| ==> r[i] == UpperChar(s[i])
  {
    seq(|s|, i requires 0 <= i < |s| => UpperChar(s[i]))
  }

  predicate StartsWith(s: string, prefix: string) {
    |prefix| <= |s| && s[..|prefix|] == prefix
  }

  predicate EndsWith(s: string, suffix: string) {
    |suffix| <= |s| && s[|s| - |suffix|..] == suffix
  }

  /** Python's `sub in s`. */
  predicate Contains(s: string, sub: string) {
    exists i {:trigger s[i..]} :: 0 <= i <= |s| && StartsWith(s[i..], sub)
  }

  lemma {:induction false} ContainsAt(s: string, sub: string, i: nat)
    requires i <= |s| && StartsWith(s[i..], sub)
    ensures Contains(s, sub)
  {
  }

  /** A character of `sub` that `s` lacks rules out `sub in s`. */
  lemma {:induction false} MissingCharNotContained(s: string, sub: string, k: nat)
    requires k < |sub| && sub[k] !in s
    ensures !Contains(s, sub)
  {
  }

  /** A prefix of `s`, given character by character, is contained in it. */
  lemma {:induction false} PrefixContained(s: string, p: string)
    requires |p| <= |s| && forall i :: 0 <= i < |p| ==> s[i] == p[i]
    ensures Contains(s, p)
  {
    assert s[0..][..|p|] == p;
  }

  /** When the character at offset `k > 0` of `sub` occurs in `s` only at `j`, and the
      character before it cannot line up there, `sub` is not in `s`. */
  lemma {:induction false} OnlyOccurrence(s: string, sub: string, k: nat, j: nat)
    requires 0 < k < |sub|
    requires forall m :: 0 <= m < |s| && s[m] == sub[k] ==> m == j
    requires j < k || (j - 1 < |s| && s[j - 1] != sub[k - 1])
    ensures !Contains(s, sub)
  {
    forall i | 0 <= i <= |s| ensures !StartsWith(s[i..], sub) {
      if i + |sub| <= |s| {
        var t := s[i..][..|sub|];
        if s[i + k] != sub[k] {
          assert t[k] == s[i + k];
        } else {
          assert t[k - 1] == s[j - 1];
        }
      }
    }
  }

  /** `s.find(c)` for a single character: the first position holding `c`. */
  function Find(s: string, c: char): (r: Option<nat>)
    ensures r.Some? ==> r.value < |s| && s[r.value] == c && c !in s[..r.value]
    ensures r.None? <==> c !in s
  {
    if s == [] then None
    else if s[0] == c then Some(0)
    else match Find(s[1..], c)
      case None => None
      case Some(k) => Some(k + 1)
  }

  /** `s.rfind(c)` for a single character: the last position holding `c`. */
  function RFind(s: string, c: char): (r: Option<nat>)
    ensures r.Some? ==> r.value < |s| && s[r.value] == c && c !in s[r.value + 1..]
    ensures r.None? <==> c !in s
  {
    if s == [] then None
    else if s[|s| - 1] == c then Some(|s| - 1)
    else RFind(s[..|s| - 1], c)
  }

  /** With no `c` before position `k`, the first `c` is at `k`. */
  lemma {:induction false} FindIs(s: string, c: char, k: nat)
    requires k < |s| && s[k] == c && c !in s[..k]
    ensures Find(s, c) == Some(k)
  {
    assert s[..k + 1][..k] == s[..k];
  }

  /** With no `c` after position `k`, the last `c` is at `k`. */
  lemma {:induction false} RFindIs(s: string, c: char, k: nat)
    requires k < |s| && s[k] == c && c !in s[k + 1..]
    ensures RFind(s, c) == Some(k)
  {
    assert s[k..][1..] == s[k + 1..];
  }

  /** Appending text without `c` leaves the last `c` where it was. */
  lemma {:induction false} RFindAppend(a: string, b: string, c: char)
    requires c !in b
    ensures RFind(a + b, c) == RFind(a, c)
    decreases |b|
  {
    if b == [] {
      assert a + b == a;
    } else {
      assert (a + b)[..|a + b| - 1] == a + b[..|b| - 1];
      RFindAppend(a, b[..|b| - 1], c);
    }
  }

  /** `s.lstrip()` */
  function TrimLeft(s: string): (r: string)
    ensures |r| <= |s| && r == s[|s| - |r|..]
    ensures r != [] ==> !IsSpace(r[0])
    ensures forall i :: 0 <= i < |s| - |r| ==> IsSpace(s[i])
  {
    if s != [] && IsSpace(s[0]) then TrimLeft(s[1..]) else s
  }

  /** `s.rstrip()` */
  function TrimRight(s: string): (r: string)
    ensures |r| <= |s| && r == s[..|r|]
    ensures r != [] ==> !IsSpace(r[|r| - 1])
    ensures forall i :: |r| <= i < |s| ==> IsSpace(s[i])
  {
    if s != [] && IsSpace(s[|s| - 1]) then TrimRight(s[..|s| - 1]) else s
  }

  /** `s.strip()` */
  function Strip(s: string): string {
    TrimRight(TrimLeft(s))
  }

  /** Nothing but whitespace. */
  predicate IsBlank(s: string) {
    forall i :: 0 <= i < |s| ==> IsSpace(s[i])
  }

  /** `s.strip()` is empty exactly when `s` is blank. */
  lemma {:induction false} StripEmptyIffBlank(s: string)
    ensures Strip(s) == [] <==> IsBlank(s)
  {
    var l := TrimLeft(s);
    if l != [] {
      assert s[|s| - |l|] == l[0];
    }
  }

  /** True when every whitespace character of `s` is a single blank followed by a non-blank. */
  predicate SingleSpaced(s: string) {
    forall i :: 0 <= i < |s| && IsSpace(s[i]) ==> s[i] == ' ' && i + 1 < |s| && !IsSpace(s[i + 1])
  }

  /** The shape `normalize_spaces` promises: no leading, trailing or doubled whitespace,
      and every remaining whitespace character is a plain blank. */
  predicate WellSpaced(s: string) {
    (s != [] ==> !IsSpace(s[0]) && !IsSpace(s[|s| - 1])) && SingleSpaced(s)
  }

  /** `re.sub(r"\s+", " ", s)`: every maximal run of whitespace becomes one blank. */
  function Squeeze(s: string): (r: string)
    ensures |r| <= |s|
    ensures (r == []) == (s == [])
    ensures s != [] && !IsSpace(s[0]) ==> r[0] == s[0]
    ensures forall i :: 0 <= i < |r| && IsSpace(r[i]) ==> r[i] == ' ' && (i + 1 < |r| ==> !IsSpace(r[i + 1]))
    decreases |s|
  {
    if s == [] then []
    else if IsSpace(s[0]) then
      var t := TrimLeft(s[1..]);
      var rest := Squeeze(t);
      assert rest != [] ==> rest[0] == t[0] && !IsSpace(rest[0]);
      assert forall k :: 0 < k <= |rest| ==> ([' '] + rest)[k] == rest[k - 1];
      [' '] + rest
    else
      var rest := Squeeze(s[1..]);
      assert forall k :: 0 < k <= |rest| ==> ([s[0]] + rest)[k] == rest[k - 1];
      [s[0]] + rest
  }

  /** `normalize_spaces` (document_verification.py): collapse whitespace runs, then strip. */
  function NormalizeSpaces(s: string): string {
    Strip(Squeeze(s))
  }

  /** `re.sub(r"\s+", "", s)`: the non-whitespace characters of `s`, in order. */
  function RemoveSpaces(s: string): (r: string)
    ensures |r| <= |s|
    ensures forall c :: c in r ==> c in s && !IsSpace(c)
  {
    if s == [] then [] else (if IsSpace(s[0]) then [] else [s[0]]) + RemoveSpaces(s[1..])
  }

  lemma {:induction false} RemoveSpacesAppend(a: string, b: string)
    ensures RemoveSpaces(a + b) == RemoveSpaces(a) + RemoveSpaces(b)
  {
    if a == [] {
      assert a + b == b;
    } else {
      var head := if IsSpace(a[0]) then [] else [a[0]];
      calc {
        RemoveSpaces(a + b);
      == { assert (a + b)[0] == a[0]; assert (a + b)[1..] == a[1..] + b; }
        head + RemoveSpaces(a[1..] + b);
      == { RemoveSpacesAppend(a[1..], b); }
        head + (RemoveSpaces(a[1..]) + RemoveSpaces(b));
      == { AppendAssoc(head, RemoveSpaces(a[1..]), RemoveSpaces(b)); }
        (head + RemoveSpaces(a[1..])) + RemoveSpaces(b);
      }
    }
  }

  lemma {:induction false} AppendAssoc<T>(a: seq<T>, b: seq<T>, c: seq<T>)
    ensures a + (b + c) == (a + b) + c
  {
  }

  lemma {:induction false} RemoveSpacesAllSpace(s: string)
    requires forall i :: 0 <= i < |s| ==> IsSpace(s[i])
    ensures RemoveSpaces(s) == []
  {
    if s != [] {
      RemoveSpacesAllSpace(s[1..]);
    }
  }

  lemma {:induction false} TrimLeftKeepsNonSpace(s: string)
    ensures RemoveSpaces(TrimLeft(s)) == RemoveSpaces(s)
  {
    var l := TrimLeft(s);
    var dropped := s[..|s| - |l|];
    assert s == dropped + l;
    RemoveSpacesAppend(dropped, l);
    RemoveSpacesAllSpace(dropped);
  }

  lemma {:induction false} TrimRightKeepsNonSpace(s: string)
    ensures RemoveSpaces(TrimRight(s)) == RemoveSpaces(s)
  {
    var r := TrimRight(s);
    var dropped := s[|r|..];
    assert s == r + dropped;
    RemoveSpacesAppend(r, dropped);
    RemoveSpacesAllSpace(dropped);
  }

  lemma {:induction false} StripKeepsNonSpace(s: string)
    ensures RemoveSpaces(Strip(s)) == RemoveSpaces(s)
  {
    TrimLeftKeepsNonSpace(s);
    TrimRightKeepsNonSpace(TrimLeft(s));
  }

  lemma {:induction false} SqueezeKeepsNonSpace(s: string)
    ensures RemoveSpaces(Squeeze(s)) == RemoveSpaces(s)
    decreases |s|
  {
    if s != [] {
      if IsSpace(s[0]) {
        var t := TrimLeft(s[1..]);
        SqueezeKeepsNonSpace(t);
        RemoveSpacesAppend([' '], Squeeze(t));
        TrimLeftKeepsNonSpace(s[1..]);
      } else {
        SqueezeKeepsNonSpace(s[1..]);
        RemoveSpacesAppend([s[0]], Squeeze(s[1..]));
      }
    }
  }

  /** `normalize_spaces` only removes or rewrites whitespace: the other characters survive in order. */
  lemma {:induction false} NormalizeSpacesKeepsText(s: string)
    ensures RemoveSpaces(NormalizeSpaces(s)) == RemoveSpaces(s)
  {
    SqueezeKeepsNonSpace(s);
    StripKeepsNonSpace(Squeeze(s));
  }

  /** `normalize_spaces` leaves no leading, trailing or doubled whitespace. */
  lemma {:induction false} NormalizeSpacesWellSpaced(s: string)
    ensures WellSpaced(NormalizeSpaces(s))
  {
    var q := Squeeze(s);
    var l := TrimLeft(q);
    var r := TrimRight(l);
    assert r == NormalizeSpaces(s);
    var off := |q| - |l|;
    forall i | 0 <= i < |r| && IsSpace(r[i])
      ensures r[i] == ' ' && i + 1 < |r| && !IsSpace(r[i + 1])
    {
      assert r[i] == q[off + i];
      if i + 1 == |r| {
        assert false;
      }
      assert r[i + 1] == q[off + i + 1];
    }
  }

  lemma {:induction false} SingleSpacedSqueezeFixed(s: string)
    requires SingleSpaced(s)
    ensures Squeeze(s) == s
    decreases |s|
  {
    if s != [] {
      var t := s[1..];
      assert s == [s[0]] + t;
      assert SingleSpaced(t) by {
        forall i | 0 <= i < |t| && IsSpace(t[i])
          ensures t[i] == ' ' && i + 1 < |t| && !IsSpace(t[i + 1])
        {
          assert t[i] == s[i + 1];
          assert i + 2 < |s| && t[i + 1] == s[i + 2];
        }
      }
      SingleSpacedSqueezeFixed(t);
      if IsSpace(s[0]) {
        assert 1 < |s| && !IsSpace(s[1]) && t[0] == s[1];
        assert TrimLeft(t) == t;
        assert Squeeze(s) == [' '] + Squeeze(TrimLeft(t));
      } else {
        assert Squeeze(s) == [s[0]] + Squeeze(t);
      }
    }
  }

  /** A well-spaced string is a fixed point of `normalize_spaces`. */
  lemma {:induction false} WellSpacedFixed(s: string)
    requires WellSpaced(s)
    ensures NormalizeSpaces(s) == s
  {
    SingleSpacedSqueezeFixed(s);
  }

  /** `normalize_spaces` is idempotent. */
  lemma {:induction false} NormalizeSpacesIdempotent(s: string)
    ensures NormalizeSpaces(NormalizeSpaces(s)) == NormalizeSpaces(s)
  {
    NormalizeSpacesWellSpaced(s);
    WellSpacedFixed(NormalizeSpaces(s));
  }

  /** The longest prefix of `s` without whitespace. */
  function Token(s: string): (w: string)
    ensures |w| <= |s| && w == s[..|w|]
    ensures forall i :: 0 <= i < |w| ==> !IsSpace(w[i])
    ensures |w| < |s| ==> IsSpace(s[|w|])
  {
    if s == [] || IsSpace(s[0]) then [] else [s[0]] + Token(s[1..])
  }

  /** A non-empty run of non-whitespace characters. */
  predicate IsWord(w: string) {
    w != [] && forall i :: 0 <= i < |w| ==> !IsSpace(w[i])
  }

  /** `s.split()`: the maximal runs of non-whitespace characters, in order. */
  function Words(s: string): (ws: seq<string>)
    ensures forall k :: 0 <= k < |ws| ==> IsWord(ws[k])
    decreases |s|
  {
    var t := TrimLeft(s);
    if t == [] then []
    else
      var w := Token(t);
      assert IsWord(w) && |t[|w|..]| < |s|;
      var rest := Words(t[|w|..]);
      assert forall k :: 0 < k <= |rest| ==> ([w] + rest)[k] == rest[k - 1];
      [w] + rest
  }

  /** `sep.join(parts)` */
  function Join(parts: seq<string>, sep: string): string
  {
    if |parts| == 0 then ""
    else if |parts| == 1 then parts[0]
    else parts[0] + sep + Join(parts[1..], sep)
  }

  lemma {:induction false} JoinLength(parts: seq<string>, sep: string, total: nat)
    requires |parts| > 0
    requires total == SumLengths(parts)
    ensures |Join(parts, sep)| == total + (|parts| - 1) * |sep|
  {
    if |parts| > 1 {
      JoinLength(parts[1..], sep, SumLengths(parts[1..]));
    }
  }

  /** Joining one more part adds the separator and the part at the end. */
  lemma {:induction false} JoinAppend(parts: seq<string>, p: string, sep: string)
    requires parts != []
    ensures Join(parts + [p], sep) == Join(parts, sep) + sep + p
    decreases |parts|
  {
    if |parts| == 1 {
      assert parts + [p] == [parts[0], p];
      assert Join([p], sep) == p;
    } else {
      assert (parts + [p])[1..] == parts[1..] + [p];
      JoinAppend(parts[1..], p, sep);
    }
  }

  function SumLengths(parts: seq<string>): nat {
    if parts == [] then 0 else |parts[0]| + SumLengths(parts[1..])
  }

  /** `str(n)` for a natural number. */
  function NatToString(n: nat): (s: string)
    ensures s != [] && forall i :: 0 <= i < |s| ==> IsDigit(s[i])
  {
    var d := ['0' + (n % 10) as char];
    if n < 10 then d else NatToString(n / 10) + d
  }

  /** `str(i)` for an integer. */
  function IntToString(i: int): string {
    if i < 0 then "-" + NatToString(-i) else NatToString(i)
  }
}
