/** The .NET string primitives the program relies on: `char.IsWhiteSpace`,
    `Trim`, `IndexOf`/`IndexOfAny`, ordinal-ignore-case comparison,
    `int.ToString()` and `int.TryParse`. */
module Text {
  import opened Wrappers

  const MinInt32: int := -0x8000_0000
  const MaxInt32: int := 0x7FFF_FFFF
  const MinInt64: int := -0x8000_0000_0000_0000
  const MaxInt64: int := 0x7FFF_FFFF_FFFF_FFFF

  /** C# `int` and `long`. */
  type int32 = x: int | MinInt32 <= x <= MaxInt32
  type int64 = x: int | MinInt64 <= x <= MaxInt64

  // ---------------------------------------------------------------------------
  // Whitespace and Trim
  // ---------------------------------------------------------------------------

  /** `char.IsWhiteSpace`: the Unicode White_Space characters. */
  predicate IsWhiteSpace(c: char) {
    || ('\t' <= c <= '\r') || c == ' ' || c == '\U{85}' || c == '\U{A0}' || c == '\U{1680}'
    || ('\U{2000}' <= c <= '\U{200A}') || c == '\U{2028}' || c == '\U{2029}'
    || c == '\U{202F}' || c == '\U{205F}' || c == '\U{3000}'
  }

  predicate AllWhiteSpace(s: string) {
    forall i :: 0 <= i < |s| ==> IsWhiteSpace(s[i])
  }

  /** No character at which `File.ReadAllLines` ends a line. */
  predicate NoLineBreak(s: string) {
    forall i :: 0 <= i < |s| ==> s[i] != '\r' && s[i] != '\n'
  }

  /** A string with no whitespace at either end. */
  predicate IsTrimmed(s: string) {
    s == [] || (!IsWhiteSpace(s[0]) && !IsWhiteSpace(s[|s| - 1]))
  }

  /** `string.TrimStart()`: the suffix left after dropping leading whitespace. */
  function TrimStart(s: string): (r: string)
    ensures |r| <= |s|
    ensures r != [] ==> !IsWhiteSpace(r[0])
    ensures forall i :: 0 <= i < |s| - |r| ==> IsWhiteSpace(s[i])
  {
    if s != [] && IsWhiteSpace(s[0]) then TrimStart(s[1..]) else s
  }

  /** `string.TrimEnd()`: the prefix left after dropping trailing whitespace. */
  function TrimEnd(s: string): (r: string)
    ensures |r| <= |s|
    ensures r != [] ==> !IsWhiteSpace(r[|r| - 1]) && r[0] == s[0]
    ensures forall i :: |r| <= i < |s| ==> IsWhiteSpace(s[i])
  {
    if s != [] && IsWhiteSpace(s[|s| - 1]) then TrimEnd(s[..|s| - 1]) else s
  }

  /** `string.Trim()`. */
  function Trim(s: string): (r: string)
    ensures IsTrimmed(r) && |r| <= |s|
  {
    TrimEnd(TrimStart(s))
  }

  /** `string.IsNullOrWhiteSpace` on a non-null string. */
  predicate IsBlank(s: string) {
    AllWhiteSpace(s)
  }

  /** `TrimStart` leaves a suffix of its argument. */
  lemma {:induction false} TrimStartIsSuffix(s: string)
    ensures TrimStart(s) == s[|s| - |TrimStart(s)|..]
  {
    if s != [] && IsWhiteSpace(s[0]) {
      TrimStartIsSuffix(s[1..]);
    }
  }

  /** `TrimEnd` leaves a prefix of its argument. */
  lemma {:induction false} TrimEndIsPrefix(s: string)
    ensures TrimEnd(s) == s[..|TrimEnd(s)|]
  {
    if s != [] && IsWhiteSpace(s[|s| - 1]) {
      TrimEndIsPrefix(s[..|s| - 1]);
    }
  }

  /** The whitespace `TrimStart` drops is a prefix of its argument. */
  lemma TrimStartSplit(s: string) returns (p: string)
    ensures s == p + TrimStart(s) && AllWhiteSpace(p)
  {
    var n := |s| - |TrimStart(s)|;
    TrimStartIsSuffix(s);
    p := s[..n];
    assert s == s[..n] + s[n..];
    forall i | 0 <= i < |p| ensures IsWhiteSpace(p[i]) {
      assert p[i] == s[i];
    }
  }

  /** The whitespace `TrimEnd` drops is a suffix of its argument. */
  lemma TrimEndSplit(u: string) returns (q: string)
    ensures u == TrimEnd(u) + q && AllWhiteSpace(q)
  {
    var t := TrimEnd(u);
    TrimEndIsPrefix(u);
    q := u[|t|..];
    assert t == u[..|t|];
    forall i | 0 <= i < |q| ensures IsWhiteSpace(q[i]) {
      assert q[i] == u[|t| + i];
    }
  }

  /** Every string is some whitespace, its trimmed form, and some whitespace. */
  lemma TrimDecompose(s: string) returns (p: string, q: string)
    ensures s == p + Trim(s) + q
    ensures AllWhiteSpace(p) && AllWhiteSpace(q)
  {
    p := TrimStartSplit(s);
    q := TrimEndSplit(TrimStart(s));
    assert p + (Trim(s) + q) == p + Trim(s) + q;
  }

  lemma {:induction false} TrimStartOfPadded(p: string, r: string)
    requires AllWhiteSpace(p) && (r == [] || !IsWhiteSpace(r[0]))
    ensures TrimStart(p + r) == r
  {
    if p != [] {
      assert (p + r)[1..] == p[1..] + r;
      TrimStartOfPadded(p[1..], r);
    }
  }

  lemma {:induction false} TrimEndOfPadded(r: string, q: string)
    requires AllWhiteSpace(q) && (r == [] || !IsWhiteSpace(r[|r| - 1]))
    ensures TrimEnd(r + q) == r
  {
    if q != [] {
      assert (r + q)[..|r + q| - 1] == r + q[..|q| - 1];
      TrimEndOfPadded(r, q[..|q| - 1]);
    } else {
      assert r + q == r;
    }
  }

  /** Trimming undoes any whitespace padding around a trimmed string. */
  lemma TrimOfPadded(p: string, r: string, q: string)
    requires AllWhiteSpace(p) && AllWhiteSpace(q) && IsTrimmed(r)
    ensures Trim(p + r + q) == r
  {
    if r == [] {
      assert p + r + q == (p + q) + [];
      TrimStartOfPadded(p + q, []);
    } else {
      assert p + r + q == p + (r + q);
      TrimStartOfPadded(p, r + q);
      TrimEndOfPadded(r, q);
    }
  }

  /** Trailing whitespace after a string that ends in a non-space character
      is all `TrimEnd` removes. */
  lemma {:induction false} TrimEndAfter(a: string, w: string)
    requires a != [] && !IsWhiteSpace(a[|a| - 1])
    ensures TrimEnd(a + w) == a + TrimEnd(w)
  {
    if w != [] && IsWhiteSpace(w[|w| - 1]) {
      assert (a + w)[..|a + w| - 1] == a + w[..|w| - 1];
      TrimEndAfter(a, w[..|w| - 1]);
    } else if w == [] {
      assert a + w == a;
    }
  }

  /** Trimming the end first does not change the trimmed result. */
  lemma TrimOfTrimEnd(w: string)
    ensures Trim(TrimEnd(w)) == Trim(w)
  {
    var p, q := TrimDecompose(w);
    if Trim(w) == [] {
      assert w == p + q;
      BlankTrimEnd(p, q);
    } else {
      PaddedTrimEnd(p, Trim(w), q);
    }
  }

  /** All-whitespace input trims to nothing from the end. */
  lemma BlankTrimEnd(p: string, q: string)
    requires AllWhiteSpace(p) && AllWhiteSpace(q)
    ensures TrimEnd(p + q) == []
  {
    forall i | 0 <= i < |p + q| ensures IsWhiteSpace((p + q)[i]) {
      if i < |p| { assert (p + q)[i] == p[i]; } else { assert (p + q)[i] == q[i - |p|]; }
    }
    assert [] + (p + q) == p + q;
    TrimEndOfPadded([], p + q);
  }

  /** Trimming after `TrimEnd` of a padded non-empty trimmed text gives the text. */
  lemma PaddedTrimEnd(p: string, m: string, q: string)
    requires AllWhiteSpace(p) && AllWhiteSpace(q) && IsTrimmed(m) && m != []
    ensures Trim(TrimEnd(p + m + q)) == m
  {
    TrimEndOfPadded(p + m, q);
    TrimOfPadded(p, m, []);
    assert p + m + [] == p + m;
  }

  /** Trimming a trimmed string changes nothing. */
  lemma TrimTrimmed(s: string)
    requires IsTrimmed(s)
    ensures Trim(s) == s
  {
    TrimOfPadded([], s, []);
    assert [] + s + [] == s;
  }

  /** A string is blank exactly when trimming leaves nothing. */
  lemma BlankIffTrimEmpty(s: string)
    ensures IsBlank(s) <==> Trim(s) == []
  {
    if IsBlank(s) {
      TrimOfPadded(s, [], []);
      assert s + [] + [] == s;
    } else {
      var p, q := TrimDecompose(s);
    }
  }

  // ---------------------------------------------------------------------------
  // Searching
  // ---------------------------------------------------------------------------

  /** `string.IndexOfAny`: the first index holding one of `cs`, or -1. */
  function IndexOfAny(s: string, cs: set<char>): (r: int)
    ensures -1 <= r < |s|
    ensures r >= 0 ==> s[r] in cs && forall j :: 0 <= j < r ==> s[j] !in cs
    ensures r == -1 ==> forall j :: 0 <= j < |s| ==> s[j] !in cs
  {
    if s == [] then -1
    else if s[0] in cs then 0
    else
      var k := IndexOfAny(s[1..], cs);
      if k < 0 then -1 else k + 1
  }

  /** `string.IndexOf(char)`. */
  function IndexOf(s: string, c: char): int {
    IndexOfAny(s, {c})
  }

  /** The first character is `c`: exactly `string.StartsWith(char)`, which is
      ordinal. `StartsWith(string)` and `EndsWith(string)` with a
      one-character string compare by the current culture, which ignores
      characters such as U+00AD and U+200B; this test stands in for them
      without that. */
  predicate StartsWithChar(s: string, c: char) {
    s != [] && s[0] == c
  }

  // ---------------------------------------------------------------------------
  // Ordinal-ignore-case comparison
  // ---------------------------------------------------------------------------

  function FoldChar(c: char): char {
    if 'A' <= c <= 'Z' then (c as int + 32) as char else c
  }

  /** The ASCII case fold that stands for `StringComparer.OrdinalIgnoreCase`. */
  function Fold(s: string): (r: string)
    ensures |r| == |s|
  {
    seq(|s|, i requires 0 <= i < |s| => FoldChar(s[i]))
  }

  /** Equality under `StringComparer.OrdinalIgnoreCase`. */
  predicate SameIgnoringCase(a: string, b: string) {
    Fold(a) == Fold(b)
  }

  predicate HasNoUpper(s: string) {
    forall i :: 0 <= i < |s| ==> !('A' <= s[i] <= 'Z')
  }

  lemma FoldNoUpper(s: string)
    requires HasNoUpper(s)
    ensures Fold(s) == s
  {
  }

  // ---------------------------------------------------------------------------
  // Decimal numbers: `ToString()` and `int.TryParse`
  // ---------------------------------------------------------------------------

  predicate IsDigit(c: char) {
    '0' <= c <= '9'
  }

  predicate AllDigits(s: string) {
    forall i :: 0 <= i < |s| ==> IsDigit(s[i])
  }

  function DigitChar(d: nat): char
    requires d < 10
  {
    ('0' as int + d) as char
  }

  /** The decimal digits of `n`, most significant first, with no leading zero. */
  function NatToString(n: nat): (r: string)
    ensures r != [] && AllDigits(r)
  {
    if n < 10 then [DigitChar(n)] else NatToString(n / 10) + [DigitChar(n % 10)]
  }

  /** `ToString()` of an integer under the invariant culture. */
  function IntToString(n: int): (r: string)
    ensures r != [] && !IsWhiteSpace(r[0]) && !IsWhiteSpace(r[|r| - 1])
    ensures n < 0 ==> r[0] == '-' && AllDigits(r[1..])
    ensures n >= 0 ==> AllDigits(r)
  {
    if n < 0 then "-" + NatToString(-n) else NatToString(n)
  }

  /** The value of a digit string. */
  function DigitsValue(ds: string): nat
    requires AllDigits(ds)
  {
    if ds == [] then 0
    else DigitsValue(ds[..|ds| - 1]) * 10 + (ds[|ds| - 1] as int - '0' as int)
  }

  lemma {:induction false} NatToStringRoundTrip(n: nat)
    ensures DigitsValue(NatToString(n)) == n
  {
    if n >= 10 {
      var r := NatToString(n);
      assert r[..|r| - 1] == NatToString(n / 10);
      NatToStringRoundTrip(n / 10);
    }
  }

  /** The whitespace `NumberStyles.Integer` allows around a number. */
  predicate IsNumberWhite(c: char) {
    c == ' ' || '\t' <= c <= '\r'
  }

  function DropNumberWhite(s: string): (r: string)
    ensures |r| <= |s|
  {
    if s != [] && IsNumberWhite(s[0]) then DropNumberWhite(s[1..]) else s
  }

  function DropTrailingNumberWhite(s: string): (r: string)
    ensures |r| <= |s|
  {
    if s != [] && IsNumberWhite(s[|s| - 1]) then DropTrailingNumberWhite(s[..|s| - 1]) else s
  }

  /** `int.TryParse(s, out n)`: optional surrounding whitespace, an optional
      sign, then at least one ASCII digit; values outside `int` fail. */
  function TryParseInt32(s: string): (r: Option<int32>)
    ensures s != [] && AllDigits(s) && DigitsValue(s) <= MaxInt32 ==> r == Some(DigitsValue(s) as int32)
    ensures |s| > 1 && s[0] == '-' && AllDigits(s[1..]) && MinInt32 <= -(DigitsValue(s[1..]) as int) ==>
              r == Some((-(DigitsValue(s[1..]) as int)) as int32)
    ensures s == [] ==> r.None?
  {
    var t := DropTrailingNumberWhite(DropNumberWhite(s));
    var negative := t != [] && t[0] == '-';
    var digits := if t != [] && (t[0] == '-' || t[0] == '+') then t[1..] else t;
    if digits == [] || !AllDigits(digits) then None
    else
      var v: int := if negative then -(DigitsValue(digits) as int) else DigitsValue(digits);
      if MinInt32 <= v <= MaxInt32 then Some(v) else None
  }

  /** `int.TryParse(n.ToString())` gives back every `int`. */
  lemma ParseIntToString(n: int32)
    ensures TryParseInt32(IntToString(n)) == Some(n)
  {
    var r := IntToString(n);
    if n < 0 {
      assert r[1..] == NatToString(-(n as int));
      NatToStringRoundTrip(-(n as int));
    } else {
      NatToStringRoundTrip(n);
    }
  }

  /** Different integers print differently. */
  lemma IntToStringInjective(a: int, b: int)
    requires IntToString(a) == IntToString(b)
    ensures a == b
  {
    IntToStringDecodes(a);
    IntToStringDecodes(b);
  }

  /** The printed form gives back the sign and the magnitude. */
  lemma IntToStringDecodes(a: int)
    ensures var r := IntToString(a);
      && (a < 0 <==> r[0] == '-')
      && (a < 0 ==> a == -(DigitsValue(r[1..]) as int))
      && (a >= 0 ==> a == DigitsValue(r))
  {
    var r := IntToString(a);
    if a < 0 {
      assert r[1..] == NatToString(-a);
      NatToStringRoundTrip(-a);
    } else {
      assert IsDigit(r[0]);
      NatToStringRoundTrip(a);
    }
  }

}
