/**
 * String operations the modelled code borrows from Python's `str` type:
 * prefix/infix tests, `split`, `strip`/`rstrip`, ASCII case mapping, `join`,
 * the code-point ordering SQLite's BINARY collation uses, and the `int()`
 * and `float()` parsers for decimal text.
 */
module Text {
  import opened Wrappers

  predicate IsDigit(c: char) { '0' <= c <= '9' }

  /** ASCII whitespace as Python's `str.strip()` and regex `\s` see it. */
  predicate IsSpace(c: char) {
    c == ' ' || c == '\t' || c == '\n' || c == '\r' || c as int == 11 || c as int == 12
  }

  predicate AllDigits(s: string) {
    forall i :: 0 <= i < |s| ==> IsDigit(s[i])
  }

  predicate StartsWith(s: string, prefix: string) {
    |prefix| <= |s| && s[..|prefix|] == prefix
  }

  /** Python's `sub in s`. */
  predicate Contains(s: string, sub: string) {
    exists i :: 0 <= i <= |s| && StartsWith(s[i..], sub)
  }

  /** The first index at or after `from` where `sep` occurs in `s`. */
  function FindFrom(s: string, sep: string, from: nat): (r: Option<nat>)
    requires from <= |s|
    ensures r.Some? ==> from <= r.value <= |s| && StartsWith(s[r.value..], sep)
    ensures r.Some? ==> forall j :: from <= j < r.value ==> !StartsWith(s[j..], sep)
    ensures r.None? ==> forall j :: from <= j <= |s| ==> !StartsWith(s[j..], sep)
    decreases |s| - from
  {
    if StartsWith(s[from..], sep) then Some(from)
    else if from == |s| then None
    else FindFrom(s, sep, from + 1)
  }

  /**
   * `s.split(sep)[1]` for an `s` that starts with `prefix` and a `prefix`
   * that ends in `sep`: the text after the prefix up to the next `sep`.
   */
  function SegmentAfter(s: string, prefix: string, sep: string): (r: string)
    requires StartsWith(s, prefix) && |sep| > 0
    ensures StartsWith(s[|prefix|..], r)
    ensures !Contains(r, sep)
    ensures Contains(s[|prefix|..], sep) ==> StartsWith(s[|prefix| + |r|..], sep)
    ensures !Contains(s[|prefix|..], sep) ==> r == s[|prefix|..]
  {
    var rest := s[|prefix|..];
    match FindFrom(rest, sep, 0)
    case Some(k) => PrefixBeforeFirst(rest, sep, k); rest[..k]
    case None => rest
  }

  /** Without `sep` in the message the segment after the prefix is the whole message. */
  lemma SegmentAfterWhole(prefix: string, sep: string, msg: string)
    requires !Contains(msg, sep) && |sep| > 0
    ensures StartsWith(prefix + msg, prefix)
    ensures SegmentAfter(prefix + msg, prefix, sep) == msg
  {
    assert (prefix + msg)[..|prefix|] == prefix;
    assert (prefix + msg)[|prefix|..] == msg;
  }

  function StripLeft(s: string): (r: string)
    ensures |r| <= |s| && r == s[|s| - |r|..]
    ensures |r| > 0 ==> !IsSpace(r[0])
  {
    if |s| > 0 && IsSpace(s[0]) then StripLeft(s[1..]) else s
  }

  function StripRight(s: string): (r: string)
    ensures |r| <= |s| && r == s[..|r|]
    ensures |r| > 0 ==> !IsSpace(r[|r| - 1])
  {
    if |s| > 0 && IsSpace(s[|s| - 1]) then StripRight(s[..|s| - 1]) else s
  }

  /** Python's `s.strip()` for ASCII whitespace. */
  function Strip(s: string): string {
    StripRight(StripLeft(s))
  }

  /** Python's `s.rstrip(chars)`: drop trailing characters that belong to `chars`. */
  function RStripChars(s: string, chars: set<char>): (r: string)
    ensures |r| <= |s| && r == s[..|r|]
    ensures |r| > 0 ==> r[|r| - 1] !in chars
    ensures forall i :: |r| <= i < |s| ==> s[i] in chars
  {
    if |s| > 0 && s[|s| - 1] in chars then RStripChars(s[..|s| - 1], chars) else s
  }

  function UpperChar(c: char): char {
    if 'a' <= c <= 'z' then (c as int - 32) as char else c
  }

  /** Python's `s.upper()` restricted to ASCII letters. */
  function Upper(s: string): (r: string)
    ensures |r| == |s|
    ensures forall i :: 0 <= i < |s| ==> r[i] == UpperChar(s[i])
  {
    if |s| == 0 then "" else [UpperChar(s[0])] + Upper(s[1..])
  }

  /** Python's `sep.join(parts)`. */
  function Join(sep: string, parts: seq<string>): (r: string)
    ensures |parts| == 1 ==> r == parts[0]
    ensures |parts| == 0 ==> r == ""
  {
    if |parts| == 0 then ""
    else if |parts| == 1 then parts[0]
    else parts[0] + sep + Join(sep, parts[1..])
  }

  /**
   * Python's `s.split(sep)` for a non-empty `sep`: the pieces between the
   * occurrences of `sep`, found left to right without overlap.
   */
  function Split(s: string, sep: string): (r: seq<string>)
    requires |sep| > 0
    ensures |r| > 0
    ensures Join(sep, r) == s
    ensures forall k :: 0 <= k < |r| ==> !Contains(r[k], sep)
    decreases |s|
  {
    match FindFrom(s, sep, 0)
    case None => [s]
    case Some(k) =>
      assert s[k..k + |sep|] == sep;
      var rest := Split(s[k + |sep|..], sep);
      assert !Contains(s[..k], sep) by { PrefixBeforeFirst(s, sep, k); }
      assert ([s[..k]] + rest)[1..] == rest;
      assert s == s[..k] + sep + s[k + |sep|..];
      [s[..k]] + rest
  }

  /** Text without `sub` has no occurrence of it at any given index. */
  lemma NotAt(s: string, sub: string, i: nat)
    requires !Contains(s, sub) && i <= |s|
    ensures !StartsWith(s[i..], sub)
  {
  }

  /** No occurrence of `sep` lies wholly inside the text before its first occurrence. */
  lemma PrefixBeforeFirst(s: string, sep: string, k: nat)
    requires |sep| > 0 && k <= |s|
    requires forall j :: 0 <= j < k ==> !StartsWith(s[j..], sep)
    ensures !Contains(s[..k], sep)
  {
    forall i | 0 <= i <= k ensures !StartsWith(s[..k][i..], sep) {
      if i + |sep| <= k {
        assert s[..k][i..][..|sep|] == s[i..][..|sep|];
      }
    }
  }

  /**
   * The first occurrence of `sep` in `a + sep + b` is the one after `a`,
   * provided none starts inside `a`: no occurrence of `sep` in `a` followed by
   * all but the last character of `sep`.
   */
  lemma FirstAfter(a: string, sep: string, b: string)
    requires |sep| > 0 && !Contains(a + sep[..|sep| - 1], sep)
    ensures FindFrom(a + sep + b, sep, 0) == Some(|a|)
  {
    var s := a + sep + b;
    assert s[|a|..][..|sep|] == sep;
    var t := a + sep[..|sep| - 1];
    assert (a + sep)[..|t|] == t;
    assert t == s[..|t|];
    forall j | 0 <= j < |a| ensures !StartsWith(s[j..], sep) {
      NotAt(t, sep, j);
      assert t[j..][..|sep|] == s[j..j + |sep|] == s[j..][..|sep|];
    }
  }

  /** A part that keeps `sep` out even with most of `sep` appended keeps it out on its own. */
  lemma NoneBefore(p: string, sep: string)
    requires |sep| > 0 && !Contains(p + sep[..|sep| - 1], sep)
    ensures !Contains(p, sep)
  {
    var t := p + sep[..|sep| - 1];
    forall i | 0 <= i <= |p| ensures !StartsWith(p[i..], sep) {
      NotAt(t, sep, i);
      if i + |sep| <= |p| {
        assert t[i..][..|sep|] == p[i..][..|sep|];
      }
    }
  }

  /**
   * Splitting a join gives the parts back, when no occurrence of `sep` can
   * start inside a part: for a one-character `sep`, when no part contains it.
   */
  lemma {:induction false} SplitJoin(sep: string, parts: seq<string>)
    requires |sep| > 0 && |parts| > 0
    requires forall k :: 0 <= k < |parts| ==> !Contains(parts[k] + sep[..|sep| - 1], sep)
    ensures Split(Join(sep, parts), sep) == parts
    decreases |parts|
  {
    var p := parts[0];
    if |parts| == 1 {
      NoneBefore(p, sep);
      assert FindFrom(p, sep, 0).None?;
    } else {
      var rest := Join(sep, parts[1..]);
      var s := parts[0] + sep + rest;
      assert Join(sep, parts) == s;
      FirstAfter(p, sep, rest);
      assert s[|p| + |sep|..] == rest;
      assert s[..|p|] == p;
      assert Split(s, sep) == [p] + Split(rest, sep);
      SplitJoin(sep, parts[1..]);
      assert parts == [p] + parts[1..];
    }
  }

  /**
   * `s.split(sep)[1]` of text that starts with `head + sep` is the segment
   * after that prefix, when no occurrence of `sep` starts inside `head`.
   */
  lemma SegmentAfterIsSecondPiece(s: string, head: string, sep: string)
    requires |sep| > 0 && StartsWith(s, head + sep)
    requires !Contains(head + sep[..|sep| - 1], sep)
    ensures |Split(s, sep)| > 1
    ensures Split(s, sep)[1] == SegmentAfter(s, head + sep, sep)
  {
    var rest := s[|head + sep|..];
    assert s == head + sep + rest;
    FirstAfter(head, sep, rest);
  }

  /** Lexicographic order by code point: SQLite's BINARY collation on TEXT. */
  predicate LexLe(a: string, b: string)
    decreases |a|
  {
    |a| == 0 || (|b| > 0 && (a[0] < b[0] || (a[0] == b[0] && LexLe(a[1..], b[1..]))))
  }

  lemma {:induction false} LexLeRefl(a: string)
    ensures LexLe(a, a)
    decreases |a|
  {
    if |a| > 0 { LexLeRefl(a[1..]); }
  }

  lemma {:induction false} LexLeTotal(a: string, b: string)
    ensures LexLe(a, b) || LexLe(b, a)
    decreases |a|
  {
    if |a| > 0 && |b| > 0 && a[0] == b[0] { LexLeTotal(a[1..], b[1..]); }
  }

  lemma {:induction false} LexLeTrans(a: string, b: string, c: string)
    requires LexLe(a, b) && LexLe(b, c)
    ensures LexLe(a, c)
    decreases |a|
  {
    if |a| > 0 && a[0] == b[0] && b[0] == c[0] { LexLeTrans(a[1..], b[1..], c[1..]); }
  }

  lemma {:induction false} LexLeAntisym(a: string, b: string)
    requires LexLe(a, b) && LexLe(b, a)
    ensures a == b
    decreases |a|
  {
    if |a| > 0 {
      LexLeAntisym(a[1..], b[1..]);
      assert a == [a[0]] + a[1..];
      assert b == [b[0]] + b[1..];
    }
  }

  // ---------------------------------------------------------------------------
  // Decimal numerals

  function DigitValue(c: char): nat
    requires IsDigit(c)
  {
    c as int - '0' as int
  }

  function DigitChar(d: nat): (c: char)
    requires d < 10
    ensures IsDigit(c) && DigitValue(c) == d
  {
    ('0' as int + d) as char
  }

  /** The value of a run of decimal digits, most significant first. */
  function DigitsValue(s: string): nat
    requires AllDigits(s)
  {
    if |s| == 0 then 0 else DigitsValue(s[..|s| - 1]) * 10 + DigitValue(s[|s| - 1])
  }

  /** Python's `str(n)` for a natural number. */
  function NatToString(n: nat): (r: string)
    ensures |r| > 0 && AllDigits(r)
  {
    if n < 10 then [DigitChar(n)] else NatToString(n / 10) + [DigitChar(n % 10)]
  }

  /** Python's `str(i)` for an integer. */
  function IntToString(i: int): string {
    if i < 0 then "-" + NatToString(-i) else NatToString(i)
  }

  lemma {:induction false} NatToStringValue(n: nat)
    ensures DigitsValue(NatToString(n)) == n
  {
    if n >= 10 {
      var s := NatToString(n);
      NatToStringValue(n / 10);
      assert s[..|s| - 1] == NatToString(n / 10);
    }
  }

  function Pow10(k: nat): (r: nat)
    ensures r >= 1
  {
    if k == 0 then 1 else 10 * Pow10(k - 1)
  }

  /** The body after an optional leading sign, and whether the sign was `-`. */
  function Unsigned(t: string): (string, bool) {
    if |t| > 0 && (t[0] == '-' || t[0] == '+') then (t[1..], t[0] == '-') else (t, false)
  }

  /** A signed run of ASCII digits, already stripped. */
  function SignedDigits(t: string): Option<int> {
    var (body, neg) := Unsigned(t);
    if |body| > 0 && AllDigits(body) then
      Some(if neg then -(DigitsValue(body) as int) else DigitsValue(body))
    else None
  }

  /** Python's `int(s)` on text: optional surrounding whitespace, an optional sign, ASCII digits. */
  function ParseInt(s: string): (r: Result<int>)
    ensures r.Err? ==> r.error == ValueError("invalid literal for int() with base 10: '" + s + "'")
  {
    match SignedDigits(Strip(s))
    case Some(v) => Ok(v)
    case None => Err(ValueError("invalid literal for int() with base 10: '" + s + "'"))
  }

  lemma StripDigitsUnchanged(s: string)
    requires |s| > 0 && !IsSpace(s[0]) && !IsSpace(s[|s| - 1])
    ensures Strip(s) == s
  {
    assert StripLeft(s) == s;
  }

  lemma IntToStringShape(i: int)
    ensures var s := IntToString(i);
      && |s| > 0 && !IsSpace(s[0]) && !IsSpace(s[|s| - 1])
      && Unsigned(s) == (NatToString(if i < 0 then -i else i), i < 0)
  {
    var s := IntToString(i);
    if i < 0 {
      assert s[1..] == NatToString(-i);
      assert IsDigit(s[|s| - 1]);
    } else {
      assert IsDigit(s[0]);
    }
  }

  /** `int(str(i)) == i`: the parser reads back every numeral `str` writes. */
  lemma ParseIntRoundTrip(i: int)
    ensures ParseInt(IntToString(i)) == Ok(i)
  {
    var s := IntToString(i);
    IntToStringShape(i);
    StripDigitsUnchanged(s);
    NatToStringValue(if i < 0 then -i else i);
    assert SignedDigits(s) == Some(i);
  }

  /** The first index of `c` in `s`, or `|s|`. */
  function IndexOf(s: string, c: char): (k: nat)
    ensures k <= |s|
    ensures forall j :: 0 <= j < k ==> s[j] != c
    ensures k < |s| ==> s[k] == c
  {
    if |s| == 0 then 0 else if s[0] == c then 0 else 1 + IndexOf(s[1..], c)
  }

  lemma {:induction false} NoPointInDigits(s: string)
    requires AllDigits(s)
    ensures IndexOf(s, '.') == |s|
  {
    if |s| > 0 { assert IsDigit(s[0]); NoPointInDigits(s[1..]); }
  }

  /** `whole.frac` read as a decimal fraction. */
  function DecimalValue(whole: string, frac: string): real
    requires AllDigits(whole) && AllDigits(frac)
  {
    if |frac| == 0 then DigitsValue(whole) as real
    else DigitsValue(whole) as real + DigitsValue(frac) as real / Pow10(|frac|) as real
  }

  /** Digits with at most one point and at least one digit; `None` otherwise. */
  function UnsignedDecimal(body: string): Option<real> {
    var k := IndexOf(body, '.');
    var whole := body[..k];
    var frac := if k < |body| then body[k + 1..] else "";
    if AllDigits(whole) && AllDigits(frac) && |whole| + |frac| > 0 then
      Some(DecimalValue(whole, frac))
    else None
  }

  /**
   * Python's `float(s)` on plain decimal text: optional whitespace and sign,
   * digits with at most one point, at least one digit.
   */
  function ParseDecimal(s: string): (r: Result<real>)
    ensures r.Err? ==> r.error == ValueError("could not convert string to float: '" + s + "'")
  {
    var (body, neg) := Unsigned(Strip(s));
    match UnsignedDecimal(body)
    case Some(v) => Ok(if neg then -v else v)
    case None => Err(ValueError("could not convert string to float: '" + s + "'"))
  }

  lemma UnsignedDecimalOfDigits(d: string)
    requires |d| > 0 && AllDigits(d)
    ensures UnsignedDecimal(d) == Some(DigitsValue(d) as real)
  {
    NoPointInDigits(d);
    assert d[..|d|] == d;
    assert DecimalValue(d, "") == DigitsValue(d) as real;
  }

  /** `float(str(i)) == i` for integral numerals. */
  lemma ParseDecimalOfInt(i: int)
    ensures ParseDecimal(IntToString(i)) == Ok(i as real)
  {
    var s := IntToString(i);
    var n := if i < 0 then -i else i;
    IntToStringShape(i);
    StripDigitsUnchanged(s);
    NatToStringValue(n);
    UnsignedDecimalOfDigits(NatToString(n));
  }
}
