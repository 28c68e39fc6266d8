/** The string operations the portal applies to user input: Python's
    `str.upper()` and `str.strip()` restricted to ASCII, and the decimal
    rendering of a natural number used in f-strings such as
    `f"Week {i}"` and `f"tid_{i}"`. */
module Text {

  predicate IsLowerAscii(c: char)
  {
    'a' <= c <= 'z'
  }

  /** `str.upper()` on one character: ASCII letters a-z become A-Z, everything else is kept. */
  function UpperChar(c: char): (u: char)
    ensures !IsLowerAscii(u)
    ensures IsLowerAscii(c) ==> u as int == c as int - 32
    ensures !IsLowerAscii(c) ==> u == c
  {
    if IsLowerAscii(c) then (c as int - 32) as char else c
  }

  /** No lower-case ASCII letter occurs in `s`. */
  predicate NoLowercase(s: string)
  {
    forall i :: 0 <= i < |s| ==> !IsLowerAscii(s[i])
  }

  /** `str.upper()` on ASCII text. */
  function Upper(s: string): (r: string)
    ensures |r| == |s|
    ensures forall i :: 0 <= i < |s| ==> r[i] == UpperChar(s[i])
    ensures NoLowercase(r)
  {
    if s == [] then [] else [UpperChar(s[0])] + Upper(s[1..])
  }

  /** Upper-casing leaves text that has no lower-case letter unchanged. */
  lemma UpperFixesUppercase(s: string)
    requires NoLowercase(s)
    ensures Upper(s) == s
  {
    assert forall i :: 0 <= i < |s| ==> Upper(s)[i] == s[i];
  }

  /** Upper-casing twice is upper-casing once. */
  lemma UpperIdempotent(s: string)
    ensures Upper(Upper(s)) == Upper(s)
  {
    UpperFixesUppercase(Upper(s));
  }

  /** The characters `str.strip()` removes, restricted to ASCII: space, tab,
      line feed, vertical tab, form feed, carriage return, and the four
      separator controls 0x1C-0x1F. */
  predicate IsSpace(c: char)
  {
    c == ' ' || 9 <= c as int <= 13 || 28 <= c as int <= 31
  }

  /** Every character of `s` is whitespace (so `s.strip()` is empty). */
  predicate IsBlank(s: string)
  {
    forall i :: 0 <= i < |s| ==> IsSpace(s[i])
  }

  /** Where the text of `s` starts: the number of leading whitespace characters. */
  function TextStart(s: string): (i: nat)
    ensures i <= |s|
    ensures forall k :: 0 <= k < i ==> IsSpace(s[k])
    ensures i < |s| ==> !IsSpace(s[i])
  {
    if s != [] && IsSpace(s[0]) then
      var i := 1 + TextStart(s[1..]);
      assert forall k :: 1 <= k < i ==> s[k] == s[1..][k - 1];
      i
    else 0
  }

  /** Where the text of `s` ends: the length of `s` without its trailing whitespace. */
  function TextEnd(s: string): (j: nat)
    ensures j <= |s|
    ensures forall k :: j <= k < |s| ==> IsSpace(s[k])
    ensures j > 0 ==> !IsSpace(s[j - 1])
  {
    if s != [] && IsSpace(s[|s| - 1]) then
      var j := TextEnd(s[..|s| - 1]);
      assert forall k :: j <= k < |s| - 1 ==> s[k] == s[..|s| - 1][k];
      j
    else |s|
  }

  /** `str.strip()`: an infix of `s`, surrounded only by whitespace, that
      neither starts nor ends with whitespace; empty exactly when `s` is blank. */
  function Strip(s: string): (r: string)
    ensures r == [] <==> IsBlank(s)
    ensures r != [] ==> !IsSpace(r[0]) && !IsSpace(r[|r| - 1])
    ensures exists i :: 0 <= i <= |s| - |r| && r == s[i..i + |r|]
                        && IsBlank(s[..i]) && IsBlank(s[i + |r|..])
  {
    var i := TextStart(s);
    if i == |s| then
      assert s[..0] == [] && IsBlank(s[0..]);
      assert IsBlank(s[..i]);
      []
    else
      var j := TextEnd(s);
      assert i < j;
      var r := s[i..j];
      assert r == s[i..i + |r|];
      assert IsBlank(s[..i]) && IsBlank(s[i + |r|..]);
      r
  }

  /** Stripping twice is stripping once. */
  lemma StripIdempotent(s: string)
    ensures Strip(Strip(s)) == Strip(s)
  {
    var r := Strip(s);
    if r != [] {
      assert TextStart(r) == 0;
      assert TextEnd(r) == |r|;
      assert r[0..|r|] == r;
    }
  }

  predicate IsDigit(c: char)
  {
    '0' <= c <= '9'
  }

  /** The character of a single decimal digit. */
  function DigitChar(d: nat): (c: char)
    requires d < 10
    ensures IsDigit(c) && c as int - '0' as int == d
  {
    ('0' as int + d) as char
  }

  /** Python's `str(n)` for a natural number: its decimal digits, most significant first, no leading zero. */
  function Decimal(n: nat): (r: string)
    ensures r != []
    ensures forall i :: 0 <= i < |r| ==> IsDigit(r[i])
    ensures |r| > 1 ==> r[0] != '0'
  {
    if n < 10 then [DigitChar(n)] else Decimal(n / 10) + [DigitChar(n % 10)]
  }

  function DigitValue(c: char): (d: nat)
    requires IsDigit(c)
    ensures d < 10
  {
    c as int - '0' as int
  }

  /** The number a string of decimal digits denotes. */
  function DecimalValue(s: string): nat
    requires forall i :: 0 <= i < |s| ==> IsDigit(s[i])
  {
    if s == [] then 0 else 10 * DecimalValue(s[..|s| - 1]) + DigitValue(s[|s| - 1])
  }

  /** Reading back the decimal rendering of `n` gives `n`. */
  lemma {:induction false} DecimalRoundTrip(n: nat)
    ensures DecimalValue(Decimal(n)) == n
  {
    if n >= 10 {
      var r := Decimal(n);
      assert r[..|r| - 1] == Decimal(n / 10);
      DecimalRoundTrip(n / 10);
    }
  }

  /** Different numbers have different decimal renderings. */
  lemma DecimalInjective(m: nat, n: nat)
    ensures Decimal(m) == Decimal(n) <==> m == n
  {
    DecimalRoundTrip(m);
    DecimalRoundTrip(n);
  }
}
