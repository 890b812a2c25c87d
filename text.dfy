/**
 * The JavaScript string operations the core relies on: `toLowerCase`, `includes`,
 * `trim`, `String(n)` for an integer and `parseInt`.
 */
module Text {
  import opened Wrappers

  /**
   * Lower-casing of one character, for the capitals whose lower case is one character
   * at a fixed offset: the ASCII letters, the Latin-1 capitals (`À`-`Þ` but `×`) and
   * the basic Cyrillic capitals; every other character is kept.
   */
  function LowerChar(c: char): char {
    if 'A' <= c <= 'Z' || ('\U{C0}' <= c <= '\U{DE}' && c != '\U{D7}') || '\U{410}' <= c <= '\U{42F}' then
      (c as int + 32) as char
    else if '\U{400}' <= c <= '\U{40F}' then
      (c as int + 80) as char
    else c
  }

  predicate IsUpper(c: char) {
    'A' <= c <= 'Z' || ('\U{C0}' <= c <= '\U{DE}' && c != '\U{D7}') || '\U{400}' <= c <= '\U{42F}'
  }

  /** `s.toLowerCase()`. */
  function ToLower(s: string): (r: string)
    ensures |r| == |s|
    ensures forall i :: 0 <= i < |s| ==> r[i] == LowerChar(s[i])
    ensures forall i :: 0 <= i < |r| ==> !IsUpper(r[i])
  {
    if s == [] then [] else [LowerChar(s[0])] + ToLower(s[1..])
  }

  /** Lower-casing twice is lower-casing once. */
  lemma ToLowerIdempotent(s: string)
    ensures ToLower(ToLower(s)) == ToLower(s)
  {
    var r := ToLower(s);
    assert forall i :: 0 <= i < |r| ==> LowerChar(r[i]) == r[i];
  }

  /** `needle` occurs in `s` starting at index `i`. */
  ghost predicate OccursAt(s: string, needle: string, i: int) {
    0 <= i && i + |needle| <= |s| && s[i..i + |needle|] == needle
  }

  /** `s.includes(needle)`: tries every start position from the left. */
  predicate Contains(s: string, needle: string)
    ensures Contains(s, needle) <==> exists i :: OccursAt(s, needle, i)
  {
    if |needle| <= |s| && s[..|needle|] == needle then
      assert OccursAt(s, needle, 0);
      true
    else if s == [] then
      false
    else
      ContainsStep(s, needle);
      Contains(s[1..], needle)
  }

  /** When `needle` is not at position 0, it occurs in `s` exactly when it occurs in `s[1..]`. */
  lemma ContainsStep(s: string, needle: string)
    requires s != [] && !(|needle| <= |s| && s[..|needle|] == needle)
    ensures (exists i :: OccursAt(s[1..], needle, i)) <==> (exists i :: OccursAt(s, needle, i))
  {
    if exists i :: OccursAt(s, needle, i) {
      var i :| OccursAt(s, needle, i);
      assert i != 0;
      assert s[1..][i - 1..i - 1 + |needle|] == s[i..i + |needle|];
      assert OccursAt(s[1..], needle, i - 1);
    }
    if exists i :: OccursAt(s[1..], needle, i) {
      var i :| OccursAt(s[1..], needle, i);
      assert s[1..][i..i + |needle|] == s[i + 1..i + 1 + |needle|];
      assert OccursAt(s, needle, i + 1);
    }
  }

  /** The empty string occurs in every string. */
  lemma ContainsEmpty(s: string)
    ensures Contains(s, "")
  {
    assert OccursAt(s, "", 0);
  }

  /**
   * The characters `trim` removes: the ECMAScript WhiteSpace and LineTerminator
   * code points (tab, line tabulation, form feed, space, no-break space, byte order
   * mark, the Unicode space separators, line feed, carriage return, U+2028, U+2029).
   */
  const Whitespace: set<char> := {
    '\t', '\U{B}', '\U{C}', ' ', '\U{A0}', '\U{FEFF}', '\U{1680}',
    '\U{2000}', '\U{2001}', '\U{2002}', '\U{2003}', '\U{2004}', '\U{2005}',
    '\U{2006}', '\U{2007}', '\U{2008}', '\U{2009}', '\U{200A}',
    '\U{202F}', '\U{205F}', '\U{3000}',
    '\n', '\r', '\U{2028}', '\U{2029}'
  }

  predicate IsWhitespace(c: char) {
    c in Whitespace
  }

  predicate AllWhitespace(s: string) {
    forall i :: 0 <= i < |s| ==> IsWhitespace(s[i])
  }

  /** The number of whitespace characters `s` starts with. */
  function LeadingWhitespace(s: string): (n: nat)
    ensures n <= |s| && (forall i :: 0 <= i < n ==> IsWhitespace(s[i]))
    ensures n < |s| ==> !IsWhitespace(s[n])
  {
    if s != [] && IsWhitespace(s[0]) then
      var n := LeadingWhitespace(s[1..]);
      assert forall i :: 1 <= i <= n ==> s[i] == s[1..][i - 1];
      n + 1
    else 0
  }

  /** The number of whitespace characters `s` ends with. */
  function TrailingWhitespace(s: string): (n: nat)
    ensures n <= |s| && (forall i :: |s| - n <= i < |s| ==> IsWhitespace(s[i]))
    ensures n < |s| ==> !IsWhitespace(s[|s| - n - 1])
  {
    if s != [] && IsWhitespace(s[|s| - 1]) then
      var n := TrailingWhitespace(s[..|s| - 1]);
      assert forall i :: 0 <= i < |s| - 1 ==> s[i] == s[..|s| - 1][i];
      n + 1
    else 0
  }

  /** `s.trimStart()`: `s` without its leading whitespace. */
  function TrimStart(s: string): string {
    s[LeadingWhitespace(s)..]
  }

  /**
   * `s.trim()`: the slice of `s` between its leading and its trailing whitespace; it
   * is empty or starts and ends with a character that is not whitespace.
   */
  function Trim(s: string): (r: string)
    ensures |r| <= |s|
    ensures r == [] || (!IsWhitespace(r[0]) && !IsWhitespace(r[|r| - 1]))
  {
    var a := TrimStart(s);
    var r := a[..|a| - TrailingWhitespace(a)];
    assert r != [] ==> r[0] == a[0] == s[LeadingWhitespace(s)];
    r
  }

  /** What `trim` drops before and after the slice it keeps is whitespace only. */
  lemma TrimDropsOnlyWhitespace(s: string)
    ensures var k := LeadingWhitespace(s); var r := Trim(s);
      && k + |r| <= |s| && r == s[k..k + |r|]
      && (forall i :: 0 <= i < k ==> IsWhitespace(s[i]))
      && (forall i :: k + |r| <= i < |s| ==> IsWhitespace(s[i]))
  {
    TrimIsSlice(s);
    TrimDropsTail(s);
  }

  /** `trim` keeps the slice that starts after the leading whitespace. */
  lemma TrimIsSlice(s: string)
    ensures var k := LeadingWhitespace(s);
      k + |Trim(s)| <= |s| && Trim(s) == s[k..k + |Trim(s)|]
  {
    var k := LeadingWhitespace(s);
    var a := s[k..];
    var j := k + |a| - TrailingWhitespace(a);
    assert Trim(s) == a[..j - k] == s[k..j];
  }

  /** Everything after the slice `trim` keeps is whitespace. */
  lemma TrimDropsTail(s: string)
    ensures forall i :: LeadingWhitespace(s) + |Trim(s)| <= i < |s| ==> IsWhitespace(s[i])
  {
    var k := LeadingWhitespace(s);
    var a := s[k..];
    var j := k + |a| - TrailingWhitespace(a);
    assert |Trim(s)| == j - k;
    forall i | j <= i < |s|
      ensures IsWhitespace(s[i])
    {
      assert s[i] == a[i - k] && |a| - TrailingWhitespace(a) <= i - k < |a|;
    }
  }

  /** A string trims to empty exactly when every character of it is whitespace. */
  lemma TrimEmptyIff(s: string)
    ensures Trim(s) == [] <==> AllWhitespace(s)
  {
    TrimDropsOnlyWhitespace(s);
  }

  predicate IsDigit(c: char) {
    '0' <= c <= '9'
  }

  function DigitChar(d: nat): char
    requires d < 10
  {
    ('0' as int + d) as char
  }

  function DigitValue(c: char): nat
    requires IsDigit(c)
  {
    c as int - '0' as int
  }

  /** `String(n)` for a non-negative integer: its decimal digits without leading zeros. */
  function NatToString(n: nat): (r: string)
    ensures r != []
    ensures forall i :: 0 <= i < |r| ==> IsDigit(r[i])
    ensures |r| > 1 ==> r[0] != '0'
  {
    if n < 10 then [DigitChar(n)] else NatToString(n / 10) + [DigitChar(n % 10)]
  }

  /** `String(i)` for any integer. */
  function IntToString(i: int): string {
    if i < 0 then "-" + NatToString(-i) else NatToString(i)
  }

  /** The number written by a string of decimal digits. */
  function DigitsValue(s: string): nat
    requires forall i :: 0 <= i < |s| ==> IsDigit(s[i])
  {
    if s == [] then 0 else DigitsValue(s[..|s| - 1]) * 10 + DigitValue(s[|s| - 1])
  }

  /** The longest prefix of `s` made of decimal digits. */
  function DigitPrefix(s: string): (r: string)
    ensures |r| <= |s| && r == s[..|r|]
    ensures forall i :: 0 <= i < |r| ==> IsDigit(r[i])
    ensures |r| < |s| ==> !IsDigit(s[|r|])
  {
    if s != [] && IsDigit(s[0]) then
      var r := [s[0]] + DigitPrefix(s[1..]);
      assert r == s[..|r|];
      r
    else []
  }

  /** A hexadecimal digit, either case. */
  predicate IsHexDigit(c: char) {
    IsDigit(c) || 'a' <= c <= 'f' || 'A' <= c <= 'F'
  }

  function HexDigitValue(c: char): nat
    requires IsHexDigit(c)
  {
    if IsDigit(c) then DigitValue(c)
    else if 'a' <= c <= 'f' then c as int - 'a' as int + 10
    else c as int - 'A' as int + 10
  }

  /** The number written by a string of hexadecimal digits. */
  function HexDigitsValue(s: string): nat
    requires forall i :: 0 <= i < |s| ==> IsHexDigit(s[i])
  {
    if s == [] then 0 else HexDigitsValue(s[..|s| - 1]) * 16 + HexDigitValue(s[|s| - 1])
  }

  /** The longest prefix of `s` made of hexadecimal digits. */
  function HexPrefix(s: string): (r: string)
    ensures |r| <= |s| && r == s[..|r|]
    ensures forall i :: 0 <= i < |r| ==> IsHexDigit(r[i])
    ensures |r| < |s| ==> !IsHexDigit(s[|r|])
  {
    if s != [] && IsHexDigit(s[0]) then
      var r := [s[0]] + HexPrefix(s[1..]);
      assert r == s[..|r|];
      r
    else []
  }

  /** The text after the sign starts with `0x` or `0X`. */
  predicate HexMarked(body: string) {
    |body| >= 2 && body[0] == '0' && (body[1] == 'x' || body[1] == 'X')
  }

  /**
   * `parseInt(s)` with no radix: leading whitespace is skipped and one optional sign
   * read; after a `0x` or `0X` the longest run of hexadecimal digits is read, otherwise
   * the longest run of decimal digits; with no digit the result is NaN, modelled as None.
   */
  function ParseInt(s: string): Option<int> {
    var t := TrimStart(s);
    var negative := t != [] && t[0] == '-';
    var body := if t != [] && (t[0] == '-' || t[0] == '+') then t[1..] else t;
    match Magnitude(body)
    case None => None
    case Some(m) => if negative then Some(-(m as int)) else Some(m)
  }

  /** The number the text after the sign starts with, in the base its marker chooses. */
  function Magnitude(body: string): Option<nat> {
    if HexMarked(body) then
      var digits := HexPrefix(body[2..]);
      if digits == [] then None else Some(HexDigitsValue(digits))
    else
      var digits := DigitPrefix(body);
      if digits == [] then None else Some(DigitsValue(digits))
  }

  /** A `0x` route reads as hexadecimal. */
  lemma ParseIntHex(s: string)
    requires |s| > 2 && HexMarked(s)
    requires forall i :: 2 <= i < |s| ==> IsHexDigit(s[i])
    ensures ParseInt(s) == Some(HexDigitsValue(s[2..]))
  {
    HexPrefixOfHexDigits(s[2..]);
    TrimStartKeeps(s);
  }

  /** A sign may come before the `0x`, and the marker may be written `0X`. */
  lemma ParseIntSignedHex(s: string)
    requires |s| > 3 && s[0] == '-' && HexMarked(s[1..])
    requires forall i :: 3 <= i < |s| ==> IsHexDigit(s[i])
    ensures ParseInt(s) == Some(-(HexDigitsValue(s[3..]) as int))
  {
    var body := s[1..];
    assert body[2..] == s[3..];
    HexPrefixOfHexDigits(s[3..]);
    TrimStartKeeps(s);
  }

  /** Text that starts with a digit or a sign has no leading whitespace to skip. */
  lemma TrimStartKeeps(s: string)
    requires s != [] && (IsDigit(s[0]) || s[0] == '-' || s[0] == '+')
    ensures TrimStart(s) == s
  {
    assert !IsWhitespace(s[0]);
  }

  /** `0x` with no hexadecimal digit after it is NaN. */
  lemma ParseIntBareHexMarker()
    ensures ParseInt("0x") == None
  {
    var s := "0x";
    assert !IsWhitespace(s[0]) && TrimStart(s) == s && HexMarked(s) && s[2..] == [];
  }

  /** A string made only of hexadecimal digits is its own hexadecimal prefix. */
  lemma {:induction false} HexPrefixOfHexDigits(s: string)
    requires forall i :: 0 <= i < |s| ==> IsHexDigit(s[i])
    ensures HexPrefix(s) == s
  {
    if s != [] {
      HexPrefixOfHexDigits(s[1..]);
    }
  }

  /** Reading back the decimal form of a natural number gives that number. */
  lemma {:induction false} DigitsValueOfNatToString(n: nat)
    ensures DigitsValue(NatToString(n)) == n
  {
    if n >= 10 {
      DigitsValueOfNatToString(n / 10);
      var s := NatToString(n);
      assert s[..|s| - 1] == NatToString(n / 10);
    }
  }

  /** `parseInt(String(n))` is `n` for every integer: the route built from an Id parses back to it. */
  lemma ParseIntOfIntToString(i: int)
    ensures ParseInt(IntToString(i)) == Some(i)
  {
    var n: nat := if i < 0 then -i else i;
    MagnitudeOfDecimal(n);
    if i < 0 {
      ParseIntNegative(NatToString(n));
    } else {
      ParseIntUnsigned(NatToString(n));
    }
  }

  /** The decimal form of a natural number is read in base 10, back to that number. */
  lemma MagnitudeOfDecimal(n: nat)
    ensures Magnitude(NatToString(n)) == Some(n)
  {
    var d := NatToString(n);
    DigitsValueOfNatToString(n);
    DigitPrefixOfDigits(d);
    if |d| >= 2 {
      assert IsDigit(d[1]);
    }
  }

  /** Text that starts with a digit is read without a sign. */
  lemma ParseIntUnsigned(body: string)
    requires body != [] && IsDigit(body[0])
    ensures ParseInt(body) == Magnitude(body)
  {
    TrimStartKeeps(body);
  }

  /** A minus sign negates the number the rest of the text starts with. */
  lemma ParseIntNegative(body: string)
    requires body != [] && IsDigit(body[0]) && Magnitude(body).Some?
    ensures ParseInt("-" + body) == Some(-(Magnitude(body).value as int))
  {
    var s := "-" + body;
    TrimStartKeeps(s);
    assert s[1..] == body;
  }

  /** A string made only of digits is its own digit prefix. */
  lemma {:induction false} DigitPrefixOfDigits(s: string)
    requires forall i :: 0 <= i < |s| ==> IsDigit(s[i])
    ensures DigitPrefix(s) == s
  {
    if s != [] {
      DigitPrefixOfDigits(s[1..]);
    }
  }

  /** Two different integers have different decimal forms. */
  lemma IntToStringInjective(a: int, b: int)
    requires IntToString(a) == IntToString(b)
    ensures a == b
  {
    ParseIntOfIntToString(a);
    ParseIntOfIntToString(b);
  }
}
