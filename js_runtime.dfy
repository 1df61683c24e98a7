/** The JavaScript built-ins that the client scripts rely on, for the inputs
    they receive: String.prototype.trim, parseInt, Number.prototype.toString
    on integers, String.prototype.includes, String.prototype.toLowerCase and
    the UTF-16 length of a string. */
module JsRuntime {
  import opened Wrappers

  // ---------------------------------------------------------------- whitespace

  /** The ECMAScript WhiteSpace and LineTerminator code points: what `trim`
      strips, what `parseInt` skips and what the regular-expression class `\s`
      matches. */
  predicate IsSpace(c: char) {
    c == '\t' || c == '\n' || c == '\U{B}' || c == '\U{C}' || c == '\r' ||
    c == ' ' || c == '\U{A0}' || c == '\U{1680}' || ('\U{2000}' <= c <= '\U{200A}') ||
    c == '\U{2028}' || c == '\U{2029}' || c == '\U{202F}' || c == '\U{205F}' ||
    c == '\U{3000}' || c == '\U{FEFF}'
  }

  ghost predicate AllSpace(s: string) {
    forall k :: 0 <= k < |s| ==> IsSpace(s[k])
  }

  /** The first index at or after `i` that does not hold whitespace. */
  function SkipSpace(s: string, i: nat): (j: nat)
    requires i <= |s|
    ensures i <= j <= |s|
    ensures forall k :: i <= k < j ==> IsSpace(s[k])
    ensures j < |s| ==> !IsSpace(s[j])
    decreases |s| - i
  {
    if i < |s| && IsSpace(s[i]) then SkipSpace(s, i + 1) else i
  }

  /** The end of `s[..j]` once its trailing whitespace is dropped. */
  function SkipSpaceBack(s: string, j: nat): (e: nat)
    requires j <= |s|
    ensures e <= j
    ensures forall k :: e <= k < j ==> IsSpace(s[k])
    ensures 0 < e ==> !IsSpace(s[e - 1])
  {
    if 0 < j && IsSpace(s[j - 1]) then SkipSpaceBack(s, j - 1) else j
  }

  /** `r` is `s` with whitespace removed from both ends and nothing else. */
  ghost predicate IsTrimOf(r: string, s: string) {
    exists i, j :: TrimSplit(s, i, j) && r == s[i..j]
  }

  ghost predicate TrimSplit(s: string, i: int, j: int) {
    0 <= i <= j <= |s| && AllSpace(s[..i]) && AllSpace(s[j..]) &&
    (i < j ==> !IsSpace(s[i]) && !IsSpace(s[j - 1]))
  }

  /** String.prototype.trim. */
  function Trim(s: string): (r: string)
    ensures IsTrimOf(r, s)
    ensures r == [] <==> AllSpace(s)
    ensures r != [] ==> !IsSpace(r[0]) && !IsSpace(r[|r| - 1])
  {
    var i := SkipSpace(s, 0);
    if i == |s| then
      assert TrimSplit(s, |s|, |s|);
      []
    else
      var e := SkipSpaceBack(s, |s|);
      assert !IsSpace(s[i]);
      assert i < e;
      assert TrimSplit(s, i, e);
      assert !AllSpace(s) by { assert !IsSpace(s[i]); }
      s[i..e]
  }

  // -------------------------------------------------------- decimal numerals

  predicate IsDigit(c: char) {
    '0' <= c <= '9'
  }

  ghost predicate AllDigits(s: string) {
    forall k :: 0 <= k < |s| ==> IsDigit(s[k])
  }

  function DigitChar(d: nat): (c: char)
    requires d < 10
    ensures IsDigit(c) && RadixValue(c) == d
  {
    (48 + d) as char
  }

  /** The value of a digit in radix 16 (which covers radix 10), as parseInt
      reads it. */
  function RadixValue(c: char): nat {
    if '0' <= c <= '9' then c as int - 48
    else if 'a' <= c <= 'z' then c as int - 87
    else if 'A' <= c <= 'Z' then c as int - 55
    else 99
  }

  predicate IsRadixDigit(c: char, radix: nat) {
    (IsDigit(c) || ('a' <= c <= 'z') || ('A' <= c <= 'Z')) && RadixValue(c) < radix
  }

  /** The decimal numeral of a natural number: Number.prototype.toString. */
  function NatToString(n: nat): (s: string)
    ensures 1 <= |s| && AllDigits(s)
    ensures |s| == 1 <==> n < 10
    ensures |s| <= 2 <==> n < 100
    ensures |s| <= 3 <==> n < 1000
  {
    if n < 10 then [DigitChar(n)] else NatToString(n / 10) + [DigitChar(n % 10)]
  }

  /** Number.prototype.toString for an integer-valued number. */
  function IntToString(n: int): (s: string)
    ensures 1 <= |s|
    ensures s[0] == '-' <==> n < 0
  {
    if n < 0 then "-" + NatToString(-n) else NatToString(n)
  }

  /** toString writes digits only, after a minus sign for a negative number. */
  lemma IntToStringShape(n: int)
    ensures n < 0 ==> 2 <= |IntToString(n)| && AllDigits(IntToString(n)[1..])
    ensures n >= 0 ==> AllDigits(IntToString(n))
  {
    if n < 0 {
      assert IntToString(n)[1..] == NatToString(-n);
    }
  }

  /** The value of a numeral whose characters are all digits of `radix`. */
  function NumeralValue(z: string, radix: nat): nat {
    if z == [] then 0
    else NumeralValue(z[..|z| - 1], radix) * radix + RadixValue(z[|z| - 1])
  }

  /** The end of the longest run of `radix` digits starting at `i`. */
  function RadixRunEnd(s: string, i: nat, radix: nat): (e: nat)
    requires i <= |s|
    ensures i <= e <= |s|
    ensures forall k :: i <= k < e ==> IsRadixDigit(s[k], radix)
    ensures e < |s| ==> !IsRadixDigit(s[e], radix)
    decreases |s| - i
  {
    if i < |s| && IsRadixDigit(s[i], radix) then RadixRunEnd(s, i + 1, radix) else i
  }

  /** parseInt(s) with no radix argument: None stands for NaN. Leading
      whitespace is skipped, one sign is read, a "0x"/"0X" prefix selects
      radix 16, and the longest run of digits that follows is read. */
  function ParseInt(s: string): (r: Option<int>)
    ensures AllSpace(s) ==> r.None?
  {
    ParseSigned(s[SkipSpace(s, 0)..])
  }

  /** parseInt once the leading whitespace is gone: an optional sign. */
  function ParseSigned(t: string): Option<int> {
    var negative := |t| > 0 && t[0] == '-';
    var u := if |t| > 0 && (t[0] == '+' || t[0] == '-') then t[1..] else t;
    match ParseMagnitude(u)
    case None => None
    case Some(m) => var v: int := m; Some(if negative then -v else v)
  }

  /** parseInt after the sign: a "0x"/"0X" prefix selects radix 16, then the
      longest run of digits of that radix; no digit at all is NaN. */
  function ParseMagnitude(u: string): Option<nat> {
    var hex := |u| >= 2 && u[0] == '0' && (u[1] == 'x' || u[1] == 'X');
    var radix := if hex then 16 else 10;
    var v := if hex then u[2..] else u;
    var z := v[..RadixRunEnd(v, 0, radix)];
    if z == [] then None else Some(NumeralValue(z, radix))
  }

  /** `parseInt(s) || 0`: NaN (and zero) become 0. */
  function ParseIntOrZero(s: string): int {
    ParseInt(s).GetOr(0)
  }

  lemma {:induction false} NumeralValueOfNatToString(n: nat)
    ensures NumeralValue(NatToString(n), 10) == n
  {
    if n >= 10 {
      var s := NatToString(n);
      assert s[..|s| - 1] == NatToString(n / 10);
      NumeralValueOfNatToString(n / 10);
    }
  }

  lemma {:induction false} RadixRunOfDigits(s: string, i: nat)
    requires i <= |s| && AllDigits(s)
    ensures RadixRunEnd(s, i, 10) == |s|
    decreases |s| - i
  {
    if i < |s| {
      assert IsRadixDigit(s[i], 10);
      RadixRunOfDigits(s, i + 1);
    }
  }

  /** A decimal numeral is read as its value. */
  lemma ParseMagnitudeOfDigits(d: string)
    requires 1 <= |d| && AllDigits(d)
    ensures ParseMagnitude(d) == Some(NumeralValue(d, 10))
  {
    RadixRunOfDigits(d, 0);
    assert d[..|d|] == d;
    assert |d| >= 2 ==> IsDigit(d[1]);
  }

  /** A minus sign in front of a magnitude negates it. */
  lemma ParseSignedMinus(u: string, v: nat)
    requires ParseMagnitude(u) == Some(v)
    ensures ParseSigned("-" + u) == Some(-(v as int))
  {
    var t := "-" + u;
    assert t[0] == '-' && t[1..] == u;
  }

  /** With no sign, the magnitude is the value. */
  lemma ParseSignedUnsigned(u: string, v: nat)
    requires 1 <= |u| && u[0] != '-' && u[0] != '+' && ParseMagnitude(u) == Some(v)
    ensures ParseSigned(u) == Some(v as int)
  {
  }

  /** With no leading whitespace, parseInt starts at the sign. */
  lemma ParseIntNoSpace(s: string)
    requires 1 <= |s| && !IsSpace(s[0])
    ensures ParseInt(s) == ParseSigned(s)
  {
    assert SkipSpace(s, 0) == 0;
    assert s[0..] == s;
  }

  /** Reading back what Number.prototype.toString wrote gives the number. */
  lemma ParseIntOfIntToString(n: int)
    ensures ParseInt(IntToString(n)) == Some(n)
    ensures ParseIntOrZero(IntToString(n)) == n
  {
    var m := if n < 0 then -n else n;
    var d := NatToString(m);
    var s := IntToString(n);
    assert s == (if n < 0 then "-" else "") + d;
    assert !IsSpace(s[0]);
    ParseIntNoSpace(s);
    ParseMagnitudeOfDigits(d);
    NumeralValueOfNatToString(m);
    assert IsDigit(d[0]);
    if n < 0 {
      ParseSignedMinus(d, m);
    } else {
      ParseSignedUnsigned(d, m);
    }
  }

  // ------------------------------------------------------------ other strings

  /** The number of UTF-16 code units of `s` (JavaScript's `length`): a code
      point above U+FFFF takes a surrogate pair. */
  function Utf16Length(s: string): (n: nat)
    ensures |s| <= n <= 2 * |s|
    ensures n == |s| <==> forall k :: 0 <= k < |s| ==> s[k] as int <= 0xFFFF
  {
    if s == [] then 0
    else
      var n' := Utf16Length(s[..|s| - 1]);
      assert forall k :: 0 <= k < |s| - 1 ==> s[..|s| - 1][k] == s[k];
      n' + (if s[|s| - 1] as int > 0xFFFF then 2 else 1)
  }

  /** `n` occurs in `h` starting at index `i`. */
  ghost predicate OccursAt(h: string, n: string, i: int) {
    0 <= i && i + |n| <= |h| && h[i..i + |n|] == n
  }

  /** String.prototype.includes. */
  function Includes(h: string, n: string): (b: bool)
    ensures b <==> exists i :: OccursAt(h, n, i)
    decreases |h|
  {
    if |n| > |h| then false
    else if h[..|n|] == n then
      assert OccursAt(h, n, 0);
      true
    else
      var b := Includes(h[1..], n);
      assert b ==> exists i :: OccursAt(h, n, i) by {
        if b {
          var i :| OccursAt(h[1..], n, i);
          assert h[1..][i..i + |n|] == h[i + 1..i + 1 + |n|];
          assert OccursAt(h, n, i + 1);
        }
      }
      assert (exists i :: OccursAt(h, n, i)) ==> b by {
        if exists i :: OccursAt(h, n, i) {
          var i :| OccursAt(h, n, i);
          assert i != 0;
          assert h[1..][i - 1..i - 1 + |n|] == h[i..i + |n|];
          assert OccursAt(h[1..], n, i - 1);
        }
      }
      b
  }

  /** String.prototype.toLowerCase on one character, for the ASCII and the
      Latin-1 capitals. */
  function LowerChar(c: char): char {
    if 'A' <= c <= 'Z' || ('\U{C0}' <= c <= '\U{DE}' && c != '\U{D7}') then (c as int + 32) as char
    else c
  }

  /** String.prototype.toLowerCase, character by character. */
  function ToLower(s: string): (r: string)
    ensures |r| == |s|
    ensures forall k :: 0 <= k < |s| ==> r[k] == LowerChar(s[k])
  {
    seq(|s|, k requires 0 <= k < |s| => LowerChar(s[k]))
  }
}
