/** `formatNumber` of app.js: `num.toString()` with a comma inserted at every
    position that the regular expression `\B(?=(\d{3})+(?!\d))` matches, and
    the read-back of a formatted counter (`parseInt(text.replace(/,/g, '')) || 0`). */
module AppFormat {
  import opened JsRuntime

  /** A character of the regular-expression class `\w`. */
  predicate IsWordChar(c: char) {
    ('a' <= c <= 'z') || ('A' <= c <= 'Z') || ('0' <= c <= '9') || c == '_'
  }

  /** `\B` at position `p` of `t`: the characters on both sides of `p` are
      both word characters or both not (outside the string counts as not). */
  predicate NotWordBoundary(t: string, p: nat)
    requires p <= |t|
  {
    (0 < p && IsWordChar(t[p - 1])) == (p < |t| && IsWordChar(t[p]))
  }

  predicate DigitAt(t: string, q: nat) {
    q < |t| && IsDigit(t[q])
  }

  /** The lookahead `(\d{3})+(?!\d)` succeeds at `q`: a group of three digits,
      then either no digit follows or further groups succeed. */
  predicate GroupsAhead(t: string, q: nat)
    decreases |t| - q
  {
    DigitAt(t, q) && DigitAt(t, q + 1) && DigitAt(t, q + 2) &&
    (!DigitAt(t, q + 3) || GroupsAhead(t, q + 3))
  }

  /** The regular expression matches (the empty string) at position `p`. */
  predicate CommaBefore(t: string, p: nat)
    requires p <= |t|
  {
    NotWordBoundary(t, p) && GroupsAhead(t, p)
  }

  /** The global replace, from position `p` on: every match position receives
      a comma in front of the character there. */
  function ReplaceFrom(t: string, p: nat): string
    requires p <= |t|
    decreases |t| - p
  {
    (if CommaBefore(t, p) then "," else "") +
    (if p == |t| then "" else [t[p]] + ReplaceFrom(t, p + 1))
  }

  /** formatNumber(num) for an integer `num`: the sign, then the digits of
      |num| grouped by three from the right; without its commas it is
      num.toString() again. */
  function FormatNumber(n: int): (r: string)
    ensures r == (if n < 0 then "-" else "") + GroupThousands(NatToString(if n < 0 then -n else n))
    ensures RemoveCommas(r) == IntToString(n)
  {
    ReplaceOfNumeral(n);
    ReplaceFrom(IntToString(n), 0)
  }

  /** `s.replace(/,/g, '')`. */
  function RemoveCommas(s: string): (r: string)
    ensures ',' !in r
  {
    if s == [] then []
    else (if s[0] == ',' then [] else [s[0]]) + RemoveCommas(s[1..])
  }

  /** What updatePlayerCount reads back from the counter element. */
  function ParseDisplayedCount(text: string): int {
    ParseIntOrZero(RemoveCommas(text))
  }

  // ------------------------------------------------ the reference grouping

  /** Digits grouped by three from the right, groups joined by commas. */
  function GroupThousands(s: string): string
    decreases |s|
  {
    if |s| <= 3 then s else GroupThousands(s[..|s| - 3]) + "," + s[|s| - 3..]
  }

  /** The index of the last comma of `r`. */
  function LastComma(r: string): (i: nat)
    requires ',' in r
    ensures i < |r| && r[i] == ',' && ',' !in r[i + 1..]
  {
    if r[|r| - 1] == ',' then |r| - 1
    else
      var i := LastComma(r[..|r| - 1]);
      assert r[i + 1..] == r[..|r| - 1][i + 1..] + [r[|r| - 1]];
      i
  }

  /** The comma-separated groups of `r`, in order. */
  function Groups(r: string): (g: seq<string>)
    ensures |g| >= 1
    decreases |r|
  {
    if ',' !in r then [r] else var i := LastComma(r); Groups(r[..i]) + [r[i + 1..]]
  }

  function Concat(g: seq<string>): string {
    if g == [] then [] else Concat(g[..|g| - 1]) + g[|g| - 1]
  }

  // ---------------------------------------------- what the regex matches

  /** On a run of digits the lookahead succeeds exactly where the number of
      digits left is a positive multiple of three. */
  lemma {:induction false} GroupsAheadOnDigits(t: string, q: nat)
    requires q <= |t|
    requires forall k :: q <= k < |t| ==> IsDigit(t[k])
    ensures GroupsAhead(t, q) <==> (|t| - q > 0 && (|t| - q) % 3 == 0)
    decreases |t| - q
  {
    if q + 3 < |t| {
      GroupsAheadOnDigits(t, q + 3);
    }
  }

  /** `t` is a numeral whose digits start at `b` after a non-word prefix:
      the shape of IntToString's result, with `b` = 1 for a minus sign. */
  ghost predicate DigitsFrom(t: string, b: nat) {
    b < |t| && (b == 0 || !IsWordChar(t[b - 1])) &&
    forall k :: b <= k < |t| ==> IsDigit(t[k])
  }

  lemma CommaBeforeOnNumeral(t: string, b: nat, p: nat)
    requires DigitsFrom(t, b) && b <= p <= |t|
    ensures CommaBefore(t, p) <==> (b < p < |t| && (|t| - p) % 3 == 0)
  {
    GroupsAheadOnDigits(t, p);
    if p == b {
      assert IsWordChar(t[p]);
    } else {
      assert IsWordChar(t[p - 1]);
      if p < |t| { assert IsWordChar(t[p]); }
    }
  }

  /** Fewer than three digits left: no comma is inserted any more. */
  lemma {:induction false} ReplaceTail(t: string, b: nat, p: nat)
    requires DigitsFrom(t, b) && b < p <= |t| && |t| - p < 3
    ensures ReplaceFrom(t, p) == t[p..]
    decreases |t| - p
  {
    CommaBeforeOnNumeral(t, b, p);
    if p < |t| {
      ReplaceTail(t, b, p + 1);
    }
  }

  /** Splitting the last three digits off: the replace of the shorter numeral,
      a comma, and those three digits. */
  lemma {:induction false} ReplaceChop(t: string, b: nat, p: nat)
    requires DigitsFrom(t, b) && |t| - b > 3 && b <= p <= |t| - 3
    ensures DigitsFrom(t[..|t| - 3], b)
    ensures ReplaceFrom(t, p) == ReplaceFrom(t[..|t| - 3], p) + "," + t[|t| - 3..]
    decreases |t| - p
  {
    var t' := t[..|t| - 3];
    assert DigitsFrom(t', b);
    if p == |t| - 3 {
      CommaBeforeOnNumeral(t, b, p);
      ReplaceTail(t, b, p + 1);
      ReplaceChopLast(t);
    } else {
      ReplaceChop(t, b, p + 1);
      CommaBeforeOnNumeral(t, b, p);
      CommaBeforeOnNumeral(t', b, p);
      ReplaceChopStep(t, p);
    }
  }

  /** One step of the replace: the comma (if any) at `p`, the character
      there, and the replace of the rest. */
  lemma ReplaceUnfold(t: string, p: nat)
    requires p < |t|
    ensures ReplaceFrom(t, p) == (if CommaBefore(t, p) then "," else "") + ([t[p]] + ReplaceFrom(t, p + 1))
  {
  }

  /** Nothing is inserted at the end of the string. */
  lemma ReplaceAtEnd(t: string)
    ensures ReplaceFrom(t, |t|) == ""
  {
    assert !DigitAt(t, |t|);
  }

  /** The last three digits: a comma goes in front of them, and the shorter
      numeral gets nothing at its end. */
  lemma ReplaceChopLast(t: string)
    requires 3 <= |t| && CommaBefore(t, |t| - 3)
    requires ReplaceFrom(t, |t| - 2) == t[|t| - 2..]
    ensures ReplaceFrom(t, |t| - 3) == ReplaceFrom(t[..|t| - 3], |t| - 3) + "," + t[|t| - 3..]
  {
    var p := |t| - 3;
    ReplaceUnfold(t, p);
    ReplaceAtEnd(t[..p]);
    assert t[p..] == [t[p]] + t[p + 1..];
  }

  lemma ReplaceChopStep(t: string, p: nat)
    requires p < |t| - 3 && CommaBefore(t, p) == CommaBefore(t[..|t| - 3], p)
    requires ReplaceFrom(t, p + 1) == ReplaceFrom(t[..|t| - 3], p + 1) + "," + t[|t| - 3..]
    ensures ReplaceFrom(t, p) == ReplaceFrom(t[..|t| - 3], p) + "," + t[|t| - 3..]
  {
    var t' := t[..|t| - 3];
    ReplaceUnfold(t, p);
    ReplaceUnfold(t', p);
    assert t'[p] == t[p];
  }

  /** A numeral of at most three digits comes back unchanged. */
  lemma ReplaceShort(t: string, b: nat)
    requires DigitsFrom(t, b) && |t| - b <= 3
    ensures ReplaceFrom(t, b) == t[b..]
  {
    CommaBeforeOnNumeral(t, b, b);
    ReplaceUnfold(t, b);
    ReplaceTail(t, b, b + 1);
    assert t[b..] == [t[b]] + t[b + 1..];
  }

  lemma {:induction false} ReplaceGroups(t: string, b: nat)
    requires DigitsFrom(t, b)
    ensures ReplaceFrom(t, b) == GroupThousands(t[b..])
    decreases |t|
  {
    if |t| - b <= 3 {
      ReplaceShort(t, b);
    } else {
      var t' := t[..|t| - 3];
      ReplaceChop(t, b, b);
      ReplaceGroups(t', b);
      var u := t[b..];
      assert u[..|u| - 3] == t'[b..];
      assert u[|u| - 3..] == t[|t| - 3..];
      assert GroupThousands(u) == GroupThousands(u[..|u| - 3]) + "," + u[|u| - 3..];
    }
  }

  /** The replace on n.toString(): the sign followed by the digits of |n|
      grouped by three from the right, and only commas are inserted. */
  lemma ReplaceOfNumeral(n: int)
    ensures ReplaceFrom(IntToString(n), 0) ==
      (if n < 0 then "-" else "") + GroupThousands(NatToString(if n < 0 then -n else n))
    ensures RemoveCommas(ReplaceFrom(IntToString(n), 0)) == IntToString(n)
  {
    var t := IntToString(n);
    if n < 0 {
      assert DigitsFrom(t, 1);
      assert !CommaBefore(t, 0);
      ReplaceGroups(t, 1);
      assert t[1..] == NatToString(-n);
    } else {
      assert DigitsFrom(t, 0);
      ReplaceGroups(t, 0);
      assert t[0..] == t;
    }
    assert ',' !in t;
    RemoveCommasOfReplace(t, 0);
  }

  /** Numbers between -1000 and 1000 exclusive come back with no comma. */
  lemma FormatSmallNumber(n: int)
    requires -1000 < n < 1000
    ensures FormatNumber(n) == IntToString(n)
  {
  }

  // -------------------------------------------------------- shape of groups

  lemma DigitsHaveNoComma(s: string)
    requires AllDigits(s)
    ensures ',' !in s
  {
  }

  lemma GroupsAppend(a: string, c: string)
    requires ',' !in c
    ensures Groups(a + "," + c) == Groups(a) + [c]
  {
    var r := a + "," + c;
    assert r[|a|] == ',';
    assert r[|a| + 1..] == c;
    var i := LastComma(r);
    assert i == |a|;
    assert r[..i] == a;
  }

  lemma ConcatAppend(g: seq<string>, c: string)
    ensures Concat(g + [c]) == Concat(g) + c
  {
  }

  /** Groups as formatNumber makes them: the first of one to three digits,
      every later one of exactly three. */
  ghost predicate ThousandsGroups(g: seq<string>) {
    |g| >= 1 && 1 <= |g[0]| <= 3 &&
    (forall k :: 1 <= k < |g| ==> |g[k]| == 3) &&
    (forall k :: 0 <= k < |g| ==> AllDigits(g[k]))
  }

  lemma ThousandsGroupsAppend(g: seq<string>, c: string)
    requires ThousandsGroups(g) && |c| == 3 && AllDigits(c)
    ensures ThousandsGroups(g + [c])
  {
  }

  lemma GroupsOfShortNumeral(s: string)
    requires 1 <= |s| <= 3 && AllDigits(s)
    ensures ThousandsGroups(Groups(GroupThousands(s)))
    ensures |Groups(GroupThousands(s))| == (|s| + 2) / 3
    ensures Concat(Groups(GroupThousands(s))) == s
  {
  }

  lemma GroupsOfLongNumeral(a: string, c: string)
    requires 1 <= |a| && AllDigits(a) && |c| == 3 && AllDigits(c)
    requires ThousandsGroups(Groups(GroupThousands(a)))
    requires |Groups(GroupThousands(a))| == (|a| + 2) / 3
    requires Concat(Groups(GroupThousands(a))) == a
    ensures ThousandsGroups(Groups(GroupThousands(a + c)))
    ensures |Groups(GroupThousands(a + c))| == (|a + c| + 2) / 3
    ensures Concat(Groups(GroupThousands(a + c))) == a + c
  {
    var s := a + c;
    assert s[..|s| - 3] == a && s[|s| - 3..] == c;
    DigitsHaveNoComma(c);
    GroupsAppend(GroupThousands(a), c);
    var g := Groups(GroupThousands(a));
    assert Groups(GroupThousands(s)) == g + [c];
    ThousandsGroupsAppend(g, c);
    ConcatAppend(g, c);
  }

  lemma {:induction false} GroupsOfGrouped(s: string)
    requires 1 <= |s| && AllDigits(s)
    ensures ThousandsGroups(Groups(GroupThousands(s)))
    ensures |Groups(GroupThousands(s))| == (|s| + 2) / 3
    ensures Concat(Groups(GroupThousands(s))) == s
    decreases |s|
  {
    if |s| <= 3 {
      GroupsOfShortNumeral(s);
    } else {
      var a, c := s[..|s| - 3], s[|s| - 3..];
      assert a + c == s;
      GroupsOfGrouped(a);
      GroupsOfLongNumeral(a, c);
    }
  }

  /** The comma-separated groups of formatNumber(n), after the sign: the
      first has one to three digits, every later one exactly three, and
      together they are the digits of |n|. */
  lemma FormatNumberGroupShape(n: int)
    ensures var g := Groups(FormatNumber(n)[if n < 0 then 1 else 0..]);
      ThousandsGroups(g) && Concat(g) == NatToString(if n < 0 then -n else n)
  {
    var digits := NatToString(if n < 0 then -n else n);
    GroupsOfGrouped(digits);
    var sign: string := if n < 0 then "-" else "";
    assert FormatNumber(n)[|sign|..] == GroupThousands(digits);
  }

  // --------------------------------------------------------- the read-back

  /** Removing commas across a comma-free character between an inserted
      prefix and the rest. */
  lemma RemoveCommasStep(head: string, c: char, rest: string)
    requires RemoveCommas(head) == [] && c != ','
    ensures RemoveCommas(head + ([c] + rest)) == [c] + RemoveCommas(rest)
  {
    RemoveCommasAppend(head, [c] + rest);
    RemoveCommasAppend([c], rest);
  }

  lemma {:induction false} RemoveCommasOfReplace(t: string, p: nat)
    requires p <= |t| && ',' !in t
    ensures RemoveCommas(ReplaceFrom(t, p)) == t[p..]
    decreases |t| - p
  {
    if p == |t| {
      ReplaceAtEnd(t);
    } else {
      var head := if CommaBefore(t, p) then "," else "";
      ReplaceUnfold(t, p);
      RemoveCommasOfReplace(t, p + 1);
      assert RemoveCommas(head) == [];
      RemoveCommasStep(head, t[p], ReplaceFrom(t, p + 1));
      assert t[p..] == [t[p]] + t[p + 1..];
    }
  }

  lemma {:induction false} RemoveCommasAppend(a: string, b: string)
    ensures RemoveCommas(a + b) == RemoveCommas(a) + RemoveCommas(b)
    decreases |a|
  {
    if a == [] {
      assert a + b == b;
    } else {
      var x := a + b;
      assert x[0] == a[0] && x[1..] == a[1..] + b;
      var h := if a[0] == ',' then [] else [a[0]];
      assert RemoveCommas(x) == h + RemoveCommas(a[1..] + b);
      assert RemoveCommas(a) == h + RemoveCommas(a[1..]);
      RemoveCommasAppend(a[1..], b);
    }
  }

  /** `replace(/,/g, '')` drops the commas and nothing else: a text without
      commas is unchanged, and every other character keeps its count. */
  lemma {:induction false} RemoveCommasKeeps(s: string)
    ensures ',' !in s ==> RemoveCommas(s) == s
    ensures multiset(RemoveCommas(s)) == multiset(s)[',' := 0]
    decreases |s|
  {
    if s != [] {
      RemoveCommasKeeps(s[1..]);
      assert s == [s[0]] + s[1..];
      var h := if s[0] == ',' then [] else [s[0]];
      assert RemoveCommas(s) == h + RemoveCommas(s[1..]);
      assert multiset(s) == multiset([s[0]]) + multiset(s[1..]);
    }
  }

  /** The read-back in updatePlayerCount recovers what formatNumber wrote. */
  lemma FormatNumberReadBack(n: int)
    ensures ParseDisplayedCount(FormatNumber(n)) == n
  {
    ParseIntOfIntToString(n);
  }
}
