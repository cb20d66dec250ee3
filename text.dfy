/** The JavaScript string operations the model-backend code relies on:
    `includes`, `toLowerCase`, `trim`, the `/Version: (.+)/` match and the
    decimal rendering `String(n)` of an integer. */
module Text {
  import opened Types

  // ---------------------------------------------------------------- includes

  /** `sub` occurs in `s` starting at position `i`. */
  ghost predicate OccursAt(s: string, sub: string, i: nat) {
    i + |sub| <= |s| && s[i..i + |sub|] == sub
  }

  lemma ShiftOccurrence(s: string, sub: string)
    requires |s| > 0
    ensures forall i: nat :: 0 < i ==> (OccursAt(s, sub, i) <==> OccursAt(s[1..], sub, i - 1))
    ensures forall j: nat :: OccursAt(s[1..], sub, j) ==> OccursAt(s, sub, j + 1)
  {
    forall j: nat ensures OccursAt(s[1..], sub, j) <==> OccursAt(s, sub, j + 1) {
      if j + 1 + |sub| <= |s| {
        assert s[1..][j..j + |sub|] == s[j + 1..j + 1 + |sub|];
      }
    }
    forall i: nat | 0 < i ensures OccursAt(s, sub, i) <==> OccursAt(s[1..], sub, i - 1) {
      if i + |sub| <= |s| {
        assert s[1..][i - 1..i - 1 + |sub|] == s[i..i + |sub|];
      }
    }
  }

  /** `s.includes(sub)`: whether `sub` occurs anywhere in `s`. */
  function Contains(s: string, sub: string): (r: bool)
    ensures r <==> exists i: nat :: OccursAt(s, sub, i)
    decreases |s|
  {
    if |sub| <= |s| && s[..|sub|] == sub then
      assert OccursAt(s, sub, 0);
      true
    else if |s| == 0 then
      false
    else
      ShiftOccurrence(s, sub);
      assert !OccursAt(s, sub, 0);
      Contains(s[1..], sub)
  }

  // ------------------------------------------------------------- toLowerCase

  predicate IsUpper(c: char) {
    'A' <= c <= 'Z'
  }

  function LowerChar(c: char): char {
    if IsUpper(c) then (c as int + 32) as char else c
  }

  /** `s.toLowerCase()`, folding the ASCII letters. */
  function ToLower(s: string): (r: string)
    ensures |r| == |s|
    ensures forall k :: 0 <= k < |s| ==> r[k] == LowerChar(s[k])
  {
    seq(|s|, k requires 0 <= k < |s| => LowerChar(s[k]))
  }

  /** `a` and `b` are the same letter, up to ASCII case. */
  ghost predicate SameIgnoringCase(a: char, b: char) {
    a == b || (IsUpper(a) && a as int + 32 == b as int) || (IsUpper(b) && b as int + 32 == a as int)
  }

  /** `word` occurs at position `i` of `s` when case is ignored. */
  ghost predicate OccursAtIgnoringCase(s: string, word: string, i: nat) {
    i + |word| <= |s| && forall k :: 0 <= k < |word| ==> SameIgnoringCase(s[i + k], word[k])
  }

  /** A word written in lower case (no ASCII capitals). */
  ghost predicate LowerCaseWord(word: string) {
    forall k :: 0 <= k < |word| ==> !IsUpper(word[k])
  }

  /** Searching the lowered text for a lower-case word is a case-insensitive search. */
  lemma LoweredSearchIgnoresCase(s: string, word: string)
    requires LowerCaseWord(word)
    ensures Contains(ToLower(s), word) <==> exists i: nat :: OccursAtIgnoringCase(s, word, i)
  {
    var t := ToLower(s);
    forall i: nat | i + |word| <= |s|
      ensures OccursAt(t, word, i) <==> OccursAtIgnoringCase(s, word, i)
    {
      if OccursAt(t, word, i) {
        forall k | 0 <= k < |word| ensures SameIgnoringCase(s[i + k], word[k]) {
          assert t[i..i + |word|][k] == t[i + k];
        }
      }
      if OccursAtIgnoringCase(s, word, i) {
        forall k | 0 <= k < |word| ensures t[i..i + |word|][k] == word[k] {
          assert SameIgnoringCase(s[i + k], word[k]);
        }
        assert t[i..i + |word|] == word;
      }
    }
    if exists i: nat :: OccursAtIgnoringCase(s, word, i) {
      var i: nat :| OccursAtIgnoringCase(s, word, i);
      assert OccursAt(t, word, i);
    }
  }

  // -------------------------------------------------------------------- trim

  /** The characters `String.prototype.trim` removes: the ECMAScript
      WhiteSpace (tab, vertical tab, form feed, no-break space, byte order
      mark and the space separators) and LineTerminator characters. */
  predicate IsWhitespace(c: char) {
    c == '\t' || c == '\n' || c == '\U{B}' || c == '\U{C}' || c == '\r' || c == ' '
    || c == '\U{A0}' || c == '\U{1680}' || ('\U{2000}' <= c <= '\U{200A}')
    || c == '\U{2028}' || c == '\U{2029}' || c == '\U{202F}' || c == '\U{205F}'
    || c == '\U{3000}' || c == '\U{FEFF}'
  }

  ghost predicate AllWhitespace(s: string) {
    forall k :: 0 <= k < |s| ==> IsWhitespace(s[k])
  }

  /** The index of the first non-whitespace character of `s` at or after `i`, or `|s|`. */
  function StartOfText(s: string, i: nat): (a: nat)
    requires i <= |s|
    ensures i <= a <= |s|
    ensures forall k :: i <= k < a ==> IsWhitespace(s[k])
    ensures a == |s| || !IsWhitespace(s[a])
    decreases |s| - i
  {
    if i < |s| && IsWhitespace(s[i]) then StartOfText(s, i + 1) else i
  }

  /** The index just past the last non-whitespace character of `s[a..j]`, or `a`. */
  function EndOfText(s: string, a: nat, j: nat): (b: nat)
    requires a <= j <= |s|
    ensures a <= b <= j
    ensures forall k :: b <= k < j ==> IsWhitespace(s[k])
    ensures b == a || !IsWhitespace(s[b - 1])
    decreases j
  {
    if a < j && IsWhitespace(s[j - 1]) then EndOfText(s, a, j - 1) else j
  }

  /** `s.trim()`: `s` with whitespace removed from both ends. The result is
      empty exactly when `s` holds nothing but whitespace. */
  function Trim(s: string): (r: string)
    ensures exists i, j :: (0 <= i <= j <= |s| && r == s[i..j]
      && (forall k :: 0 <= k < i ==> IsWhitespace(s[k]))
      && (forall k :: j <= k < |s| ==> IsWhitespace(s[k])))
    ensures r == [] || (!IsWhitespace(r[0]) && !IsWhitespace(r[|r| - 1]))
    ensures r == [] <==> AllWhitespace(s)
  {
    var a := StartOfText(s, 0);
    var b := EndOfText(s, a, |s|);
    assert a < b ==> s[a..b][0] == s[a] && s[a..b][b - a - 1] == s[b - 1];
    s[a..b]
  }

  // ------------------------------------------------------- /Version: (.+)/

  const VersionTag := "Version: "

  /** The characters `.` does not match in a JavaScript regular expression. */
  predicate IsLineTerminator(c: char) {
    c == '\n' || c == '\r' || c == '\U{2028}' || c == '\U{2029}'
  }

  /** The pattern `Version: (.+)` can start matching at position `i`: the tag
      is there and at least one character other than a line terminator follows. */
  predicate VersionAt(s: string, i: nat) {
    i + |VersionTag| < |s| && s[i..i + |VersionTag|] == VersionTag && !IsLineTerminator(s[i + |VersionTag|])
  }

  /** The length of the longest run of non-line-terminator characters of `s` starting at `j`. */
  function LineLength(s: string, j: nat): (n: nat)
    requires j <= |s|
    ensures j + n <= |s|
    ensures forall k :: j <= k < j + n ==> !IsLineTerminator(s[k])
    ensures j + n == |s| || IsLineTerminator(s[j + n])
    decreases |s| - j
  {
    if j == |s| || IsLineTerminator(s[j]) then 0 else 1 + LineLength(s, j + 1)
  }

  /** The leftmost position at or after `i` where `/Version: (.+)/` can
      start matching, or `|s|` when there is none. */
  function VersionStart(s: string, i: nat): (k: nat)
    requires i <= |s|
    ensures i <= k <= |s|
    ensures forall m: nat :: i <= m < k ==> !VersionAt(s, m)
    ensures k < |s| ==> VersionAt(s, k)
    ensures k == |s| ==> forall m: nat :: i <= m ==> !VersionAt(s, m)
    decreases |s| - i
  {
    if i + |VersionTag| >= |s| then |s|
    else if VersionAt(s, i) then i
    else VersionStart(s, i + 1)
  }

  /** `s.match(/Version: (.+)/)?.[1]`: the leftmost start wins and `.+` runs
      greedily to the end of the line. */
  function VersionMatch(s: string): (r: Option<string>)
    ensures r.None? <==> forall k: nat :: !VersionAt(s, k)
    ensures r.Some? ==> |r.value| > 0 && forall k :: 0 <= k < |r.value| ==> !IsLineTerminator(r.value[k])
    ensures r.Some? ==>
      exists k: nat :: (VersionAt(s, k)
        && (forall m: nat :: m < k ==> !VersionAt(s, m))
        && r.value == s[k + |VersionTag|..k + |VersionTag| + LineLength(s, k + |VersionTag|)])
  {
    var k := VersionStart(s, 0);
    if k == |s| then
      None
    else
      var v := s[k + |VersionTag|..k + |VersionTag| + LineLength(s, k + |VersionTag|)];
      assert v[0] == s[k + |VersionTag|];
      Some(v)
  }

  // ----------------------------------------------------------------- String(n)

  function DigitChar(d: nat): char
    requires d < 10
  {
    "0123456789"[d]
  }

  predicate IsDigit(c: char) {
    '0' <= c <= '9'
  }

  function DigitValue(c: char): nat
    requires IsDigit(c)
  {
    c as int - '0' as int
  }

  /** Decimal digits of a natural number, most significant first, without leading zeros. */
  function NatToDecimal(n: nat): (r: string)
    ensures |r| > 0 && forall k :: 0 <= k < |r| ==> IsDigit(r[k])
    ensures |r| > 1 ==> r[0] != '0'
  {
    if n < 10 then [DigitChar(n)] else NatToDecimal(n / 10) + [DigitChar(n % 10)]
  }

  /** `String(n)` for an integral number: a minus sign exactly for a
      negative number, then the digits of its magnitude without leading zeros. */
  function ToDecimal(n: int): (r: string)
    ensures |r| > 0
    ensures r[0] == '-' <==> n < 0
    ensures n < 0 ==> r[1..] == NatToDecimal(-n)
    ensures n >= 0 ==> r == NatToDecimal(n)
  {
    if n < 0 then "-" + NatToDecimal(-n) else NatToDecimal(n)
  }

  /** The value of a string of decimal digits. */
  function DigitsValue(s: string): nat
    requires forall k :: 0 <= k < |s| ==> IsDigit(s[k])
  {
    if s == [] then 0 else 10 * DigitsValue(s[..|s| - 1]) + DigitValue(s[|s| - 1])
  }

  /** A numeral as `String` writes a magnitude: one or more digits, and no
      leading zero unless the numeral is the single digit `0`. */
  predicate Canonical(m: string) {
    |m| > 0 && (forall k :: 0 <= k < |m| ==> IsDigit(m[k])) && (|m| > 1 ==> m[0] != '0')
  }

  /** Reads back an optionally signed decimal numeral in the form `String`
      writes one: no leading zeros and no `-0`; any other text reads as `None`. */
  function ParseDecimal(s: string): Option<int> {
    if |s| > 0 && s[0] == '-' then
      if Canonical(s[1..]) && s[1..] != "0" then Some(-(DigitsValue(s[1..]) as int)) else None
    else
      if Canonical(s) then Some(DigitsValue(s)) else None
  }

  lemma {:induction false} NatDecimalValue(n: nat)
    ensures DigitsValue(NatToDecimal(n)) == n
  {
    var r := NatToDecimal(n);
    if n >= 10 {
      NatDecimalValue(n / 10);
      assert r[..|r| - 1] == NatToDecimal(n / 10);
      assert r[|r| - 1] == DigitChar(n % 10);
    } else {
      assert r == [DigitChar(n)];
    }
  }

  /** The decimal rendering of an integer reads back as that integer. */
  lemma DecimalRoundTrip(n: int)
    ensures ParseDecimal(ToDecimal(n)) == Some(n)
  {
    var d := NatToDecimal(if n < 0 then -n else n);
    NatDecimalValue(if n < 0 then -n else n);
    if n < 0 {
      var t := ToDecimal(n);
      assert t == "-" + d;
      assert t[1..] == d;
      if |d| == 1 {
        assert d == [DigitChar(-n)];
      }
    } else {
      assert ToDecimal(n) == d;
    }
  }

  /** A digit string whose first digit is not `0` has a positive value. */
  lemma {:induction false} LeadingDigitPositive(m: string)
    requires |m| > 0 && (forall k :: 0 <= k < |m| ==> IsDigit(m[k])) && m[0] != '0'
    ensures DigitsValue(m) > 0
  {
    if |m| > 1 {
      LeadingDigitPositive(m[..|m| - 1]);
    }
  }

  /** A canonical magnitude is the rendering of its own value. */
  lemma {:induction false} CanonicalRendersItself(m: string)
    requires Canonical(m)
    ensures NatToDecimal(DigitsValue(m)) == m
  {
    var v := DigitsValue(m);
    var last := m[|m| - 1];
    assert DigitChar(DigitValue(last)) == last;
    if |m| == 1 {
      assert m == [last];
    } else {
      var front := m[..|m| - 1];
      assert front[0] == m[0];
      LeadingDigitPositive(front);
      CanonicalRendersItself(front);
      assert v == 10 * DigitsValue(front) + DigitValue(last);
      assert v / 10 == DigitsValue(front) && v % 10 == DigitValue(last);
      assert m == front + [last];
    }
  }

  /** A numeral that reads back is exactly the rendering of its value, so
      every integer has one accepted spelling. */
  lemma DecimalCanonical(s: string, n: int)
    requires ParseDecimal(s) == Some(n)
    ensures s == ToDecimal(n)
  {
    if |s| > 0 && s[0] == '-' {
      var m := s[1..];
      CanonicalRendersItself(m);
      if |m| == 1 {
        assert m[0] != '0' by { assert m != "0"; }
      }
      LeadingDigitPositive(m);
      assert s == "-" + m;
    } else {
      CanonicalRendersItself(s);
    }
  }
}
