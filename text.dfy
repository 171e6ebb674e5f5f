/**
 * The JavaScript string operations the screens rely on: `trim`, `includes`,
 * `indexOf`, `Number.prototype.toString`, `padStart` and `parseInt` (on the
 * digit strings it is given here). Strings are sequences of code points.
 */
module Text {
  import opened Wrappers

  // ---------------------------------------------------------------- trim

  /** The WhiteSpace and LineTerminator code points that `String.prototype.trim` strips. */
  predicate IsWhitespace(c: char) {
    || c == ' ' || c == '\t' || c == '\n' || c == '\r'
    || c == '\U{000B}' || c == '\U{000C}' || c == '\U{00A0}' || c == '\U{1680}'
    || ('\U{2000}' <= c <= '\U{200A}')
    || c == '\U{2028}' || c == '\U{2029}' || c == '\U{202F}' || c == '\U{205F}'
    || c == '\U{3000}' || c == '\U{FEFF}'
  }

  /** Every character of `s` is white space (so `s.trim()` is empty). */
  predicate IsBlank(s: string) {
    forall i :: 0 <= i < |s| ==> IsWhitespace(s[i])
  }

  /** How many white-space characters `s` starts with. */
  function LeadingBlanks(s: string): (k: nat)
    ensures k <= |s| && IsBlank(s[..k])
    ensures k == |s| || !IsWhitespace(s[k])
  {
    if s != [] && IsWhitespace(s[0]) then
      var k := 1 + LeadingBlanks(s[1..]);
      assert s[..k] == [s[0]] + s[1..][..k - 1];
      k
    else 0
  }

  /** The index just past the last character of `s` that is not white space (0 if there is none). */
  function TextEnd(s: string): (k: nat)
    ensures k <= |s| && IsBlank(s[k..])
    ensures k == 0 || !IsWhitespace(s[k - 1])
  {
    if s != [] && IsWhitespace(s[|s| - 1]) then
      var k := TextEnd(s[..|s| - 1]);
      assert s[k..] == s[..|s| - 1][k..] + [s[|s| - 1]];
      k
    else |s|
  }

  /** `s.trim()`: empty exactly when `s` is blank, and with no white space left at either end. */
  function Trim(s: string): (r: string)
    ensures |r| <= |s|
    ensures r == [] <==> IsBlank(s)
    ensures r != [] ==> !IsWhitespace(r[0]) && !IsWhitespace(r[|r| - 1])
  {
    var t := s[LeadingBlanks(s)..];
    var r := t[..TextEnd(t)];
    assert r != [] ==> r[0] == t[0] == s[LeadingBlanks(s)];
    assert IsBlank(s) ==> LeadingBlanks(s) == |s|;
    assert r == [] ==> s[..LeadingBlanks(s)] == s;
    r
  }

  /** Blank padding around a text whose ends are not white space is exactly what `trim` removes. */
  lemma TrimPadded(a: string, s: string, b: string)
    requires IsBlank(a) && IsBlank(b)
    requires s != [] && !IsWhitespace(s[0]) && !IsWhitespace(s[|s| - 1])
    ensures Trim(a + s + b) == s
  {
    LeadingBlanksPadded(a, s + b);
    assert a + s + b == a + (s + b);
    assert (a + s + b)[|a|..] == s + b;
    TextEndPadded(s, b);
    assert (s + b)[..|s|] == s;
  }

  lemma {:induction false} LeadingBlanksPadded(a: string, t: string)
    requires IsBlank(a) && t != [] && !IsWhitespace(t[0])
    ensures LeadingBlanks(a + t) == |a|
  {
    if a != [] {
      assert (a + t)[1..] == a[1..] + t;
      LeadingBlanksPadded(a[1..], t);
    } else {
      assert a + t == t;
    }
  }

  lemma {:induction false} TextEndPadded(t: string, b: string)
    requires IsBlank(b) && t != [] && !IsWhitespace(t[|t| - 1])
    ensures TextEnd(t + b) == |t|
  {
    if b != [] {
      assert (t + b)[..|t + b| - 1] == t + b[..|b| - 1];
      TextEndPadded(t, b[..|b| - 1]);
    } else {
      assert t + b == t;
    }
  }

  // ------------------------------------------------------ includes / indexOf

  /** `pat` occurs in `s` starting at index `i`. */
  predicate IsAt(s: string, pat: string, i: nat) {
    i + |pat| <= |s| && s[i..i + |pat|] == pat
  }

  /** `s.includes(pat)`. */
  predicate Contains(s: string, pat: string) {
    exists i: nat | i <= |s| :: IsAt(s, pat, i)
  }

  /** `s.indexOf(pat, from)`: the first occurrence of `pat` at or after `from`, if any. */
  function IndexOf(s: string, pat: string, from: nat): (r: Option<nat>)
    decreases |s| + 1 - from
    ensures r.Some? ==> from <= r.value && IsAt(s, pat, r.value)
    ensures r.Some? ==> forall j: nat :: from <= j < r.value ==> !IsAt(s, pat, j)
    ensures r.None? ==> forall j: nat :: from <= j ==> !IsAt(s, pat, j)
  {
    if from + |pat| > |s| then None
    else if IsAt(s, pat, from) then Some(from)
    else IndexOf(s, pat, from + 1)
  }

  /** `includes` agrees with a search from the start of the string. */
  lemma ContainsIffFound(s: string, pat: string)
    ensures Contains(s, pat) <==> IndexOf(s, pat, 0).Some?
  {
    var r := IndexOf(s, pat, 0);
    if r.Some? {
      assert IsAt(s, pat, r.value);
    }
  }

  /** Every string includes the empty string. */
  lemma ContainsEmpty(s: string)
    ensures Contains(s, "")
  {
    assert IsAt(s, "", 0);
  }

  // ------------------------------------------------------------- numbers

  predicate IsDigit(c: char) {
    '0' <= c <= '9'
  }

  predicate AllDigits(s: string) {
    forall i :: 0 <= i < |s| ==> IsDigit(s[i])
  }

  function DigitChar(d: nat): (c: char)
    requires d < 10
    ensures IsDigit(c) && (c as int) - ('0' as int) == d
  {
    "0123456789"[d]
  }

  function DigitValue(c: char): nat
    requires IsDigit(c)
  {
    (c as int) - ('0' as int)
  }

  /** `n.toString()` for a non-negative integer: decimal digits with no leading zero. */
  function NatToString(n: nat): (s: string)
    decreases n
    ensures 1 <= |s| && AllDigits(s)
    ensures |s| == 1 <==> n < 10
    ensures s[0] == '0' ==> n == 0
  {
    if n < 10 then [DigitChar(n)] else NatToString(n / 10) + [DigitChar(n % 10)]
  }

  /** `i.toString()` for any integer: a minus sign before the digits of a negative one. */
  function IntToString(i: int): (s: string)
    ensures 1 <= |s|
    ensures i >= 0 ==> s == NatToString(i)
    ensures i < 0 ==> s == "-" + NatToString(-i)
  {
    if i < 0 then "-" + NatToString(-i) else NatToString(i)
  }

  /** The value of a string of decimal digits, leading zeros allowed (what `parseInt` returns for it). */
  function DecimalValue(s: string): nat
    requires AllDigits(s)
  {
    if s == [] then 0 else DecimalValue(s[..|s| - 1]) * 10 + DigitValue(s[|s| - 1])
  }

  /** `parseInt` undoes `toString` on non-negative integers. */
  lemma {:induction false} DecimalValueOfNatToString(n: nat)
    ensures DecimalValue(NatToString(n)) == n
  {
    var s := NatToString(n);
    if n >= 10 {
      assert s[..|s| - 1] == NatToString(n / 10);
      DecimalValueOfNatToString(n / 10);
    }
  }

  /** `toString` is one-to-one on non-negative integers. */
  lemma NatToStringInjective(a: nat, b: nat)
    requires NatToString(a) == NatToString(b)
    ensures a == b
  {
    DecimalValueOfNatToString(a);
    DecimalValueOfNatToString(b);
  }

  function Repeat(c: char, n: nat): (r: string)
    ensures |r| == n && forall i :: 0 <= i < n ==> r[i] == c
  {
    if n == 0 then [] else [c] + Repeat(c, n - 1)
  }

  /** `s.padStart(width, fill)` with a one-character fill. */
  function PadStart(s: string, width: nat, fill: char): (r: string)
    ensures |r| == if |s| >= width then |s| else width
    ensures r[|r| - |s|..] == s
    ensures forall i :: 0 <= i < |r| - |s| ==> r[i] == fill
  {
    if |s| >= width then s else Repeat(fill, width - |s|) + s
  }

  /** Leading zeros do not change the value `parseInt` reads. */
  lemma {:induction false} DecimalValueOfZeroPadded(s: string, width: nat)
    requires AllDigits(s)
    ensures AllDigits(PadStart(s, width, '0'))
    ensures DecimalValue(PadStart(s, width, '0')) == DecimalValue(s)
  {
    var r := PadStart(s, width, '0');
    assert AllDigits(r) by {
      forall i | 0 <= i < |r| ensures IsDigit(r[i]) {
        if i >= |r| - |s| { assert r[|r| - |s|..][i - (|r| - |s|)] == r[i]; }
      }
    }
    if |s| < width {
      LeadingZeros(s, width - |s|);
      assert r == Repeat('0', width - |s|) + s;
    }
  }

  lemma {:induction false} LeadingZeros(s: string, k: nat)
    requires AllDigits(s)
    ensures AllDigits(Repeat('0', k) + s)
    ensures DecimalValue(Repeat('0', k) + s) == DecimalValue(s)
    decreases |s|
  {
    var z := Repeat('0', k);
    var r := z + s;
    assert AllDigits(r) by {
      forall i | 0 <= i < |r| ensures IsDigit(r[i]) {
        if i >= k { assert r[i] == s[i - k]; }
      }
    }
    if s == [] {
      assert r == z;
      AllZeros(k);
    } else {
      assert r[..|r| - 1] == z + s[..|s| - 1];
      LeadingZeros(s[..|s| - 1], k);
    }
  }

  lemma {:induction false} AllZeros(k: nat)
    ensures AllDigits(Repeat('0', k))
    ensures DecimalValue(Repeat('0', k)) == 0
  {
    if k > 0 {
      var z := Repeat('0', k);
      assert z[..k - 1] == Repeat('0', k - 1);
      AllZeros(k - 1);
    }
  }

  /** `n.toString().padStart(2, '0')`: the two-digit form used by every clock display. */
  function Pad2(n: nat): (s: string)
    ensures |s| >= 2
    ensures n < 100 ==> |s| == 2
  {
    if n < 10 then ['0', DigitChar(n)] else NatToString(n)
  }

  /** The two-digit form is all digits and reads back as the number. */
  lemma Pad2Value(n: nat)
    ensures AllDigits(Pad2(n)) && DecimalValue(Pad2(n)) == n
  {
    DecimalValueOfNatToString(n);
    if n < 10 {
      assert DecimalValue(['0', DigitChar(n)][..1]) == 0;
    }
  }

  /** `Pad2` is `String(n).padStart(2, '0')`. */
  lemma Pad2IsPadStart(n: nat)
    ensures Pad2(n) == PadStart(NatToString(n), 2, '0')
  {
    if n < 10 {
      assert NatToString(n) == [DigitChar(n)];
      assert Repeat('0', 1) == ['0'];
    }
  }

  /**
   * Where the pieces of `a + sep + b + sep + c` sit when the last two are two
   * characters long: `c` at the end, `b` before it, `a` all the rest.
   */
  lemma JoinedFields(a: string, sep: char, b: string, c: string)
    requires |b| == 2 && |c| == 2
    ensures var k := a + [sep] + b + [sep] + c;
      && |k| == |a| + 6 && k[|k| - 3] == sep && k[|k| - 6] == sep
      && k[|k| - 2..] == c && k[|k| - 5..|k| - 3] == b && k[..|k| - 6] == a
  {
    var k := a + [sep] + b + [sep] + c;
    var n := |a|;
    assert k[n + 4..] == c;
    assert k[n + 1..n + 3] == b;
    assert k[..n] == a;
  }

  /** Where the pieces of `a + sep + b` sit when `b` is two characters long. */
  lemma JoinedPair(a: string, sep: char, b: string)
    requires |b| == 2
    ensures var k := a + [sep] + b;
      && |k| == |a| + 3 && k[|k| - 3] == sep && k[|k| - 2..] == b && k[..|k| - 3] == a
  {
    var k := a + [sep] + b;
    assert k[|a| + 1..] == b;
    assert k[..|a|] == a;
  }

  /** Below 100, the two characters are the tens digit and the units digit. */
  lemma Pad2Digits(n: nat)
    requires n < 100
    ensures Pad2(n) == [DigitChar(n / 10), DigitChar(n % 10)]
  {
    var p := Pad2(n);
    if n < 10 {
      assert NatToString(n) == [DigitChar(n)];
      assert p[1..] == [DigitChar(n)];
      assert p[0] == '0' == DigitChar(0);
    } else {
      assert NatToString(n) == [DigitChar(n / 10)] + [DigitChar(n % 10)];
    }
  }

  /** Two different numbers never share a two-digit form. */
  lemma Pad2Injective(a: nat, b: nat)
    requires Pad2(a) == Pad2(b)
    ensures a == b
  {
    Pad2Value(a);
    Pad2Value(b);
  }
}
