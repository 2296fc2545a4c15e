/**
  The JavaScript string built-ins the interview dashboard relies on, restricted to
  what the dashboard feeds them: `Number.prototype.toString` and `padStart` for
  zero-padded labels, `parseInt` for clock times, `split(":")`, and `trim`.
 */
module Text {
  import opened Wrappers

  predicate IsDigit(c: char) {
    '0' <= c <= '9'
  }

  predicate AllDigits(s: string) {
    forall i :: 0 <= i < |s| ==> IsDigit(s[i])
  }

  function DigitValue(c: char): nat
    requires IsDigit(c)
  {
    (c as int) - ('0' as int)
  }

  function DigitChar(d: nat): (c: char)
    requires d < 10
    ensures IsDigit(c) && DigitValue(c) == d
  {
    (('0' as int) + d) as char
  }

  /** The number a run of decimal digits denotes, most significant digit first. */
  function DecimalValue(s: string): nat
    requires AllDigits(s)
  {
    if s == [] then 0 else 10 * DecimalValue(s[..|s| - 1]) + DigitValue(s[|s| - 1])
  }

  function Pow10(w: nat): (p: nat)
    ensures p >= 1
  {
    if w == 0 then 1 else 10 * Pow10(w - 1)
  }

  /** `n.toString()` for a non-negative integer: its shortest decimal rendering. */
  function NatToDecimal(n: nat): (s: string)
    ensures 1 <= |s| && AllDigits(s)
  {
    if n < 10 then [DigitChar(n)] else NatToDecimal(n / 10) + [DigitChar(n % 10)]
  }

  /** Reading back the decimal rendering of `n` gives `n`. */
  lemma {:induction false} DecimalValueOfNatToDecimal(n: nat)
    ensures DecimalValue(NatToDecimal(n)) == n
  {
    if n >= 10 {
      var s := NatToDecimal(n);
      assert s[..|s| - 1] == NatToDecimal(n / 10);
      DecimalValueOfNatToDecimal(n / 10);
    }
  }

  /** A number below 10^w renders in at most w digits. */
  lemma {:induction false} NatToDecimalLength(n: nat, w: nat)
    requires 1 <= w && n < Pow10(w)
    ensures |NatToDecimal(n)| <= w
  {
    if n >= 10 {
      assert w >= 2;
      assert n / 10 < Pow10(w - 1);
      NatToDecimalLength(n / 10, w - 1);
    }
  }

  /** A run of digits is determined by its length and its value. */
  lemma {:induction false} DecimalValueInjective(a: string, b: string)
    requires AllDigits(a) && AllDigits(b) && |a| == |b|
    requires DecimalValue(a) == DecimalValue(b)
    ensures a == b
  {
    if a != [] {
      var n := |a| - 1;
      assert DigitValue(a[n]) == DecimalValue(a) % 10;
      assert DigitValue(b[n]) == DecimalValue(b) % 10;
      assert DecimalValue(a[..n]) == DecimalValue(a) / 10;
      assert DecimalValue(b[..n]) == DecimalValue(b) / 10;
      DecimalValueInjective(a[..n], b[..n]);
      assert a == a[..n] + [a[n]];
      assert b == b[..n] + [b[n]];
    }
  }

  predicate AllZeros(s: string) {
    forall i :: 0 <= i < |s| ==> s[i] == '0'
  }

  lemma {:induction false} DecimalValueOfZeros(z: string)
    requires AllZeros(z)
    ensures AllDigits(z) && DecimalValue(z) == 0
  {
    if z != [] {
      DecimalValueOfZeros(z[..|z| - 1]);
    }
  }

  /** Leading zeros do not change the value of a run of digits. */
  lemma {:induction false} DecimalValueLeadingZeros(z: string, s: string)
    requires AllZeros(z) && AllDigits(s)
    ensures AllDigits(z + s) && DecimalValue(z + s) == DecimalValue(s)
  {
    DecimalValueOfZeros(z);
    if s == [] {
      assert z + s == z;
    } else {
      var n := |s| - 1;
      assert (z + s)[..|z + s| - 1] == z + s[..n];
      DecimalValueLeadingZeros(z, s[..n]);
    }
  }

  /** `s.padStart(w, c)`: `s` preceded by enough copies of `c` to reach length `w`. */
  function PadStart(s: string, w: nat, c: char): (r: string)
    ensures |r| == if |s| >= w then |s| else w
    ensures r[|r| - |s|..] == s
    ensures forall i :: 0 <= i < |r| - |s| ==> r[i] == c
  {
    if |s| >= w then s else seq(w - |s|, _ => c) + s
  }

  /** `n.toString().padStart(w, "0")`, the zero-padded label used for dates and clock times. */
  function ZeroPad(n: nat, w: nat): (r: string)
    ensures AllDigits(r) && w <= |r|
  {
    PadStart(NatToDecimal(n), w, '0')
  }

  /** A zero-padded label reads back as the number it renders. */
  lemma ZeroPadValue(n: nat, w: nat)
    ensures DecimalValue(ZeroPad(n, w)) == n
  {
    var s := NatToDecimal(n);
    var r := ZeroPad(n, w);
    var z := r[..|r| - |s|];
    assert r == z + s;
    DecimalValueLeadingZeros(z, s);
    DecimalValueOfNatToDecimal(n);
  }

  /** Below 10^w the zero-padded label is exactly w digits long. */
  lemma ZeroPadLength(n: nat, w: nat)
    requires 1 <= w && n < Pow10(w)
    ensures |ZeroPad(n, w)| == w
  {
    NatToDecimalLength(n, w);
  }

  /** Every run of w digits is the zero-padded label of its own value. */
  lemma ZeroPadOfDecimalValue(s: string)
    requires 1 <= |s| && AllDigits(s)
    ensures ZeroPad(DecimalValue(s), |s|) == s
  {
    DecimalValueBound(s);
    ZeroPadLength(DecimalValue(s), |s|);
    ZeroPadValue(DecimalValue(s), |s|);
    DecimalValueInjective(ZeroPad(DecimalValue(s), |s|), s);
  }

  lemma {:induction false} DecimalValueBound(s: string)
    requires AllDigits(s)
    ensures DecimalValue(s) < Pow10(|s|)
  {
    if s != [] {
      DecimalValueBound(s[..|s| - 1]);
    }
  }

  /** The longest prefix of `s` made of decimal digits. */
  function DigitPrefix(s: string): (p: string)
    ensures |p| <= |s| && p == s[..|p|] && AllDigits(p)
    ensures |p| == |s| || !IsDigit(s[|p|])
  {
    if s == [] || !IsDigit(s[0]) then [] else [s[0]] + DigitPrefix(s[1..])
  }

  /**
    `parseInt(s)` on the strings the grid meets: the value of the leading digit run,
    or None (JavaScript's NaN) when `s` does not start with a digit.
   */
  function ParseIntPrefix(s: string): (r: Option<nat>)
    ensures r.None? <==> (s == [] || !IsDigit(s[0]))
  {
    var p := DigitPrefix(s);
    if p == [] then None else Some(DecimalValue(p))
  }

  /** On a non-empty run of digits `parseInt` reads the whole run. */
  lemma ParseIntPrefixOfDigits(s: string)
    requires 1 <= |s| && AllDigits(s)
    ensures ParseIntPrefix(s) == Some(DecimalValue(s))
  {
    assert DigitPrefix(s) == s;
  }

  /** `s.split(sep)`: the pieces of `s` between occurrences of `sep`; always at least one. */
  function Split(s: string, sep: char): (parts: seq<string>)
    ensures 1 <= |parts|
    ensures forall i :: 0 <= i < |parts| ==> sep !in parts[i]
  {
    if s == [] then [[]]
    else
      var rest := Split(s[1..], sep);
      if s[0] == sep then [[]] + rest else [[s[0]] + rest[0]] + rest[1..]
  }

  /** `parts.join(sep)`. */
  function Join(parts: seq<string>, sep: char): string
    requires 1 <= |parts|
  {
    if |parts| == 1 then parts[0] else parts[0] + [sep] + Join(parts[1..], sep)
  }

  /** Joining the pieces of a split gives back the original string. */
  lemma {:induction false} JoinSplit(s: string, sep: char)
    ensures Join(Split(s, sep), sep) == s
  {
    if s != [] {
      var rest := Split(s[1..], sep);
      JoinSplit(s[1..], sep);
      if s[0] == sep {
        assert Split(s, sep)[1..] == rest;
      } else {
        var parts := Split(s, sep);
        assert parts[0] == [s[0]] + rest[0];
        if |rest| > 1 {
          assert parts[1..] == rest[1..];
        }
      }
    }
  }

  /** A separator-free prefix is glued onto the first piece. */
  lemma {:induction false} SplitFreePrefix(p: string, t: string, sep: char)
    requires sep !in p
    ensures Split(p + t, sep) == [p + Split(t, sep)[0]] + Split(t, sep)[1..]
  {
    if p != [] {
      assert (p + t)[1..] == p[1..] + t;
      SplitFreePrefix(p[1..], t, sep);
      assert [p[0]] + (p[1..] + Split(t, sep)[0]) == p + Split(t, sep)[0];
    } else {
      assert p + t == t;
      assert p + Split(t, sep)[0] == Split(t, sep)[0];
      assert Split(t, sep) == [Split(t, sep)[0]] + Split(t, sep)[1..];
    }
  }

  /** Splitting a join of separator-free pieces gives back the pieces. */
  lemma {:induction false} SplitJoin(parts: seq<string>, sep: char)
    requires 1 <= |parts|
    requires forall i :: 0 <= i < |parts| ==> sep !in parts[i]
    ensures Split(Join(parts, sep), sep) == parts
  {
    if |parts| == 1 {
      SplitFreePrefix(parts[0], [], sep);
      assert parts[0] + [] == parts[0];
    } else {
      var tail := Join(parts[1..], sep);
      SplitJoin(parts[1..], sep);
      assert Split([sep] + tail, sep) == [[]] + parts[1..];
      assert Join(parts, sep) == parts[0] + ([sep] + tail);
      SplitFreePrefix(parts[0], [sep] + tail, sep);
      assert parts[0] + [] == parts[0];
      assert parts == [parts[0]] + parts[1..];
    }
  }

  /** The characters `String.prototype.trim` removes: ECMAScript WhiteSpace and LineTerminator. */
  predicate IsJsWhiteSpace(c: char) {
    || c == ' ' || c == '\t' || c == '\n' || c == '\r'
    || c == '\U{000B}' || c == '\U{000C}' || c == '\U{00A0}' || c == '\U{FEFF}'
    || c == '\U{1680}' || ('\U{2000}' <= c <= '\U{200A}')
    || c == '\U{2028}' || c == '\U{2029}' || c == '\U{202F}' || c == '\U{205F}' || c == '\U{3000}'
  }

  predicate IsBlank(s: string) {
    forall i :: 0 <= i < |s| ==> IsJsWhiteSpace(s[i])
  }

  /** Index of the first character `trim` keeps: every character before it is white space. */
  function TrimStartIndex(s: string): (k: nat)
    ensures k <= |s| && IsBlank(s[..k])
    ensures k == |s| || !IsJsWhiteSpace(s[k])
  {
    if s == [] || !IsJsWhiteSpace(s[0]) then 0
    else
      var k := 1 + TrimStartIndex(s[1..]);
      assert forall i :: 1 <= i < k ==> s[..k][i] == s[1..][..k - 1][i - 1];
      k
  }

  /** Index just past the last character `trim` keeps: every character from it on is white space. */
  function TrimEndIndex(s: string): (k: nat)
    ensures k <= |s| && IsBlank(s[k..])
    ensures k == 0 || !IsJsWhiteSpace(s[k - 1])
  {
    if s == [] || !IsJsWhiteSpace(s[|s| - 1]) then |s|
    else
      var k := TrimEndIndex(s[..|s| - 1]);
      assert s[k..] == s[..|s| - 1][k..] + [s[|s| - 1]];
      k
  }

  /** `s.trim()`. */
  function Trim(s: string): string {
    var t := s[TrimStartIndex(s)..];
    t[..TrimEndIndex(t)]
  }

  /** `trim` yields the empty string exactly on blank input. */
  lemma TrimEmptyIffBlank(s: string)
    ensures Trim(s) == [] <==> IsBlank(s)
  {
    var k := TrimStartIndex(s);
    var t := s[k..];
    if Trim(s) == [] {
      assert TrimEndIndex(t) == 0;
      assert t[0..] == t;
      assert s[..k] == s;
    }
  }
}
