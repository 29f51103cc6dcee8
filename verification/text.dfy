/** String helpers with JavaScript semantics: `trim`, `join`, `endsWith`,
    `filter`, and decimal rendering of non-negative integers. */
module Text {

  /** The code points `String.prototype.trim` removes: the ECMAScript
      WhiteSpace set (tab, vertical tab, form feed, space, no-break space,
      byte order mark and every Unicode space separator, the ideographic
      space U+3000 included) and the LineTerminator set. */
  predicate IsWhitespace(c: char) {
    || c == '\t' || c == '\n' || c == '\U{000B}' || c == '\U{000C}' || c == '\r'
    || c == ' ' || c == '\U{00A0}' || c == '\U{1680}'
    || ('\U{2000}' <= c <= '\U{200A}')
    || c == '\U{2028}' || c == '\U{2029}' || c == '\U{202F}' || c == '\U{205F}'
    || c == '\U{3000}' || c == '\U{FEFF}'
  }

  /** `s` holds at least one character that is not whitespace. */
  predicate HasContent(s: string) {
    exists i :: 0 <= i < |s| && !IsWhitespace(s[i])
  }

  /** The index of the first non-whitespace character of `s` from `i` on,
      or `|s|` when there is none. */
  function SkipLeading(s: string, i: nat): (j: nat)
    requires i <= |s|
    ensures i <= j <= |s|
    ensures forall k :: i <= k < j ==> IsWhitespace(s[k])
    ensures j < |s| ==> !IsWhitespace(s[j])
    decreases |s| - i
  {
    if i < |s| && IsWhitespace(s[i]) then SkipLeading(s, i + 1) else i
  }

  /** The end of `s[..j]` once its trailing whitespace, down to index `lo`,
      is removed. */
  function SkipTrailing(s: string, lo: nat, j: nat): (e: nat)
    requires lo <= j <= |s|
    ensures lo <= e <= j
    ensures forall k :: e <= k < j ==> IsWhitespace(s[k])
    ensures e > lo ==> !IsWhitespace(s[e - 1])
    decreases j
  {
    if j > lo && IsWhitespace(s[j - 1]) then SkipTrailing(s, lo, j - 1) else j
  }

  /** The number of leading whitespace characters of `s`. */
  function LeadingWhitespace(s: string): (n: nat)
    ensures n <= |s|
  {
    SkipLeading(s, 0)
  }

  /** `String.prototype.trim`: the slice of `s` left after removing all
      leading and all trailing whitespace. */
  function Trim(s: string): (r: string)
    ensures LeadingWhitespace(s) + |r| <= |s|
    ensures r == s[LeadingWhitespace(s)..LeadingWhitespace(s) + |r|]
    ensures forall k :: 0 <= k < LeadingWhitespace(s) ==> IsWhitespace(s[k])
    ensures forall k :: LeadingWhitespace(s) + |r| <= k < |s| ==> IsWhitespace(s[k])
    ensures |r| > 0 ==> !IsWhitespace(r[0]) && !IsWhitespace(r[|r| - 1])
  {
    var lw := SkipLeading(s, 0);
    s[lw..SkipTrailing(s, lw, |s|)]
  }

  /** Trimming leaves nothing exactly when every character is whitespace. */
  lemma TrimBlankIff(s: string)
    ensures Trim(s) == "" <==> !HasContent(s)
  {
    var r := Trim(s);
    var i := LeadingWhitespace(s);
    if r == "" {
      forall k | 0 <= k < |s| ensures IsWhitespace(s[k]) {
        if k < i { } else { }
      }
    } else {
      assert s[i] == r[0];
    }
  }

  /** The combined length of a list of strings. */
  function TotalLength(parts: seq<string>): nat {
    if |parts| == 0 then 0 else |parts[0]| + TotalLength(parts[1..])
  }

  /** `Array.prototype.join`: the parts in order, `sep` between neighbours. */
  function Join(parts: seq<string>, sep: string): (r: string)
    ensures |parts| == 0 ==> r == ""
    ensures |parts| > 0 ==> |r| == TotalLength(parts) + (|parts| - 1) * |sep|
    ensures |parts| > 0 ==> |parts[0]| <= |r| && r[..|parts[0]|] == parts[0]
  {
    if |parts| == 0 then ""
    else if |parts| == 1 then parts[0]
    else parts[0] + sep + Join(parts[1..], sep)
  }

  /** Joining a concatenation joins each half and puts one separator
      between them. */
  lemma {:induction false} JoinAppend(a: seq<string>, b: seq<string>, sep: string)
    requires |a| > 0 && |b| > 0
    ensures Join(a + b, sep) == Join(a, sep) + sep + Join(b, sep)
  {
    var ab := a + b;
    assert |ab| > 1 && ab[0] == a[0];
    var tail := ab[1..];
    assert Join(ab, sep) == a[0] + sep + Join(tail, sep);
    if |a| == 1 {
      assert tail == b;
      assert Join(a, sep) == a[0];
    } else {
      assert tail == a[1..] + b;
      JoinAppend(a[1..], b, sep);
      assert Join(a, sep) == a[0] + sep + Join(a[1..], sep);
    }
  }

  /** Joining two parts puts the separator between them. */
  lemma JoinTwo(a: string, b: string, sep: string)
    ensures Join([a, b], sep) == a + sep + b
  {
    assert [a, b][1..] == [b];
    assert Join([b], sep) == b;
  }

  /** Joining three parts puts the separator between each neighbouring pair. */
  lemma JoinThree(a: string, b: string, c: string, sep: string)
    ensures Join([a, b, c], sep) == a + sep + b + sep + c
  {
    assert [a, b, c][1..] == [b, c];
    JoinTwo(b, c, sep);
    assert a + sep + (b + sep + c) == a + sep + b + sep + c;
  }

  /** `String.prototype.endsWith`. */
  predicate EndsWith(s: string, suffix: string) {
    |suffix| <= |s| && s[|s| - |suffix|..] == suffix
  }

  /** A string ends with whatever its own ending ends with. */
  lemma EndsWithTrans(a: string, b: string, c: string)
    requires EndsWith(a, b) && EndsWith(b, c)
    ensures EndsWith(a, c)
  {
    assert a[|a| - |c|..] == b[|b| - |c|..];
  }

  /** Appending keeps the ending of the appended part. */
  lemma EndsWithAppend(a: string, b: string, c: string)
    requires EndsWith(b, c)
    ensures EndsWith(a + b, c)
  {
    assert (a + b)[|a + b| - |b|..] == b;
    EndsWithTrans(a + b, b, c);
  }

  /** A joined list ends with its last element. */
  lemma {:induction false} JoinEndsWithLast(parts: seq<string>, sep: string)
    requires |parts| > 0
    ensures EndsWith(Join(parts, sep), parts[|parts| - 1])
  {
    if |parts| > 1 {
      JoinEndsWithLast(parts[1..], sep);
      var j := Join(parts, sep);
      var rest := Join(parts[1..], sep);
      assert j == parts[0] + sep + rest;
      EndsWithTrans(j, rest, parts[|parts| - 1]);
    }
  }

  /** No element occurs twice. */
  predicate NoDuplicates(xs: seq<string>) {
    forall i, j :: 0 <= i < j < |xs| ==> xs[i] != xs[j]
  }

  /** `xs.filter((x) => x !== v)`: the elements other than `v`, in order. */
  function Without(xs: seq<string>, v: string): (r: seq<string>)
    ensures |r| <= |xs|
    ensures forall x :: x in r <==> x in xs && x != v
    ensures NoDuplicates(xs) ==> NoDuplicates(r)
    ensures v !in xs ==> r == xs
  {
    if |xs| == 0 then []
    else
      var rest := Without(xs[1..], v);
      assert NoDuplicates(xs) ==> NoDuplicates(xs[1..]) && xs[0] !in xs[1..];
      if xs[0] == v then rest else [xs[0]] + rest
  }

  /** Filtering a concatenation filters each side and keeps their order, so
      the survivors keep their order and their repetitions. */
  lemma {:induction false} WithoutAppend(a: seq<string>, b: seq<string>, v: string)
    ensures Without(a + b, v) == Without(a, v) + Without(b, v)
  {
    if |a| == 0 {
      assert a + b == b;
    } else {
      assert (a + b)[0] == a[0];
      assert (a + b)[1..] == a[1..] + b;
      WithoutAppend(a[1..], b, v);
    }
  }

  /** A single element survives exactly when it is not `v`. */
  lemma WithoutSingle(x: string, v: string)
    ensures Without([x], v) == if x == v then [] else [x]
  {
  }

  predicate IsDigit(c: char) {
    '0' <= c <= '9'
  }

  predicate AllDigits(s: string) {
    forall i :: 0 <= i < |s| ==> IsDigit(s[i])
  }

  function DigitChar(d: nat): (c: char)
    requires d < 10
    ensures IsDigit(c) && c as int - '0' as int == d
  {
    "0123456789"[d]
  }

  function DigitValue(c: char): nat
    requires IsDigit(c)
  {
    c as int - '0' as int
  }

  /** The number a string of decimal digits denotes (leading zeros allowed). */
  function DecimalValue(s: string): nat
    requires AllDigits(s)
  {
    if |s| == 0 then 0
    else DecimalValue(s[..|s| - 1]) * 10 + DigitValue(s[|s| - 1])
  }

  /** Template-literal rendering of a non-negative integer: shortest decimal
      form, no sign, no padding. */
  function NatToDecimal(n: nat): (s: string)
    ensures |s| >= 1 && AllDigits(s)
    ensures n > 0 ==> s[0] != '0'
    ensures n < 10 <==> |s| == 1
  {
    if n < 10 then [DigitChar(n)]
    else NatToDecimal(n / 10) + [DigitChar(n % 10)]
  }

  /** Reading the rendering back gives the number. */
  lemma {:induction false} DecimalRoundTrip(n: nat)
    ensures DecimalValue(NatToDecimal(n)) == n
  {
    if n >= 10 {
      var s := NatToDecimal(n);
      assert s[..|s| - 1] == NatToDecimal(n / 10);
      DecimalRoundTrip(n / 10);
    }
  }

  /** `s` left-padded with '0' to at least `width` characters (date-fns's
      `addLeadingZeros`). */
  function PadZeros(s: string, width: nat): (r: string)
    ensures |r| == if |s| >= width then |s| else width
    decreases width - |s|
  {
    if |s| >= width then s else PadZeros("0" + s, width)
  }

  /** Padding only prepends zeros: the original string is the tail. */
  lemma {:induction false} PadZerosShape(s: string, width: nat)
    ensures var r := PadZeros(s, width);
            r[|r| - |s|..] == s && forall i :: 0 <= i < |r| - |s| ==> r[i] == '0'
    decreases width - |s|
  {
    if |s| < width {
      PadZerosShape("0" + s, width);
      var r := PadZeros(s, width);
      var k := |r| - |s| - 1;
      assert r[k..] == "0" + s;
      assert r[k + 1..] == r[k..][1..];
    }
  }

  /** A leading zero does not change the value of a digit string. */
  lemma {:induction false} LeadingZeroValue(s: string)
    requires AllDigits(s)
    ensures AllDigits("0" + s) && DecimalValue("0" + s) == DecimalValue(s)
  {
    if |s| > 0 {
      var z := "0" + s;
      assert z[..|z| - 1] == "0" + s[..|s| - 1];
      LeadingZeroValue(s[..|s| - 1]);
    }
  }

  /** Zero-padding preserves the value of a digit string. */
  lemma {:induction false} PadZerosValue(s: string, width: nat)
    requires AllDigits(s)
    ensures AllDigits(PadZeros(s, width))
    ensures DecimalValue(PadZeros(s, width)) == DecimalValue(s)
    decreases width - |s|
  {
    if |s| < width {
      LeadingZeroValue(s);
      PadZerosValue("0" + s, width);
    }
  }

  function Pow10(k: nat): (p: nat)
    ensures p >= 1
  {
    if k == 0 then 1 else 10 * Pow10(k - 1)
  }

  /** A digit string of length k denotes a number below 10^k. */
  lemma {:induction false} DecimalBound(s: string)
    requires AllDigits(s)
    ensures DecimalValue(s) < Pow10(|s|)
  {
    if |s| > 0 {
      DecimalBound(s[..|s| - 1]);
    }
  }

  /** A number below 10^k renders in at most k digits. */
  lemma {:induction false} NatToDecimalLength(n: nat, k: nat)
    requires k >= 1 && n < Pow10(k)
    ensures |NatToDecimal(n)| <= k
  {
    if n >= 10 {
      NatToDecimalLength(n / 10, k - 1);
    }
  }

  /** A number written as tens and a last digit determines both. */
  lemma LastDigitSplit(x: nat, y: nat, c: nat, d: nat)
    requires c < 10 && d < 10 && x * 10 + c == y * 10 + d
    ensures x == y && c == d
  {
  }

  /** Digit strings of equal length and equal value are equal. */
  lemma {:induction false} DecimalInjective(a: string, b: string)
    requires AllDigits(a) && AllDigits(b) && |a| == |b|
    requires DecimalValue(a) == DecimalValue(b)
    ensures a == b
  {
    if |a| > 0 {
      var a', b' := a[..|a| - 1], b[..|b| - 1];
      assert AllDigits(a') && AllDigits(b');
      LastDigitSplit(DecimalValue(a'), DecimalValue(b'), DigitValue(a[|a| - 1]), DigitValue(b[|b| - 1]));
      DecimalInjective(a', b');
      assert a == a' + [a[|a| - 1]] && b == b' + [b[|b| - 1]];
    }
  }

  /** A digit string is the zero-padded rendering of its own value: parsing
      a digit field and rendering it back at the same width restores it. */
  lemma CanonicalDigits(x: string)
    requires |x| >= 1 && AllDigits(x)
    ensures PadZeros(NatToDecimal(DecimalValue(x)), |x|) == x
  {
    var v := DecimalValue(x);
    DecimalBound(x);
    NatToDecimalLength(v, |x|);
    var p := PadZeros(NatToDecimal(v), |x|);
    PadZerosValue(NatToDecimal(v), |x|);
    DecimalRoundTrip(v);
    DecimalInjective(p, x);
  }

  /** Two-digit zero-padded rendering of a number below 100. */
  function Digits2(n: nat): (s: string)
    requires n < 100
    ensures |s| == 2 && AllDigits(s) && DecimalValue(s) == n
  {
    var s := [DigitChar(n / 10), DigitChar(n % 10)];
    assert DecimalValue(s[..1]) == n / 10 by {
      assert s[..1][..0] == [];
    }
    s
  }

  /** The value of a concatenation: the digits of `b` shift `a` left. */
  lemma {:induction false} DecimalConcat(a: string, b: string)
    requires AllDigits(a) && AllDigits(b)
    ensures AllDigits(a + b)
    ensures DecimalValue(a + b) == DecimalValue(a) * Pow10(|b|) + DecimalValue(b)
  {
    var ab := a + b;
    forall i | 0 <= i < |ab| ensures IsDigit(ab[i]) {
      if i < |a| {
        assert ab[i] == a[i];
      } else {
        assert ab[i] == b[i - |a|];
      }
    }
    if |b| > 0 {
      var b' := b[..|b| - 1];
      assert ab[..|ab| - 1] == a + b' && ab[|ab| - 1] == b[|b| - 1];
      DecimalConcat(a, b');
      var va, p, d := DecimalValue(a), Pow10(|b'|), DigitValue(b[|b| - 1]);
      assert DecimalValue(ab) == (va * p + DecimalValue(b')) * 10 + d;
      assert DecimalValue(b) == DecimalValue(b') * 10 + d;
      assert Pow10(|b|) == 10 * p;
      ShiftDigit(va, p, DecimalValue(b'), d);
    } else {
      assert ab == a;
    }
  }

  /** Appending digit `d` to both sides of `va * p + vb`. */
  lemma ShiftDigit(va: int, p: int, vb: int, d: int)
    ensures (va * p + vb) * 10 + d == va * (10 * p) + (vb * 10 + d)
  {
  }

  /** Four-digit zero-padded rendering of a number below 10000. */
  function Digits4(n: nat): (s: string)
    requires n < 10000
    ensures |s| == 4 && AllDigits(s) && DecimalValue(s) == n
  {
    var hi, lo := Digits2(n / 100), Digits2(n % 100);
    DecimalConcat(hi, lo);
    assert Pow10(2) == 100;
    hi + lo
  }

  /** Every two-digit string is the rendering of its value. */
  lemma Digits2Canonical(x: string)
    requires |x| == 2 && AllDigits(x)
    ensures DecimalValue(x) < 100 && Digits2(DecimalValue(x)) == x
  {
    DecimalBound(x);
    assert Pow10(2) == 100;
    DecimalInjective(Digits2(DecimalValue(x)), x);
  }

  /** Every four-digit string is the rendering of its value. */
  lemma Digits4Canonical(x: string)
    requires |x| == 4 && AllDigits(x)
    ensures DecimalValue(x) < 10000 && Digits4(DecimalValue(x)) == x
  {
    DecimalBound(x);
    assert Pow10(4) == 10000;
    DecimalInjective(Digits4(DecimalValue(x)), x);
  }

  /** The fixed-width renderings are zero-padding of the shortest rendering. */
  lemma FixedWidthIsPadding(n: nat)
    ensures n < 100 ==> Digits2(n) == PadZeros(NatToDecimal(n), 2)
    ensures n < 10000 ==> Digits4(n) == PadZeros(NatToDecimal(n), 4)
  {
    if n < 100 {
      CanonicalDigits(Digits2(n));
    }
    if n < 10000 {
      CanonicalDigits(Digits4(n));
    }
  }

  /** A number of five or more digits is left as it is by four-digit padding. */
  lemma NatToDecimalTooLong(n: nat)
    requires n >= 10000
    ensures |NatToDecimal(n)| >= 5 && PadZeros(NatToDecimal(n), 4) == NatToDecimal(n)
  {
    assert n / 10 >= 1000 && n / 10 / 10 >= 100 && n / 10 / 10 / 10 >= 10 && n / 10 / 10 / 10 / 10 >= 1;
    assert NatToDecimal(n) == NatToDecimal(n / 10) + [DigitChar(n % 10)];
    assert NatToDecimal(n / 10) == NatToDecimal(n / 10 / 10) + [DigitChar(n / 10 % 10)];
    assert NatToDecimal(n / 10 / 10) == NatToDecimal(n / 10 / 10 / 10) + [DigitChar(n / 10 / 10 % 10)];
    assert NatToDecimal(n / 10 / 10 / 10) == NatToDecimal(n / 10 / 10 / 10 / 10) + [DigitChar(n / 10 / 10 / 10 % 10)];
  }
}
