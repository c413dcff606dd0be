/**
 * String helpers the Go code takes from its standard library: decimal
 * digits (strconv.Itoa / Atoi / ParseBool), substring search
 * (strings.Index / SplitN / Split) and Go's byte-wise string order.
 */
module Text {
  import opened Wrappers

  /** Lower and upper bounds of Go's `int` on a 64-bit platform. */
  const MinInt64: int := -0x8000_0000_0000_0000
  const MaxInt64: int := 0x7FFF_FFFF_FFFF_FFFF

  predicate InInt64(n: int) {
    MinInt64 <= n <= MaxInt64
  }

  // ---------------------------------------------------------------- digits

  predicate IsDigit(c: char) {
    '0' <= c <= '9'
  }

  predicate AllDigits(s: string) {
    forall i | 0 <= i < |s| :: IsDigit(s[i])
  }

  function DigitVal(c: char): nat
    requires IsDigit(c)
  {
    c as int - '0' as int
  }

  function DigitChar(d: nat): (c: char)
    requires d < 10
    ensures IsDigit(c) && DigitVal(c) == d
  {
    ('0' as int + d) as char
  }

  /** Horner evaluation of a digit string, most significant digit first. */
  function DigitsValueFrom(s: string, acc: nat): nat
    requires AllDigits(s)
  {
    if |s| == 0 then acc else DigitsValueFrom(s[1..], acc * 10 + DigitVal(s[0]))
  }

  function DigitsValue(s: string): nat
    requires AllDigits(s)
  {
    DigitsValueFrom(s, 0)
  }

  function Pow10(k: nat): (p: nat)
    ensures p >= 1
  {
    if k == 0 then 1 else 10 * Pow10(k - 1)
  }

  lemma {:induction false} DigitsValueFromAppend(a: string, b: string, acc: nat)
    requires AllDigits(a) && AllDigits(b)
    ensures AllDigits(a + b)
    ensures DigitsValueFrom(a + b, acc) == DigitsValueFrom(b, DigitsValueFrom(a, acc))
    decreases |a|
  {
    if |a| == 0 {
      assert a + b == b;
    } else {
      assert (a + b)[1..] == a[1..] + b;
      DigitsValueFromAppend(a[1..], b, acc * 10 + DigitVal(a[0]));
    }
  }

  lemma ShiftStep(acc: nat, d: nat, p: nat)
    ensures (acc * 10 + d) * p == acc * (10 * p) + d * p
  {
  }

  /** Starting from `acc`, reading `s` scales `acc` by 10^|s| and adds the value of `s`. */
  lemma {:induction false} DigitsValueFromShift(s: string, acc: nat)
    requires AllDigits(s)
    ensures DigitsValueFrom(s, acc) == acc * Pow10(|s|) + DigitsValue(s)
    decreases |s|
  {
    if |s| > 0 {
      var d := DigitVal(s[0]);
      var p := Pow10(|s| - 1);
      DigitsValueFromShift(s[1..], acc * 10 + d);
      DigitsValueFromShift(s[1..], d);
      assert DigitsValue(s) == DigitsValueFrom(s[1..], d);
      ShiftStep(acc, d, p);
      assert Pow10(|s|) == 10 * p;
    }
  }

  lemma DigitsValueSnoc(a: string, c: char)
    requires AllDigits(a) && IsDigit(c)
    ensures AllDigits(a + [c])
    ensures DigitsValue(a + [c]) == DigitsValue(a) * 10 + DigitVal(c)
  {
    DigitsValueFromAppend(a, [c], 0);
  }

  lemma {:induction false} DigitsValueBound(s: string)
    requires AllDigits(s)
    ensures DigitsValue(s) < Pow10(|s|)
    decreases |s|
  {
    if |s| > 0 {
      var a := s[..|s| - 1];
      assert s == a + [s[|s| - 1]];
      DigitsValueSnoc(a, s[|s| - 1]);
      DigitsValueBound(a);
    }
  }

  /** Decimal digits of `n` without leading zeros ("0" for zero). */
  function NatToString(n: nat): (s: string)
    ensures |s| > 0 && AllDigits(s)
    decreases n
  {
    if n < 10 then [DigitChar(n)] else NatToString(n / 10) + [DigitChar(n % 10)]
  }

  lemma {:induction false} NatToStringValue(n: nat)
    ensures DigitsValue(NatToString(n)) == n
    ensures |NatToString(n)| > 1 ==> NatToString(n)[0] != '0'
    decreases n
  {
    if n < 10 {
      var c := DigitChar(n);
      assert NatToString(n) == [c];
      assert [c][1..] == [];
      assert DigitsValueFrom([c], 0) == DigitsValueFrom([], DigitVal(c));
    } else {
      NatToStringValue(n / 10);
      DigitsValueSnoc(NatToString(n / 10), DigitChar(n % 10));
    }
  }

  /** strconv.Itoa: decimal text of an int, with a leading '-' when negative. */
  function IntToString(n: int): (s: string)
    ensures |s| > 0
  {
    if n < 0 then "-" + NatToString(-n) else NatToString(n)
  }

  /**
   * strconv.Atoi on a 64-bit platform: an optional sign followed by at least
   * one decimal digit, in the range of int64; anything else is an error.
   */
  function Atoi(s: string): (r: Option<int>)
    ensures r.Some? ==> InInt64(r.value)
    ensures r.Some? ==> |s| > 0
  {
    if |s| == 0 then None
    else
      var body := if s[0] == '+' || s[0] == '-' then s[1..] else s;
      if |body| == 0 || !AllDigits(body) then None
      else
        var v: int := if s[0] == '-' then -(DigitsValue(body) as int) else DigitsValue(body);
        if InInt64(v) then Some(v) else None
  }

  // ------------------------------------------------- strconv's digit loop

  const MaxUint64: int := 0xFFFF_FFFF_FFFF_FFFF

  /** How strconv's base-10 loop over the digits ends. */
  datatype Scan = Scanned(value: nat) | SyntaxError | RangeError

  /**
   * ParseUint's loop, continuing from the value `n`: each character is
   * first checked to be a digit (a syntax error otherwise), then the value
   * is checked to stay within 64 bits (a range error otherwise); the
   * characters after the first failure are never looked at.
   */
  function ScanUint(s: string, n: nat): (r: Scan)
    ensures r.Scanned? ==> AllDigits(s) && r.value == DigitsValueFrom(s, n)
    decreases |s|
  {
    if |s| == 0 then Scanned(n)
    else if !IsDigit(s[0]) then SyntaxError
    else if n * 10 + DigitVal(s[0]) > MaxUint64 then RangeError
    else ScanUint(s[1..], n * 10 + DigitVal(s[0]))
  }

  /** The longest prefix of decimal digits. */
  function DigitPrefix(s: string): (p: string)
    ensures |p| <= |s| && p == s[..|p|] && AllDigits(p)
    ensures |p| < |s| ==> !IsDigit(s[|p|])
  {
    if |s| == 0 || !IsDigit(s[0]) then "" else [s[0]] + DigitPrefix(s[1..])
  }

  lemma {:induction false} DigitsValueFromAtLeast(s: string, acc: nat)
    requires AllDigits(s)
    ensures DigitsValueFrom(s, acc) >= acc
    decreases |s|
  {
    if |s| > 0 {
      DigitsValueFromAtLeast(s[1..], acc * 10 + DigitVal(s[0]));
    }
  }

  /** A digit string is worth at least its leading digit in its place. */
  lemma LeadingDigitBound(s: string)
    requires AllDigits(s) && |s| > 0
    ensures DigitsValue(s) >= DigitVal(s[0]) * Pow10(|s| - 1)
  {
    DigitsValueFromShift(s[1..], DigitVal(s[0]));
    assert DigitsValue(s) == DigitsValueFrom(s[1..], DigitVal(s[0]));
  }

  /** Digits in front extend the longest digit prefix. */
  lemma {:induction false} DigitPrefixAppend(d: string, rest: string)
    requires AllDigits(d)
    ensures DigitPrefix(d + rest) == d + DigitPrefix(rest)
    decreases |d|
  {
    if |d| == 0 {
      assert d + rest == rest;
    } else {
      assert (d + rest)[1..] == d[1..] + rest;
      DigitPrefixAppend(d[1..], rest);
    }
  }

  /** Twenty digits led by a 9 are past 64 bits. */
  lemma TwentyDigitsOverflow(s: string)
    requires AllDigits(s) && |s| == 20 && s[0] == '9'
    ensures DigitsValue(s) > MaxUint64
  {
    LeadingDigitBound(s);
    assert Pow10(5) == 100000;
    assert Pow10(10) == 10000000000;
    assert Pow10(15) == 1000000000000000;
    assert Pow10(19) == 10000000000000000000;
  }

  /** The loop stops on a range error exactly when the leading digits exceed 64 bits. */
  lemma {:induction false} ScanRange(s: string, n: nat)
    requires n <= MaxUint64
    ensures ScanUint(s, n) == RangeError <==> DigitsValueFrom(DigitPrefix(s), n) > MaxUint64
    decreases |s|
  {
    if |s| > 0 && IsDigit(s[0]) {
      var m := n * 10 + DigitVal(s[0]);
      var p := DigitPrefix(s);
      assert p[0] == s[0] && p[1..] == DigitPrefix(s[1..]);
      if m > MaxUint64 {
        DigitsValueFromAtLeast(p[1..], m);
      } else {
        ScanRange(s[1..], m);
      }
    }
  }

  /** A digit string is read to its value when that fits in 64 bits, and is a range error otherwise. */
  lemma {:induction false} ScanDigits(s: string, n: nat)
    requires AllDigits(s) && n <= MaxUint64
    ensures ScanUint(s, n) == if DigitsValueFrom(s, n) <= MaxUint64 then Scanned(DigitsValueFrom(s, n)) else RangeError
    decreases |s|
  {
    if |s| > 0 {
      assert IsDigit(s[0]);
      var m := n * 10 + DigitVal(s[0]);
      assert DigitsValueFrom(s, n) == DigitsValueFrom(s[1..], m);
      if m > MaxUint64 {
        DigitsValueFromAtLeast(s[1..], m);
      } else {
        ScanDigits(s[1..], m);
      }
    }
  }

  /** Atoi inverts Itoa on every int64. */
  lemma AtoiOfIntToString(n: int)
    requires InInt64(n)
    ensures Atoi(IntToString(n)) == Some(n)
  {
    var s := IntToString(n);
    if n < 0 {
      NatToStringValue(-n);
      assert s[1..] == NatToString(-n);
    } else {
      NatToStringValue(n);
      assert s[0] != '+' && s[0] != '-' by {
        assert IsDigit(s[0]);
      }
    }
  }

  /** strconv.ParseBool: the twelve spellings Go accepts. */
  function ParseBool(s: string): (r: Option<bool>)
    ensures r == Some(true) <==> s in {"1", "t", "T", "TRUE", "true", "True"}
    ensures r == Some(false) <==> s in {"0", "f", "F", "FALSE", "false", "False"}
  {
    if s in {"1", "t", "T", "TRUE", "true", "True"} then Some(true)
    else if s in {"0", "f", "F", "FALSE", "false", "False"} then Some(false)
    else None
  }

  /** strconv.FormatBool. */
  function FormatBool(b: bool): string {
    if b then "true" else "false"
  }

  // ------------------------------------------------------ substring search

  predicate OccursAt(s: string, sep: string, i: nat) {
    i + |sep| <= |s| && s[i..i + |sep|] == sep
  }

  /** The first position at or after `from` where `sep` occurs in `s`. */
  function IndexFrom(s: string, sep: string, from: nat): (r: Option<nat>)
    requires from <= |s|
    ensures r.Some? ==> from <= r.value && OccursAt(s, sep, r.value)
    ensures r.Some? ==> forall j | from <= j < r.value :: !OccursAt(s, sep, j)
    ensures r.None? ==> forall j | from <= j <= |s| :: !OccursAt(s, sep, j)
    decreases |s| - from
  {
    if OccursAt(s, sep, from) then Some(from)
    else if from == |s| then None
    else IndexFrom(s, sep, from + 1)
  }

  /** strings.Index: the first occurrence of `sep` in `s`, if any. */
  function Index(s: string, sep: string): (r: Option<nat>)
    ensures r.Some? ==> OccursAt(s, sep, r.value)
    ensures r.Some? ==> forall j | 0 <= j < r.value :: !OccursAt(s, sep, j)
    ensures r.None? ==> forall j | 0 <= j <= |s| :: !OccursAt(s, sep, j)
  {
    IndexFrom(s, sep, 0)
  }

  predicate Contains(s: string, sep: string) {
    exists j | 0 <= j <= |s| :: OccursAt(s, sep, j)
  }

  /**
   * strings.SplitN(s, sep, 2): the text before and after the first `sep`,
   * or the single part `s` when `sep` does not occur.
   */
  function SplitFirst(s: string, sep: string): (parts: seq<string>)
    requires |sep| > 0
    ensures 1 <= |parts| <= 2
    ensures |parts| == 2 <==> Contains(s, sep)
    ensures |parts| == 1 ==> parts[0] == s
    ensures |parts| == 2 ==> s == parts[0] + sep + parts[1] && !Contains(parts[0], sep)
  {
    match Index(s, sep)
    case None => [s]
    case Some(i) =>
      var before, after := s[..i], s[i + |sep|..];
      assert s == before + sep + after;
      assert !Contains(before, sep) by {
        forall j | 0 <= j <= |before| ensures !OccursAt(before, sep, j) {
          if OccursAt(before, sep, j) {
            assert s[j..j + |sep|] == before[j..j + |sep|];
            assert OccursAt(s, sep, j);
          }
        }
      }
      [before, after]
  }

  /** strings.Split(s, string(c)): every piece between occurrences of `c`. */
  function SplitOn(s: string, c: char): (parts: seq<string>)
    ensures |parts| >= 1
    ensures |parts| == CountChar(s, c) + 1
    ensures forall i | 0 <= i < |parts| :: c !in parts[i]
    decreases |s|
  {
    if c !in s then CountCharZero(s, c); [s]
    else
      var i := FirstIndexOf(s, c);
      CountCharSplit(s, c, i);
      [s[..i]] + SplitOn(s[i + 1..], c)
  }

  function CountChar(s: string, c: char): nat {
    if |s| == 0 then 0 else (if s[0] == c then 1 else 0) + CountChar(s[1..], c)
  }

  function FirstIndexOf(s: string, c: char): (i: nat)
    requires c in s
    ensures i < |s| && s[i] == c && c !in s[..i]
  {
    if s[0] == c then 0 else 1 + FirstIndexOf(s[1..], c)
  }

  lemma {:induction false} CountCharSplit(s: string, c: char, i: nat)
    requires i < |s| && s[i] == c && c !in s[..i]
    ensures CountChar(s, c) == 1 + CountChar(s[i + 1..], c)
    decreases i
  {
    if i > 0 {
      assert s[1..][..i - 1] == s[1..i];
      CountCharSplit(s[1..], c, i - 1);
      assert s[1..][i..] == s[i + 1..];
    }
  }

  lemma {:induction false} CountCharZero(s: string, c: char)
    requires c !in s
    ensures CountChar(s, c) == 0
    decreases |s|
  {
    if |s| > 0 {
      assert c !in s[1..];
      CountCharZero(s[1..], c);
    }
  }

  // ----------------------------------------------------------- string order

  /** Go's `<` on strings: lexicographic by code point (UTF-8 byte order agrees). */
  predicate Less(a: string, b: string) {
    if |a| == 0 then |b| > 0
    else if |b| == 0 then false
    else if a[0] != b[0] then a[0] < b[0]
    else Less(a[1..], b[1..])
  }

  lemma {:induction false} LessIrreflexive(a: string)
    ensures !Less(a, a)
    decreases |a|
  {
    if |a| > 0 {
      LessIrreflexive(a[1..]);
    }
  }

  lemma {:induction false} LessTransitive(a: string, b: string, c: string)
    requires Less(a, b) && Less(b, c)
    ensures Less(a, c)
    decreases |a|
  {
    if |a| > 0 && |b| > 0 && |c| > 0 && a[0] == b[0] && b[0] == c[0] {
      LessTransitive(a[1..], b[1..], c[1..]);
    }
  }

  lemma {:induction false} LessTotal(a: string, b: string)
    ensures Less(a, b) || a == b || Less(b, a)
    decreases |a|
  {
    if |a| > 0 && |b| > 0 && a[0] == b[0] {
      LessTotal(a[1..], b[1..]);
      if a[1..] == b[1..] {
        assert a == [a[0]] + a[1..] && b == [b[0]] + b[1..];
      }
    }
  }

  lemma LessAsymmetric(a: string, b: string)
    requires Less(a, b)
    ensures !Less(b, a)
  {
    if Less(b, a) {
      LessTransitive(a, b, a);
      LessIrreflexive(a);
    }
  }
}
