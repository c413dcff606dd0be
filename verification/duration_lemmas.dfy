/**
 * Properties of the duration parser and printer: Parse inverts Format on
 * every int64 duration, and the spellings the rule files use ("2m",
 * "2m0s", "1h30m", "0s", ...) denote the magnitudes one expects.
 */
module DurationLemmas {
  import opened Wrappers
  import opened Text
  import opened Duration

  // ------------------------------------------------------------ arithmetic

  lemma MulMonotone(m: nat, a: nat, b: nat)
    ensures a <= b ==> m * a <= m * b
  {
    if a <= b {
      var d := b - a;
      assert m * b == m * a + m * d;
    }
  }

  lemma MulRotate(a: nat, b: nat, c: nat)
    ensures a * (b * c) == b * (a * c) && (a * b) * c == a * (b * c)
  {
  }

  lemma DivModUnique(x: nat, m: nat, a: nat, y: nat)
    requires m > 0 && x == m * a + y && y < m
    ensures x / m == a && x % m == y
  {
    var q, r := x / m, x % m;
    assert x == m * q + r && r < m;
    MulMonotone(m, a + 1, q);
    MulMonotone(m, q + 1, a);
    assert m * (a + 1) == m * a + m;
    assert m * (q + 1) == m * q + m;
  }

  lemma CancelScale(f: nat, scale: nat, q: nat, r: nat)
    requires scale >= 1 && f * q == r
    ensures f * (scale * q) / scale == r
  {
    MulRotate(f, scale, q);
    DivModUnique(f * (scale * q), scale, r, 0);
  }

  /** The fraction tv/10^|t| of a unit P = 10^|t| * q, when tv * q == r. */
  lemma ScaledFraction(tv: nat, pt: nat, q: nat, P: nat, r: nat)
    requires pt >= 1 && P == pt * q && tv * q == r
    ensures Scaled(0, tv, pt, P) == r
  {
    if tv > 0 {
      CancelScale(tv, pt, q, r);
    } else {
      assert r == 0;
    }
  }

  lemma ScaledWhole(v: nat, f: nat, scale: nat, unit: nat)
    requires scale >= 1
    ensures Scaled(v, f, scale, unit) == v * unit + Scaled(0, f, scale, unit)
  {
  }

  lemma DivBound(v: nat, unit: nat, limit: nat)
    requires unit >= 1 && v * unit <= limit
    ensures v <= limit / unit
  {
    var q, r := limit / unit, limit % unit;
    assert limit == unit * q + r && r < unit;
    MulMonotone(unit, q + 1, v);
    assert unit * (q + 1) == unit * q + unit;
    assert unit * v == v * unit;
  }

  lemma {:induction false} Pow10Add(a: nat, b: nat)
    ensures Pow10(a + b) == Pow10(a) * Pow10(b)
    decreases a
  {
    if a > 0 {
      Pow10Add(a - 1, b);
    }
  }

  lemma {:induction false} Pow10Monotone(a: nat, b: nat)
    requires a <= b
    ensures Pow10(a) <= Pow10(b)
    decreases b
  {
    if a < b {
      Pow10Monotone(a, b - 1);
    }
  }

  lemma Pow10Units()
    ensures Pow10(3) == Microsecond && Pow10(6) == Millisecond && Pow10(9) == Second
  {
    assert Pow10(3) == 1000;
    assert Pow10(6) == 1000 * Pow10(3) by {
      Pow10Add(3, 3);
    }
    assert Pow10(9) == 1000 * Pow10(6) by {
      Pow10Add(3, 6);
    }
  }

  // -------------------------------------------------------- scanning runs

  lemma {:induction false} DigitRunOf(d: string, x: string)
    requires AllDigits(d)
    requires |x| == 0 || !IsDigit(x[0])
    ensures DigitRun(d + x) == |d|
    decreases |d|
  {
    if |d| == 0 {
      assert d + x == x;
    } else {
      assert (d + x)[1..] == d[1..] + x;
      DigitRunOf(d[1..], x);
    }
  }

  predicate AllUnitChars(u: string) {
    forall i | 0 <= i < |u| :: IsUnitChar(u[i])
  }

  lemma {:induction false} UnitRunOf(u: string, x: string)
    requires AllUnitChars(u)
    requires |x| == 0 || !IsUnitChar(x[0])
    ensures UnitRun(u + x) == |u|
    decreases |u|
  {
    if |u| == 0 {
      assert u + x == x;
    } else {
      assert (u + x)[1..] == u[1..] + x;
      UnitRunOf(u[1..], x);
    }
  }

  lemma {:induction false} DigitsValueFromAtLeast(s: string, acc: nat)
    requires AllDigits(s)
    ensures DigitsValueFrom(s, acc) >= acc
    decreases |s|
  {
    if |s| > 0 {
      DigitsValueFromAtLeast(s[1..], acc * 10 + DigitVal(s[0]));
    }
  }

  lemma {:induction false} LeadingFractionExact(d: string, x: nat, scale: nat)
    requires AllDigits(d) && scale >= 1
    requires DigitsValueFrom(d, x) <= (Limit - 1) / 10
    ensures LeadingFraction(d, x, scale, false) == (DigitsValueFrom(d, x), scale * Pow10(|d|))
    decreases |d|
  {
    if |d| > 0 {
      var y := x * 10 + DigitVal(d[0]);
      assert DigitsValueFrom(d, x) == DigitsValueFrom(d[1..], y);
      DigitsValueFromAtLeast(d[1..], y);
      LeadingFractionExact(d[1..], y, scale * 10);
      assert (scale * 10) * Pow10(|d| - 1) == scale * Pow10(|d|);
    }
  }

  // ------------------------------------------------------ one component

  /** The text of a fraction: empty, or '.' followed by its digits. */
  function Dotted(t: string): string {
    if |t| == 0 then "" else "." + t
  }

  /** A component within the limit passes the parser's per-unit overflow check. */
  lemma ScaledBound(v: nat, f: nat, scale: nat, unit: nat)
    requires scale >= 1 && unit >= 1 && Scaled(v, f, scale, unit) <= Limit
    ensures v <= Limit && v <= Limit / unit
  {
    assert v * unit <= Scaled(v, f, scale, unit);
    DivBound(v, unit, Limit);
  }

  /** The whole-number digits `d` in front of `x`. */
  lemma ScanWhole(d: string, x: string)
    requires AllDigits(d) && |d| > 0
    requires |x| > 0 && !IsDigit(x[0])
    ensures DigitRun(d + x) == |d| && (d + x)[..|d|] == d && (d + x)[|d|..] == x
  {
    DigitRunOf(d, x);
    assert (d + x)[..|d|] == d;
    assert (d + x)[|d|..] == x;
  }

  /** The optional '.' and fraction digits `t` in front of the unit text `y`. */
  lemma ScanFraction(t: string, y: string)
    requires AllDigits(t)
    requires |y| > 0 && IsUnitChar(y[0])
    ensures var x := Dotted(t) + y;
      var hasDot := |x| > 0 && x[0] == '.';
      var afterDot := if hasDot then x[1..] else x;
      var m := if hasDot then DigitRun(afterDot) else 0;
      && |x| > 0 && !IsDigit(x[0])
      && hasDot == (|t| > 0)
      && m == |t| && afterDot[..m] == t && afterDot[m..] == y
  {
    var x := Dotted(t) + y;
    if |t| == 0 {
      assert x == y;
      assert x[..0] == "" && x[0..] == x;
    } else {
      var after := t + y;
      assert x == ['.'] + after;
      assert x[1..] == after;
      DigitRunOf(t, y);
      assert after[..|t|] == t;
      assert after[|t|..] == y;
    }
  }

  /** The unit name `u` in front of `rest`. */
  lemma ScanUnit(u: string, rest: string)
    requires |u| > 0 && AllUnitChars(u)
    requires |rest| == 0 || !IsUnitChar(rest[0])
    ensures UnitRun(u + rest) == |u| && (u + rest)[..|u|] == u && (u + rest)[|u|..] == rest
    ensures IsUnitChar((u + rest)[0])
  {
    UnitRunOf(u, rest);
    assert (u + rest)[..|u|] == u;
    assert (u + rest)[|u|..] == rest;
    assert (u + rest)[0] == u[0];
  }

  /** Where NextComponent cuts a component written as `d` + Dotted(`t`) + `u` + `rest`. */
  lemma ComponentCuts(d: string, t: string, u: string, rest: string)
    requires AllDigits(d) && |d| > 0 && AllDigits(t)
    requires |u| > 0 && AllUnitChars(u)
    requires |rest| == 0 || !IsUnitChar(rest[0])
    ensures var s := d + (Dotted(t) + (u + rest));
      var n := DigitRun(s);
      var x := s[n..];
      var hasDot := |x| > 0 && x[0] == '.';
      var afterDot := if hasDot then x[1..] else x;
      var m := if hasDot then DigitRun(afterDot) else 0;
      var y := afterDot[m..];
      && IsDigit(s[0]) && n == |d| && s[..n] == d
      && m == |t| && afterDot[..m] == t && y == u + rest
  {
    var y := u + rest;
    var x := Dotted(t) + y;
    ScanUnit(u, rest);
    ScanFraction(t, y);
    ScanWhole(d, x);
  }

  /** A component written as digits, optional fraction digits and a unit name is read as those three parts. */
  lemma NextComponentOf(d: string, t: string, u: string, unit: nat, rest: string)
    requires AllDigits(d) && |d| > 0 && AllDigits(t)
    requires UnitValue(u) == Some(unit) && |u| > 0 && AllUnitChars(u)
    requires |rest| == 0 || !IsUnitChar(rest[0])
    ensures NextComponent(d + (Dotted(t) + (u + rest))) == Some((Component(d, t, unit), rest))
  {
    ComponentCuts(d, t, u, rest);
    ScanUnit(u, rest);
  }

  /** The nanoseconds of a component with a small fraction, computed exactly. */
  lemma NanosOf(d: string, t: string, unit: nat)
    requires AllDigits(d) && AllDigits(t) && unit >= 1
    requires DigitsValue(t) <= (Limit - 1) / 10
    requires Scaled(DigitsValue(d), DigitsValue(t), Pow10(|t|), unit) <= Limit
    ensures Nanos(Component(d, t, unit)) == Some(Scaled(DigitsValue(d), DigitsValue(t), Pow10(|t|), unit))
  {
    ScaledBound(DigitsValue(d), DigitsValue(t), Pow10(|t|), unit);
    LeadingFractionExact(t, 0, 1);
    assert LeadingFraction(t, 0, 1, false) == (DigitsValue(t), Pow10(|t|)) by {
      assert DigitsValueFrom(t, 0) == DigitsValue(t);
      assert 1 * Pow10(|t|) == Pow10(|t|);
    }
  }

  /** Reading the component list one component at a time. */
  lemma ComponentsStep(s: string, c: Component, rest: string, cs: seq<Component>)
    requires |s| > 0 && NextComponent(s) == Some((c, rest)) && Components(rest) == Some(cs)
    ensures Components(s) == Some([c] + cs)
  {
  }

  /** Summing the component list one component at a time. */
  lemma TotalStep(cs: seq<Component>, acc: nat, w: nat)
    requires |cs| > 0 && acc + w <= Limit
    requires forall i | 0 <= i < |cs| :: WellFormed(cs[i])
    requires Nanos(cs[0]) == Some(w)
    ensures Total(cs, acc) == Total(cs[1..], acc + w)
  {
  }

  /** Summing a list that starts with a known component. */
  lemma TotalCons(c: Component, rest: seq<Component>, acc: nat, w: nat)
    requires WellFormed(c) && Nanos(c) == Some(w) && acc + w <= Limit
    requires forall i | 0 <= i < |rest| :: WellFormed(rest[i])
    ensures Total([c] + rest, acc) == Total(rest, acc + w)
  {
    TotalStep([c] + rest, acc, w);
    assert ([c] + rest)[1..] == rest;
  }

  // ------------------------------------------------------- printed digits

  /** The low digits of v/10, followed by the last digit of v, are the low digits of v. */
  lemma ModStep(v: nat, p: nat)
    requires p >= 1
    ensures ((v / 10) % p) * 10 + v % 10 == v % (10 * p)
  {
    var a, b, r0 := (v / 10) / p, (v / 10) % p, v % 10;
    var m := 10 * p;
    assert v / 10 == p * a + b;
    assert v == 10 * (p * a + b) + r0;
    assert v == m * a + (10 * b + r0) by {
      MulRotate(10, p, a);
    }
    DivModUnique(v, m, a, 10 * b + r0);
  }

  lemma {:induction false} FixedDigitsValue(v: nat, k: nat)
    ensures DigitsValue(FixedDigits(v, k)) == v % Pow10(k)
    decreases k
  {
    if k > 0 {
      FixedDigitsValue(v / 10, k - 1);
      DigitsValueSnoc(FixedDigits(v / 10, k - 1), DigitChar(v % 10));
      ModStep(v, Pow10(k - 1));
    }
  }

  lemma {:induction false} TrimZerosValue(s: string)
    requires AllDigits(s)
    ensures AllDigits(TrimZeros(s))
    ensures DigitsValue(s) == DigitsValue(TrimZeros(s)) * Pow10(|s| - |TrimZeros(s)|)
    decreases |s|
  {
    if |s| > 0 && s[|s| - 1] == '0' {
      var a := s[..|s| - 1];
      assert s == a + ['0'];
      DigitsValueSnoc(a, '0');
      TrimZerosValue(a);
    }
  }

  lemma LastDigitPositive(t: string)
    requires AllDigits(t) && |t| > 0 && t[|t| - 1] != '0'
    ensures DigitsValue(t) > 0
  {
    var a := t[..|t| - 1];
    assert t == a + [t[|t| - 1]];
    DigitsValueSnoc(a, t[|t| - 1]);
  }

  /** The printed fraction digits, with trailing zeros dropped, still denote `r`. */
  lemma TrimmedDigits(r: nat, prec: nat)
    requires r < Pow10(prec)
    ensures var t := TrimZeros(FixedDigits(r, prec));
      && AllDigits(t) && |t| <= prec
      && DigitsValue(t) * Pow10(prec - |t|) == r
  {
    var f := FixedDigits(r, prec);
    FixedDigitsValue(r, prec);
    DivModUnique(r, Pow10(prec), 0, r);
    TrimZerosValue(f);
    assert |f| == prec;
  }

  /** At most nine digits stay below the parser's overflow guard. */
  lemma NineDigits(t: string)
    requires AllDigits(t) && |t| <= 9
    ensures DigitsValue(t) <= (Limit - 1) / 10
  {
    DigitsValueBound(t);
    Pow10Monotone(|t|, 9);
    Pow10Units();
  }

  /** The fraction Go prints for `r` is '.' and the trimmed digits, or nothing. */
  lemma FracTextShape(r: nat, prec: nat)
    requires r < Pow10(prec) && prec <= 9
    ensures var t := TrimZeros(FixedDigits(r, prec));
      && AllDigits(t) && |t| <= prec
      && FracText(r, prec) == Dotted(t)
      && DigitsValue(t) <= (Limit - 1) / 10
  {
    TrimmedDigits(r, prec);
    NineDigits(TrimZeros(FixedDigits(r, prec)));
  }

  /** The fraction Go prints for `r` reads back, in units of 10^prec, as `r` itself. */
  lemma FracTextValue(r: nat, prec: nat)
    requires r < Pow10(prec)
    ensures var t := TrimZeros(FixedDigits(r, prec));
      && AllDigits(t)
      && Scaled(0, DigitsValue(t), Pow10(|t|), Pow10(prec)) == r
  {
    TrimmedDigits(r, prec);
    var t := TrimZeros(FixedDigits(r, prec));
    var q := Pow10(prec - |t|);
    Pow10Add(|t|, prec - |t|);
    assert |t| + (prec - |t|) == prec;
    ScaledFraction(DigitsValue(t), Pow10(|t|), q, Pow10(prec), r);
  }

  // ------------------------------------------------------------ round trip

  /** Every suffix Go prints is a valid unit name of the parser. */
  lemma UnitNames()
    ensures UnitValue("ns") == Some(1) && AllUnitChars("ns")
    ensures UnitValue(MicroSuffix) == Some(Microsecond) && AllUnitChars(MicroSuffix)
    ensures UnitValue("ms") == Some(Millisecond) && AllUnitChars("ms")
    ensures UnitValue("s") == Some(Second) && AllUnitChars("s")
    ensures UnitValue("m") == Some(Minute) && AllUnitChars("m")
    ensures UnitValue("h") == Some(Hour) && AllUnitChars("h")
  {
  }

  /** The component Go prints for `n` whole units. */
  function Whole(n: nat, unit: nat): Component {
    Component(NatToString(n), "", unit)
  }

  /** The component Go prints for `n` units and `r` in units of 10^-prec. */
  function Fractional(n: nat, r: nat, prec: nat, unit: nat): Component {
    Component(NatToString(n), TrimZeros(FixedDigits(r, prec)), unit)
  }

  lemma WholeText(n: nat, u: string, unit: nat, rest: string)
    requires UnitValue(u) == Some(unit) && |u| > 0 && AllUnitChars(u)
    requires |rest| == 0 || !IsUnitChar(rest[0])
    ensures NextComponent(NatToString(n) + u + rest) == Some((Whole(n, unit), rest))
  {
    NatToStringValue(n);
    assert Dotted("") + (u + rest) == u + rest;
    assert NatToString(n) + u + rest == NatToString(n) + (u + rest);
    NextComponentOf(NatToString(n), "", u, unit, rest);
  }

  /** A whole component in front of a readable text. */
  lemma WholeThen(n: nat, u: string, unit: nat, rest: string, cs: seq<Component>)
    requires UnitValue(u) == Some(unit) && |u| > 0 && AllUnitChars(u)
    requires |rest| > 0 && IsDigit(rest[0])
    requires Components(rest) == Some(cs)
    ensures Components(NatToString(n) + u + rest) == Some([Whole(n, unit)] + cs)
  {
    WholeText(n, u, unit, rest);
    ComponentsStep(NatToString(n) + u + rest, Whole(n, unit), rest, cs);
  }

  lemma WholeNanos(n: nat, unit: nat)
    requires unit >= 1 && n * unit <= Limit
    ensures WellFormed(Whole(n, unit)) && Nanos(Whole(n, unit)) == Some(n * unit)
  {
    NatToStringValue(n);
    assert DigitsValue("") == 0 && Pow10(0) == 1;
    assert Scaled(n, 0, 1, unit) == n * unit;
    NanosOf(NatToString(n), "", unit);
  }

  lemma FractionalNanos(n: nat, r: nat, prec: nat, unit: nat)
    requires prec <= 9 && r < Pow10(prec) && unit == Pow10(prec)
    requires n * unit + r <= Limit
    ensures WellFormed(Fractional(n, r, prec, unit)) && Nanos(Fractional(n, r, prec, unit)) == Some(n * unit + r)
  {
    FracTextShape(r, prec);
    FracTextValue(r, prec);
    var t := TrimZeros(FixedDigits(r, prec));
    NatToStringValue(n);
    var tv, pt := DigitsValue(t), Pow10(|t|);
    ScaledWhole(n, tv, pt, unit);
    NanosOf(NatToString(n), t, unit);
    assert Fractional(n, r, prec, unit) == Component(NatToString(n), t, unit);
    assert Scaled(DigitsValue(NatToString(n)), tv, pt, unit) == n * unit + r;
  }

  lemma FractionalText(n: nat, r: nat, prec: nat, u: string, unit: nat, rest: string)
    requires prec <= 9 && r < Pow10(prec) && unit == Pow10(prec)
    requires UnitValue(u) == Some(unit) && |u| > 0 && AllUnitChars(u)
    requires |rest| == 0 || !IsUnitChar(rest[0])
    ensures NextComponent(NatToString(n) + FracText(r, prec) + u + rest) == Some((Fractional(n, r, prec, unit), rest))
  {
    FracTextShape(r, prec);
    var t := TrimZeros(FixedDigits(r, prec));
    NextComponentOf(NatToString(n), t, u, unit, rest);
    Associate(NatToString(n), FracText(r, prec), u, rest);
  }

  /** A fractional component alone reads as that one component. */
  lemma FractionalComponents(n: nat, r: nat, prec: nat, u: string, unit: nat)
    requires prec <= 9 && r < Pow10(prec) && unit == Pow10(prec)
    requires UnitValue(u) == Some(unit) && |u| > 0 && AllUnitChars(u)
    ensures Components(NatToString(n) + FracText(r, prec) + u) == Some([Fractional(n, r, prec, unit)])
  {
    var s := NatToString(n) + FracText(r, prec) + u;
    var c := Fractional(n, r, prec, unit);
    FractionalText(n, r, prec, u, unit, "");
    assert s + "" == s;
    assert Components("") == Some([]);
    ComponentsStep(s, c, "", []);
    assert [c] + [] == [c];
  }

  /** A component alone sums to its nanoseconds. */
  lemma TotalOne(c: Component, acc: nat, w: nat)
    requires WellFormed(c) && Nanos(c) == Some(w) && acc + w <= Limit
    ensures Total([c], acc) == Some(acc + w)
  {
    TotalCons(c, [], acc, w);
    assert [c] + [] == [c];
  }

  lemma Associate(a: string, b: string, c: string, d: string)
    ensures a + b + c + d == a + (b + (c + d))
  {
  }

  lemma StartsWithDigit(n: nat, x: string)
    ensures var s := NatToString(n) + x; |s| > 0 && IsDigit(s[0]) && !IsUnitChar(s[0])
  {
    assert (NatToString(n) + x)[0] == NatToString(n)[0];
  }

  lemma StartsWithDigit2(n: nat, a: string, b: string)
    ensures var s := NatToString(n) + a + b; |s| > 0 && IsDigit(s[0])
  {
    assert (NatToString(n) + a + b)[0] == NatToString(n)[0];
  }

  /** The components Go prints for a magnitude `u`, in order. */
  function Printed(u: nat): seq<Component> {
    if u == 0 then [Whole(0, Second)]
    else if u < Microsecond then [Whole(u, 1)]
    else if u < Millisecond then [Fractional(u / Microsecond, u % Microsecond, 3, Microsecond)]
    else if u < Second then [Fractional(u / Millisecond, u % Millisecond, 6, Millisecond)]
    else
      var secs := u / Second;
      var mins := secs / 60;
      var hours := mins / 60;
      var sec := [Fractional(secs % 60, u % Second, 9, Second)];
      if mins == 0 then sec
      else if hours == 0 then [Whole(mins % 60, Minute)] + sec
      else [Whole(hours, Hour), Whole(mins % 60, Minute)] + sec
  }

  /** A whole component alone reads as that one component. */
  lemma WholeComponents(n: nat, u: string, unit: nat)
    requires UnitValue(u) == Some(unit) && |u| > 0 && AllUnitChars(u)
    ensures Components(NatToString(n) + u) == Some([Whole(n, unit)])
  {
    var s := NatToString(n) + u;
    WholeText(n, u, unit, "");
    assert s + "" == s;
    assert Components("") == Some([]);
    ComponentsStep(s, Whole(n, unit), "", []);
    assert [Whole(n, unit)] + [] == [Whole(n, unit)];
  }

  /** A whole component alone sums to its nanoseconds. */
  lemma WholeTotal(n: nat, unit: nat, acc: nat)
    requires unit >= 1 && acc + n * unit <= Limit
    ensures Total([Whole(n, unit)], acc) == Some(acc + n * unit)
  {
    WholeNanos(n, unit);
    TotalOne(Whole(n, unit), acc, n * unit);
  }

  lemma ZeroMagnitude()
    ensures Components(FormatMagnitude(0)) == Some(Printed(0))
    ensures Total(Printed(0), 0) == Some(0)
  {
    UnitNames();
    assert FormatMagnitude(0) == NatToString(0) + "s";
    WholeComponents(0, "s", Second);
    WholeTotal(0, Second, 0);
  }

  lemma NanosMagnitude(u: nat)
    requires 0 < u < Microsecond
    ensures Components(FormatMagnitude(u)) == Some(Printed(u))
    ensures Total(Printed(u), 0) == Some(u)
  {
    UnitNames();
    WholeComponents(u, "ns", 1);
    WholeTotal(u, 1, 0);
  }

  lemma FractionalMagnitudeComponents(u: nat)
    requires Microsecond <= u < Second
    ensures Components(FormatMagnitude(u)) == Some(Printed(u))
  {
    UnitNames();
    Pow10Units();
    if u < Millisecond {
      var n, r := u / Microsecond, u % Microsecond;
      assert FormatMagnitude(u) == NatToString(n) + FracText(r, 3) + MicroSuffix;
      FractionalComponents(n, r, 3, MicroSuffix, Microsecond);
    } else {
      var n, r := u / Millisecond, u % Millisecond;
      assert FormatMagnitude(u) == NatToString(n) + FracText(r, 6) + "ms";
      FractionalComponents(n, r, 6, "ms", Millisecond);
    }
  }

  lemma FractionalMagnitudeTotal(u: nat)
    requires Microsecond <= u < Second
    ensures Total(Printed(u), 0) == Some(u)
  {
    Pow10Units();
    if u < Millisecond {
      FractionalNanos(u / Microsecond, u % Microsecond, 3, Microsecond);
      TotalOne(Fractional(u / Microsecond, u % Microsecond, 3, Microsecond), 0, u);
    } else {
      FractionalNanos(u / Millisecond, u % Millisecond, 6, Millisecond);
      TotalOne(Fractional(u / Millisecond, u % Millisecond, 6, Millisecond), 0, u);
    }
  }

  /** u split into whole hours, minutes within the hour, and the rest. */
  lemma DecomposeLarge(u: nat)
    ensures var secs := u / Second; var mins := secs / 60;
      && u == mins * Minute + ((secs % 60) * Second + u % Second)
      && mins * Minute == (mins / 60) * Hour + (mins % 60) * Minute
  {
    var secs := u / Second;
    var mins := secs / 60;
    var hours := mins / 60;
    assert u == secs * Second + u % Second;
    assert secs == mins * 60 + secs % 60;
    assert mins == hours * 60 + mins % 60;
    assert secs * Second == mins * Minute + (secs % 60) * Second;
    assert mins * Minute == hours * Hour + (mins % 60) * Minute;
  }

  /** The seconds component Go prints for `n` seconds and `r` nanoseconds. */
  function SecText(n: nat, r: nat): string {
    NatToString(n) + FracText(r, 9) + "s"
  }

  function SecComp(n: nat, r: nat): Component {
    Fractional(n, r, 9, Second)
  }

  lemma SecondsComponents(n: nat, r: nat)
    requires r < Second
    ensures Components(SecText(n, r)) == Some([SecComp(n, r)])
    ensures IsDigit(SecText(n, r)[0])
  {
    UnitNames();
    Pow10Units();
    FractionalComponents(n, r, 9, "s", Second);
    StartsWithDigit2(n, FracText(r, 9), "s");
  }

  lemma MinutesComponents(m: nat, n: nat, r: nat)
    requires r < Second
    ensures Components(NatToString(m) + "m" + SecText(n, r)) == Some([Whole(m, Minute), SecComp(n, r)])
  {
    UnitNames();
    SecondsComponents(n, r);
    WholeThen(m, "m", Minute, SecText(n, r), [SecComp(n, r)]);
    assert [Whole(m, Minute)] + [SecComp(n, r)] == [Whole(m, Minute), SecComp(n, r)];
  }

  lemma HoursComponents(h: nat, m: nat, n: nat, r: nat)
    requires r < Second
    ensures var rest := NatToString(m) + "m" + SecText(n, r);
      Components(NatToString(h) + "h" + rest) == Some([Whole(h, Hour), Whole(m, Minute), SecComp(n, r)])
  {
    UnitNames();
    var rest := NatToString(m) + "m" + SecText(n, r);
    var cs := [Whole(m, Minute), SecComp(n, r)];
    MinutesComponents(m, n, r);
    StartsWithDigit2(m, "m", SecText(n, r));
    WholeThen(h, "h", Hour, rest, cs);
    assert [Whole(h, Hour)] + cs == [Whole(h, Hour), Whole(m, Minute), SecComp(n, r)];
  }

  lemma MinutesTotal(m: nat, n: nat, r: nat, acc: nat)
    requires r < Second && acc + m * Minute + n * Second + r <= Limit
    ensures Total([Whole(m, Minute), SecComp(n, r)], acc) == Some(acc + m * Minute + n * Second + r)
  {
    Pow10Units();
    var cm, cs := Whole(m, Minute), SecComp(n, r);
    WholeNanos(m, Minute);
    FractionalNanos(n, r, 9, Second);
    TotalOne(cs, acc + m * Minute, n * Second + r);
    TotalCons(cm, [cs], acc, m * Minute);
    assert [cm] + [cs] == [cm, cs];
  }

  lemma HoursTotal(h: nat, m: nat, n: nat, r: nat)
    requires r < Second && h * Hour + m * Minute + n * Second + r <= Limit
    ensures Total([Whole(h, Hour), Whole(m, Minute), SecComp(n, r)], 0) == Some(h * Hour + m * Minute + n * Second + r)
  {
    Pow10Units();
    var ch, cm, cs := Whole(h, Hour), Whole(m, Minute), SecComp(n, r);
    WholeNanos(h, Hour);
    WholeNanos(m, Minute);
    FractionalNanos(n, r, 9, Second);
    MinutesTotal(m, n, r, h * Hour);
    TotalCons(ch, [cm, cs], 0, h * Hour);
    assert [ch] + [cm, cs] == [ch, cm, cs];
  }

  lemma SecondsMagnitude(u: nat)
    requires Second <= u <= Limit && u / Second / 60 == 0
    ensures Components(FormatMagnitude(u)) == Some(Printed(u))
  {
    var n, r := u / Second % 60, u % Second;
    assert FormatMagnitude(u) == SecText(n, r);
    assert Printed(u) == [SecComp(n, r)];
    SecondsComponents(n, r);
  }

  lemma MinutesMagnitude(u: nat)
    requires Second <= u <= Limit && u / Second / 60 > 0 && u / Second / 60 / 60 == 0
    ensures Components(FormatMagnitude(u)) == Some(Printed(u))
  {
    var n, r := u / Second % 60, u % Second;
    var m := u / Second / 60 % 60;
    assert FormatMagnitude(u) == NatToString(m) + "m" + SecText(n, r);
    assert Printed(u) == [Whole(m, Minute), SecComp(n, r)];
    MinutesComponents(m, n, r);
  }

  lemma HoursMagnitude(u: nat)
    requires Second <= u <= Limit && u / Second / 60 / 60 > 0
    ensures Components(FormatMagnitude(u)) == Some(Printed(u))
  {
    var n, r := u / Second % 60, u % Second;
    var m := u / Second / 60 % 60;
    var h := u / Second / 60 / 60;
    assert FormatMagnitude(u) == NatToString(h) + "h" + (NatToString(m) + "m" + SecText(n, r));
    assert Printed(u) == [Whole(h, Hour), Whole(m, Minute), SecComp(n, r)];
    HoursComponents(h, m, n, r);
  }

  lemma LargeMagnitudeComponents(u: nat)
    requires Second <= u <= Limit
    ensures Components(FormatMagnitude(u)) == Some(Printed(u))
  {
    if u / Second / 60 == 0 {
      SecondsMagnitude(u);
    } else if u / Second / 60 / 60 == 0 {
      MinutesMagnitude(u);
    } else {
      HoursMagnitude(u);
    }
  }

  lemma SecondsMagnitudeTotal(u: nat)
    requires Second <= u <= Limit && u / Second / 60 == 0
    ensures Total(Printed(u), 0) == Some(u)
  {
    var n, r := u / Second % 60, u % Second;
    DecomposeLarge(u);
    assert Printed(u) == [SecComp(n, r)];
    Pow10Units();
    FractionalNanos(n, r, 9, Second);
    TotalOne(SecComp(n, r), 0, u);
  }

  lemma MinutesMagnitudeTotal(u: nat)
    requires Second <= u <= Limit && u / Second / 60 > 0 && u / Second / 60 / 60 == 0
    ensures Total(Printed(u), 0) == Some(u)
  {
    var n, r := u / Second % 60, u % Second;
    var m := u / Second / 60 % 60;
    DecomposeLarge(u);
    assert Printed(u) == [Whole(m, Minute), SecComp(n, r)];
    MinutesTotal(m, n, r, 0);
  }

  lemma HoursMagnitudeTotal(u: nat)
    requires Second <= u <= Limit && u / Second / 60 / 60 > 0
    ensures Total(Printed(u), 0) == Some(u)
  {
    var n, r := u / Second % 60, u % Second;
    var m := u / Second / 60 % 60;
    var h := u / Second / 60 / 60;
    DecomposeLarge(u);
    assert Printed(u) == [Whole(h, Hour), Whole(m, Minute), SecComp(n, r)];
    HoursTotal(h, m, n, r);
  }

  lemma LargeMagnitudeTotal(u: nat)
    requires Second <= u <= Limit
    ensures Total(Printed(u), 0) == Some(u)
  {
    if u / Second / 60 == 0 {
      SecondsMagnitudeTotal(u);
    } else if u / Second / 60 / 60 == 0 {
      MinutesMagnitudeTotal(u);
    } else {
      HoursMagnitudeTotal(u);
    }
  }


  /** A text that reads as at least one component is neither empty, nor "0", nor signed. */
  lemma ComponentsShape(s: string, cs: seq<Component>)
    requires Components(s) == Some(cs) && |cs| > 0
    ensures s != "" && s != "0" && (s[0] == '.' || IsDigit(s[0]))
  {
    assert Components("0") == None by {
      assert DigitRun("0") == 1;
      assert UnitRun("") == 0;
    }
  }

  lemma MagnitudeRoundTrip(u: nat)
    requires u <= Limit
    ensures Components(FormatMagnitude(u)) == Some(Printed(u))
    ensures Total(Printed(u), 0) == Some(u)
  {
    if u == 0 {
      ZeroMagnitude();
    } else if u < Microsecond {
      NanosMagnitude(u);
    } else if u < Second {
      FractionalMagnitudeComponents(u);
      FractionalMagnitudeTotal(u);
    } else {
      LargeMagnitudeComponents(u);
      LargeMagnitudeTotal(u);
    }
  }
}
