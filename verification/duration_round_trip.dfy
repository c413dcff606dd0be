/** The round trip of Go's duration text: the parser reads back what the printer prints. */
module DurationRoundTrip {
  import opened Wrappers
  import opened Text
  import opened Duration
  import opened DurationLemmas

  /** The magnitude of a text whose components are known. */
  lemma MagnitudeOf(body: string, cs: seq<Component>, v: nat)
    requires Components(body) == Some(cs) && |cs| > 0
    requires Total(cs, 0) == Some(v)
    ensures Magnitude(body) == Some(v)
    ensures body[0] != '-' && body[0] != '+'
  {
    ComponentsShape(body, cs);
  }

  lemma ParseUnsigned(s: string, v: nat)
    requires SplitSign(s) == (false, s)
    requires Magnitude(s) == Some(v) && v < Limit
    ensures Parse(s) == Some(v)
  {
  }

  lemma ParseNegated(s: string, body: string, v: nat)
    requires SplitSign(s) == (true, body)
    requires Magnitude(body) == Some(v)
    ensures Parse(s).Some? && Parse(s).value == -(v as int)
  {
  }

  /** time.ParseDuration reads back every duration Duration.String prints. */
  lemma ParseFormat(d: int)
    requires InRange(d)
    ensures Parse(Format(d)) == Some(d)
  {
    var u: nat := if d < 0 then -d else d;
    MagnitudeRoundTrip(u);
    var m := FormatMagnitude(u);
    MagnitudeOf(m, Printed(u), u);
    if d < 0 {
      assert Format(d) == "-" + m;
      assert ("-" + m)[1..] == m;
      ParseNegated(Format(d), m, u);
    } else {
      ParseUnsigned(m, u);
    }
  }

  /** An unsigned text reads as the sum of its components. */
  lemma ParseOfComponents(s: string, cs: seq<Component>, w: nat)
    requires Components(s) == Some(cs) && |cs| > 0
    requires Total(cs, 0) == Some(w) && w < Limit
    ensures Parse(s) == Some(w)
  {
    MagnitudeOf(s, cs, w);
    ParseUnsigned(s, w);
  }

  /** `n` followed by a unit name reads back as n units: "2m", "120s", "30s". */
  lemma ParseWhole(n: nat, u: string, unit: nat)
    requires UnitValue(u) == Some(unit) && |u| > 0 && AllUnitChars(u)
    requires n * unit < Limit
    ensures var r := Parse(NatToString(n) + u); r.Some? && r.value == n * unit
  {
    WholeComponents(n, u, unit);
    WholeNanos(n, unit);
    TotalOne(Whole(n, unit), 0, n * unit);
    ParseOfComponents(NatToString(n) + u, [Whole(n, unit)], n * unit);
  }

  lemma WholePairComponents(n: nat, u: string, unit: nat, m: nat, v: string, unit2: nat)
    requires UnitValue(u) == Some(unit) && |u| > 0 && AllUnitChars(u)
    requires UnitValue(v) == Some(unit2) && |v| > 0 && AllUnitChars(v)
    ensures Components(NatToString(n) + u + (NatToString(m) + v)) == Some([Whole(n, unit)] + [Whole(m, unit2)])
  {
    var tail := NatToString(m) + v;
    WholeComponents(m, v, unit2);
    StartsWithDigit(m, v);
    WholeThen(n, u, unit, tail, [Whole(m, unit2)]);
  }

  lemma WholePairTotal(n: nat, unit: nat, m: nat, unit2: nat)
    requires unit >= 1 && unit2 >= 1
    requires n * unit + m * unit2 < Limit
    ensures Total([Whole(n, unit)] + [Whole(m, unit2)], 0) == Some(n * unit + m * unit2)
  {
    WholeNanos(n, unit);
    WholeNanos(m, unit2);
    TotalCons(Whole(n, unit), [Whole(m, unit2)], 0, n * unit);
    TotalOne(Whole(m, unit2), n * unit, m * unit2);
  }

  /** Two whole components add up: "2m0s" is two minutes, "1h30m" ninety minutes. */
  lemma ParseWholePair(n: nat, u: string, unit: nat, m: nat, v: string, unit2: nat)
    requires UnitValue(u) == Some(unit) && |u| > 0 && AllUnitChars(u)
    requires UnitValue(v) == Some(unit2) && |v| > 0 && AllUnitChars(v)
    requires n * unit + m * unit2 < Limit
    ensures var r := Parse(NatToString(n) + u + (NatToString(m) + v)); r.Some? && r.value == n * unit + m * unit2
  {
    var s := NatToString(n) + u + (NatToString(m) + v);
    var cs := [Whole(n, unit)] + [Whole(m, unit2)];
    var w := n * unit + m * unit2;
    assert Total(cs, 0) == Some(w) by {
      WholePairTotal(n, unit, m, unit2);
    }
    assert Components(s) == Some(cs) by {
      WholePairComponents(n, u, unit, m, v, unit2);
    }
    ParseOfComponents(s, cs, w);
  }
}
