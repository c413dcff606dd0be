/**
 * The drift comparator of converter/normalizer.go: go-cmp's cmp.Equal with
 * two options, cmpopts.SortSlices ordering every sequence by the `%v` text
 * of its elements, and a string comparer that treats two strings which
 * both parse as Go durations as equal when they denote the same duration.
 */
module Compare {
  import opened Wrappers
  import opened Text
  import opened Duration
  import opened Values
  import opened Sorting
  import DurationLemmas
  import DurationRoundTrip
  import DurationFacts

  /**
   * The string rule: both texts durations -> equal nanosecond counts;
   * otherwise the texts themselves.
   */
  predicate SameText(x: string, y: string) {
    var dx, dy := Parse(x), Parse(y);
    if dx.Some? && dy.Some? then dx.value == dy.value else x == y
  }

  /**
   * cmp.Equal under the two options. Values of different dynamic types are
   * unequal (an int is never equal to a float64); mappings need the same
   * keys and equal values; sequences are compared element by element after
   * both are sorted by text.
   */
  predicate Equal(x: Value, y: Value)
    decreases x
  {
    match x
    case Str(s) => y.Str? && SameText(s, y.s)
    case Map(m) =>
      y.Map? && m.Keys == y.entries.Keys &&
      forall k | k in m :: Equal(m[k], y.entries[k])
    case List(a) =>
      y.List? && |a| == |y.items| &&
      var sa, sb := SortByText(Render, a), SortByText(Render, y.items);
      forall i | 0 <= i < |sa| :: Equal(sa[i], sb[i])
    case _ => x == y
  }

  // ------------------------------------------------------------ properties

  lemma {:induction false} EqualReflexive(x: Value)
    ensures Equal(x, x)
    decreases x
  {
    match x
    case Map(m) =>
      forall k | k in m ensures Equal(m[k], m[k]) {
        EqualReflexive(m[k]);
      }
    case List(a) =>
      var sa := SortByText(Render, a);
      forall i | 0 <= i < |sa| ensures Equal(sa[i], sa[i]) {
        EqualReflexive(sa[i]);
      }
    case _ =>
  }

  lemma {:induction false} EqualSymmetric(x: Value, y: Value)
    ensures Equal(x, y) == Equal(y, x)
    decreases x
  {
    match x
    case Map(m) =>
      if y.Map? && m.Keys == y.entries.Keys {
        forall k | k in m ensures Equal(m[k], y.entries[k]) == Equal(y.entries[k], m[k]) {
          EqualSymmetric(m[k], y.entries[k]);
        }
      }
    case List(a) =>
      if y.List? && |a| == |y.items| {
        var sa, sb := SortByText(Render, a), SortByText(Render, y.items);
        forall i | 0 <= i < |sa| ensures Equal(sa[i], sb[i]) == Equal(sb[i], sa[i]) {
          EqualSymmetric(sa[i], sb[i]);
        }
      }
    case _ =>
  }

  /**
   * Reordering a sequence does not change the verdict, provided no two
   * distinct elements print the same text.
   */
  lemma ListOrderIgnored(a: seq<Value>, b: seq<Value>, z: Value)
    requires multiset(a) == multiset(b)
    requires DistinctTexts(Render, a)
    ensures Equal(List(a), z) == Equal(List(b), z)
  {
    SortIgnoresOrder(Render, a, b);
  }

  /** Strings that are not both durations compare as text, in both directions. */
  lemma PlainTextsExact(x: string, y: string)
    requires Parse(x).None? || Parse(y).None?
    ensures Equal(Str(x), Str(y)) <==> x == y
  {
  }

  /** Two duration strings compare by the duration they denote. */
  lemma DurationTextsByValue(x: string, y: string, dx: int, dy: int)
    requires Parse(x).Some? && Parse(x).value == dx
    requires Parse(y).Some? && Parse(y).value == dy
    ensures Equal(Str(x), Str(y)) <==> dx == dy
  {
  }

  // ------------------------------------------------- duration spellings

  /** "2m" and "120s": whole minutes equal the same count of seconds. */
  lemma MinutesAsSeconds(n: nat)
    requires n * Minute < Limit
    ensures Equal(Str(NatToString(n) + "m"), Str(NatToString(60 * n) + "s"))
  {
    DurationLemmas.UnitNames();
    DurationRoundTrip.ParseWhole(n, "m", Minute);
    DurationRoundTrip.ParseWhole(60 * n, "s", Second);
  }

  /** "2m" and "2m0s": a trailing zero-second component changes nothing. */
  lemma ZeroSecondsSuffix(n: nat, u: string, unit: nat)
    requires UnitValue(u) == Some(unit) && |u| > 0 && DurationLemmas.AllUnitChars(u)
    requires n * unit < Limit
    ensures Equal(Str(NatToString(n) + u), Str(NatToString(n) + u + (NatToString(0) + "s")))
  {
    DurationLemmas.UnitNames();
    DurationRoundTrip.ParseWhole(n, u, unit);
    DurationRoundTrip.ParseWholePair(n, u, unit, 0, "s", Second);
  }

  /** "2m" and "3m": different counts of one unit differ. */
  lemma DifferentCounts(n: nat, m: nat, u: string, unit: nat)
    requires UnitValue(u) == Some(unit) && |u| > 0 && DurationLemmas.AllUnitChars(u)
    requires n * unit < Limit && m * unit < Limit && n != m
    ensures !Equal(Str(NatToString(n) + u), Str(NatToString(m) + u))
  {
    DurationRoundTrip.ParseWhole(n, u, unit);
    DurationRoundTrip.ParseWhole(m, u, unit);
    MulInjective(n, m, unit);
  }

  lemma MulInjective(n: nat, m: nat, unit: nat)
    requires unit >= 1 && n != m
    ensures n * unit != m * unit
  {
    if n < m {
      assert m * unit == n * unit + (m - n) * unit;
    } else {
      assert n * unit == m * unit + (n - m) * unit;
    }
  }

  // ------------------------------------------------- sorting before comparing

  /**
   * Sequences are sorted by text before any duration is compared: two
   * spellings of one duration that sort on different sides of a third,
   * non-duration string leave two sequences unequal.
   */
  lemma SortingPrecedesDurations(a: string, b: string, c: string)
    requires Parse(a).Some? && Parse(b).Some? && Parse(a).value == Parse(b).value
    requires Parse(c).None?
    requires Less(a, c) && Less(c, b)
    ensures Equal(Str(a), Str(b))
    ensures !Equal(List([Str(a), Str(c)]), List([Str(b), Str(c)]))
  {
    assert !Equal(Str(a), Str(c)) by {
      LessIrreflexive(a);
    }
    PairSortsApart(Str(a), Str(b), Str(c));
  }

  /** [x z] and [y z] differ when z sorts between x and y and x differs from z. */
  lemma PairSortsApart(x: Value, y: Value, z: Value)
    requires Less(Render(x), Render(z)) && Less(Render(z), Render(y))
    requires !Equal(x, z)
    ensures !Equal(List([x, z]), List([y, z]))
  {
    var xs, ys := [x, z], [y, z];
    assert SortByText(Render, xs) == xs by {
      LessAsymmetric(Render(x), Render(z));
      SortPair(Render, x, z);
    }
    assert SortByText(Render, ys) == [z, y] by {
      SortPair(Render, y, z);
    }
    NotFirstEqual(xs, ys);
  }

  /** Sequences whose sorted first elements differ are unequal. */
  lemma NotFirstEqual(xs: seq<Value>, ys: seq<Value>)
    requires |xs| == |ys| > 0
    requires !Equal(SortByText(Render, xs)[0], SortByText(Render, ys)[0])
    ensures !Equal(List(xs), List(ys))
  {
  }

  /**
   * Elements with the same text keep their order (the sort is stable), so
   * two unequal elements that print alike make the order of a sequence matter.
   */
  lemma SameTextKeepsOrder(x: Value, y: Value)
    requires Render(x) == Render(y) && !Equal(x, y)
    ensures !Equal(List([x, y]), List([y, x]))
  {
    LessIrreflexive(Render(x));
    SortPair(Render, x, y);
    SortPair(Render, y, x);
    assert SortByText(Render, [x, y])[0] == x;
    assert SortByText(Render, [y, x])[0] == y;
    NotFirstEqual([x, y], [y, x]);
  }

  /** The string "1" and the number 1.0 print alike yet differ in type. */
  lemma StringAndNumberOne()
    ensures !Equal(List([Str("1"), Float(IntDecimal(1))]), List([Float(IntDecimal(1)), Str("1")]))
  {
    assert NatToString(1) == "1";
    assert Render(Float(IntDecimal(1))) == "1";
    SameTextKeepsOrder(Str("1"), Float(IntDecimal(1)));
  }
}
