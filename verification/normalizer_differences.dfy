/**
 * When ResourceYAMLEquivalent says two documents differ. Two documents
 * that differ in one top-level field are equivalent exactly when the two
 * values clean to values that compare alike (or both clean away), so a
 * changed threshold, a changed duration, an added `keep_firing_for` or
 * an added `dash0-enabled: "false"` is reported as a difference.
 */
module NormalizerDifferences {
  import opened Wrappers
  import opened Text
  import opened Duration
  import opened Values
  import opened Compare
  import opened Normalizer
  import NormalizerLemmas
  import LegacyNormalizerLemmas
  import DurationLemmas
  import DurationRoundTrip

  // ------------------------------------------------------------ one key

  /** Two cleaned values that the comparison of ResourceYAMLEquivalent equates. */
  predicate Alike(x: Value, y: Value) {
    Equal(NormalizeNumeric(Reparse(x)), NormalizeNumeric(Reparse(y)))
  }

  /** Both entries cleaned away, or both kept and alike. */
  predicate OptAlike(a: Option<Value>, b: Option<Value>) {
    if a.Some? && b.Some? then Alike(a.value, b.value) else a.None? && b.None?
  }

  /** The mapping `c` with `o` under `k` when `o` is present. */
  function Put(c: map<string, Value>, k: string, o: Option<Value>): map<string, Value> {
    if o.Some? then c[k := o.value] else c
  }

  /**
   * Two documents that differ in one top-level key that is not ignored
   * are equivalent exactly when the two values, cleaned as that key's
   * entry, are both dropped or are both kept and compare alike.
   */
  lemma OneKeyDecides(m: map<string, Value>, k: string, x: Value, y: Value)
    requires k !in IgnoredTopLevel
    ensures ResourceYAMLEquivalent(Some(Map(m[k := x])), Some(Map(m[k := y]))) ==
      Ok(OptAlike(CleanEntry(k, x, IgnoredFields), CleanEntry(k, y, IgnoredFields)))
  {
    var c0 := CleanupMap(m - {k}, IgnoredFields);
    var cx, cy := CleanEntry(k, x, IgnoredFields), CleanEntry(k, y, IgnoredFields);
    NormalizedUpdate(m, k, x);
    NormalizedUpdate(m, k, y);
    ComparedAt(c0, k, cx, cy);
  }

  /** Normalising a document with one top-level key set. */
  lemma NormalizedUpdate(m: map<string, Value>, k: string, x: Value)
    requires k !in IgnoredTopLevel
    ensures k !in CleanupMap(m - {k}, IgnoredFields)
    ensures NormalizeYAML(Some(Map(m[k := x]))) ==
      Ok(Put(CleanupMap(m - {k}, IgnoredFields), k, CleanEntry(k, x, IgnoredFields)))
  {
    var c0 := CleanupMap(m - {k}, IgnoredFields);
    assert !RemovedHere(IgnoredFields, k) by {
      NormalizerLemmas.IgnoredFieldsSplit();
    }
    NormalizerLemmas.CleanupUpdate(m, IgnoredFields, k, x);
    assert CleanupMap(m[k := x], IgnoredFields) == Put(c0, k, CleanEntry(k, x, IgnoredFields));
  }

  /** The comparison of two mappings that differ at most in one key. */
  lemma ComparedAt(c0: map<string, Value>, k: string, a: Option<Value>, b: Option<Value>)
    requires k !in c0
    ensures Equal(Comparable(Put(c0, k, a)), Comparable(Put(c0, k, b))) == OptAlike(a, b)
  {
    var base := NormalizeNumeric(Reparse(Map(c0))).entries;
    ComparableUpdate(c0, k, Str(""));
    if a.Some? {
      ComparableUpdate(c0, k, a.value);
    }
    if b.Some? {
      ComparableUpdate(c0, k, b.value);
    }
    if a.Some? && b.Some? {
      EqualAt(base, k, NormalizeNumeric(Reparse(a.value)), NormalizeNumeric(Reparse(b.value)));
    } else if a.Some? || b.Some? {
      assert k !in base;
    } else {
      EqualReflexive(Comparable(c0));
    }
  }

  /** The comparable form of a mapping with one key set. */
  lemma ComparableUpdate(c: map<string, Value>, k: string, x: Value)
    ensures Comparable(c[k := x]) ==
      Map(NormalizeNumeric(Reparse(Map(c))).entries[k := NormalizeNumeric(Reparse(x))])
    ensures Comparable(c).entries.Keys == c.Keys
  {
    LegacyNormalizerLemmas.ReparseUpdate(c, k, x);
    NormalizerLemmas.NormalizeNumericUpdate(Reparse(Map(c)).entries, k, Reparse(x));
  }

  /** Mappings that differ in one key compare as the values under that key do. */
  lemma EqualAt(base: map<string, Value>, k: string, a: Value, b: Value)
    ensures Equal(Map(base[k := a]), Map(base[k := b])) <==> Equal(a, b)
  {
    var l, r := base[k := a], base[k := b];
    assert l.Keys == r.Keys;
    if Equal(Map(l), Map(r)) {
      assert k in l;
      assert Equal(l[k], r[k]);
    }
    if Equal(a, b) {
      forall j | j in l ensures Equal(l[j], r[j]) {
        if j != k {
          EqualReflexive(l[j]);
        }
      }
    }
  }

  /**
   * The scalar case: a number, a bool, null or a non-empty string (not a
   * zero `keep_firing_for`) is kept by the cleanup as it is, so the
   * verdict is the comparison of the two values themselves.
   */
  lemma ScalarKeyDecides(m: map<string, Value>, k: string, x: Value, y: Value)
    requires k !in IgnoredTopLevel
    requires KeptAsIs(k, x) && KeptAsIs(k, y)
    ensures ResourceYAMLEquivalent(Some(Map(m[k := x])), Some(Map(m[k := y]))) == Ok(Alike(x, y))
  {
    OneKeyDecides(m, k, x, y);
  }

  /** A scalar the cleanup keeps unchanged under `k`. */
  predicate KeptAsIs(k: string, x: Value) {
    (x.Null? || x.Bool? || x.Int? || x.Float? || (x.Str? && x.s != "")) &&
    !(k == KeepFiringFor && x.Str? && ZeroDuration(x.s))
  }

  /** A key that the cleanup keeps, present in one document only, makes them differ. */
  lemma ExtraKeyDiffers(m: map<string, Value>, k: string, x: Value)
    requires k !in IgnoredTopLevel && k !in m
    requires CleanEntry(k, x, IgnoredFields).Some?
    ensures ResourceYAMLEquivalent(Some(Map(m)), Some(Map(m[k := x]))) == Ok(false)
  {
    assert m[k := Str("")] - {k} == m - {k} == m;
    assert m[k := Str("")] == m[k := Str("")];
    NormalizedUpdate(m, k, Str(""));
    NormalizedUpdate(m, k, x);
    assert NormalizeYAML(Some(Map(m))) == Ok(CleanupMap(m - {k}, IgnoredFields));
    ComparedAt(CleanupMap(m - {k}, IgnoredFields), k, None, CleanEntry(k, x, IgnoredFields));
  }

  // ------------------------------------------------------------ instances

  /** `3` and `4` under the same key are a difference. */
  lemma ThreeAndFourDiffer(m: map<string, Value>, k: string)
    requires k !in IgnoredTopLevel
    ensures ResourceYAMLEquivalent(Some(Map(m[k := Int(3)])), Some(Map(m[k := Int(4)]))) == Ok(false)
  {
    ScalarKeyDecides(m, k, Int(3), Int(4));
    assert NormalizeNumeric(Reparse(Int(3))) == Float(IntDecimal(3));
    assert NormalizeNumeric(Reparse(Int(4))) == Float(IntDecimal(4));
  }

  /** `"2m"` and `"3m"` under the same key are a difference. */
  lemma TwoAndThreeMinutesDiffer(m: map<string, Value>, k: string)
    requires k !in IgnoredTopLevel
    ensures ResourceYAMLEquivalent(Some(Map(m[k := Str("2m")])), Some(Map(m[k := Str("3m")]))) == Ok(false)
  {
    TwoAndThreeMinutesApart();
    ScalarKeyDecides(m, k, Str("2m"), Str("3m"));
  }

  lemma TwoAndThreeMinutesApart()
    ensures !ZeroDuration("2m") && !ZeroDuration("3m") && !Alike(Str("2m"), Str("3m"))
  {
    DurationLemmas.UnitNames();
    assert NatToString(2) == "2" && NatToString(3) == "3";
    assert NatToString(2) + "m" == "2m" && NatToString(3) + "m" == "3m";
    DurationRoundTrip.ParseWhole(2, "m", Minute);
    DurationRoundTrip.ParseWhole(3, "m", Minute);
    DifferentCounts(2, 3, "m", Minute);
  }

  /** Adding `keep_firing_for: 5m` where there was none is a difference. */
  lemma KeepFiringForDiffersFromAbsent(m: map<string, Value>)
    requires KeepFiringFor !in m
    ensures ResourceYAMLEquivalent(Some(Map(m)), Some(Map(m[KeepFiringFor := Str("5m")]))) == Ok(false)
  {
    DurationLemmas.UnitNames();
    assert NatToString(5) == "5";
    DurationRoundTrip.ParseWhole(5, "m", Minute);
    assert NatToString(5) + "m" == "5m";
    assert !ZeroDuration("5m");
    ExtraKeyDiffers(m, KeepFiringFor, Str("5m"));
  }

  /** Only `metadata.` starts an ignored path with a dot. */
  lemma NothingIgnoredUnder(key: string)
    requires key != Metadata
    ensures Nested(IgnoredFields, key) == []
  {
    var tail := UnderKey(Metadata, IgnoredMetadata);
    assert '.' !in IgnoredTopLevel[0] && '.' !in IgnoredTopLevel[1];
    assert IgnoredFields[1..][1..] == tail;
    assert Nested(IgnoredFields, key) == Nested(tail, key);
    NestedElsewhere(Metadata, IgnoredMetadata, key);
  }

  /** Paths that all begin with `key.` nest to nothing under another key. */
  lemma {:induction false} NestedElsewhere(key: string, rests: seq<string>, other: string)
    requires '.' !in key && other != key
    ensures Nested(UnderKey(key, rests), other) == []
  {
    if |rests| > 0 {
      var paths := UnderKey(key, rests);
      var p := paths[0];
      assert p == key + "." + rests[0];
      assert p[|key|] == '.';
      assert p[..|key|] == key;
      assert FirstIndexOf(p, '.') == |key|;
      assert paths[1..] == UnderKey(key, rests[1..]);
      NestedElsewhere(key, rests[1..], other);
    }
  }

  /**
   * `dash0-enabled: "false"` in the annotations is a difference from the
   * same annotations without it, unlike the default `"true"`.
   */
  lemma EnabledFalseDiffersFromAbsent(m: map<string, Value>, n: map<string, Value>)
    ensures ResourceYAMLEquivalent(
      Some(Map(m[Annotations := Map(n[EnabledKey := Str("false")])])),
      Some(Map(m[Annotations := Map(n - {EnabledKey})]))) == Ok(false)
  {
    NothingIgnoredUnder(Annotations);
    EnabledFalseEntry(n, IgnoredFields);
    OneKeyDecides(m, Annotations, Map(n[EnabledKey := Str("false")]), Map(n - {EnabledKey}));
  }

  /** Where nothing below `annotations` is ignored, the two annotation entries clean unlike. */
  lemma EnabledFalseEntry(n: map<string, Value>, paths: seq<string>)
    requires Nested(paths, Annotations) == []
    ensures !OptAlike(CleanEntry(Annotations, Map(n[EnabledKey := Str("false")]), paths),
      CleanEntry(Annotations, Map(n - {EnabledKey}), paths))
  {
    var without := CleanupMap(n - {EnabledKey}, []);
    NormalizerLemmas.CleanupUpdate(n, [], EnabledKey, Str("false"));
    assert n[EnabledKey := Str("false")] - {EnabledKey} == n - {EnabledKey};
    assert CleanupMap(n[EnabledKey := Str("false")], []) == without[EnabledKey := Str("false")];
    NormalizerLemmas.StringifyUpdate(without, EnabledKey, Str("false"));
    var with := RemoveDefaults(Stringify(without[EnabledKey := Str("false")]));
    assert EnabledKey in with;
    NormalizerLemmas.AnnotationsEntry(paths, n[EnabledKey := Str("false")]);
    NormalizerLemmas.AnnotationsEntry(paths, n - {EnabledKey});
    var cx := CleanEntry(Annotations, Map(n[EnabledKey := Str("false")]), paths);
    var cy := CleanEntry(Annotations, Map(n - {EnabledKey}), paths);
    assert cx == Some(Map(with)) by {
      assert !IsEmpty(with) by {
        assert !Blank(with[EnabledKey]);
      }
    }
    if cy.Some? {
      assert EnabledKey !in cy.value.entries;
      KeysDiffer(cx.value, cy.value);
    }
  }

  /** Mappings with different keys are never alike. */
  lemma KeysDiffer(x: Value, y: Value)
    requires x.Map? && y.Map? && x.entries.Keys != y.entries.Keys
    ensures !Alike(x, y)
  {
    assert NormalizeNumeric(Reparse(x)).entries.Keys == x.entries.Keys;
    assert NormalizeNumeric(Reparse(y)).entries.Keys == y.entries.Keys;
  }
}
