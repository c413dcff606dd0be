/**
 * What the cleanup of converter/normalizer.go guarantees: which fields and
 * values stop mattering, when it is a fixed point, and what the
 * equivalence built on it satisfies.
 */
module NormalizerLemmas {
  import opened Wrappers
  import opened Text
  import opened Duration
  import opened Values
  import opened Compare
  import opened Normalizer
  import DurationLemmas
  import DurationRoundTrip
  import DurationFacts

  // ------------------------------------------------------- one entry at a time

  /**
   * Setting one key changes the cleanup in that key alone: the key is
   * absent when it is removed by path or its cleaned value is empty, and
   * holds the cleaned value otherwise.
   */
  lemma CleanupUpdate(data: map<string, Value>, paths: seq<string>, k: string, v: Value)
    ensures CleanupMap(data[k := v], paths) ==
      if RemovedHere(paths, k) || CleanEntry(k, v, paths).None? then CleanupMap(data - {k}, paths)
      else CleanupMap(data - {k}, paths)[k := CleanEntry(k, v, paths).value]
  {
    var l := CleanupMap(data[k := v], paths);
    var r := CleanupMap(data - {k}, paths);
    var e := CleanEntry(k, v, paths);
    var want := if RemovedHere(paths, k) || e.None? then r else r[k := e.value];
    forall j | j in l ensures j in want && want[j] == l[j] {
      if j != k {
        assert j in data - {k};
      }
    }
    forall j | j in want ensures j in l {
      if j != k {
        assert j in data[k := v];
      }
    }
  }

  /** Two values that clean alike are interchangeable under any key. */
  lemma CleanupSameEntry(data: map<string, Value>, paths: seq<string>, k: string, v: Value, w: Value)
    requires CleanEntry(k, v, paths) == CleanEntry(k, w, paths)
    ensures CleanupMap(data[k := v], paths) == CleanupMap(data[k := w], paths)
  {
    CleanupUpdate(data, paths, k, v);
    CleanupUpdate(data, paths, k, w);
  }

  // ----------------------------------------------------------- ignored fields

  /** Which keys the ignored-field list removes at the top level and below `metadata`. */
  lemma IgnoredFieldsSplit()
    ensures forall k :: RemovedHere(IgnoredFields, k) <==> k in IgnoredTopLevel
    ensures Nested(IgnoredFields, Metadata) == IgnoredMetadata
  {
    IgnoredTopLevelPlain();
    IgnoredMetadataNested();
  }

  lemma IgnoredTopLevelPlain()
    ensures forall k :: RemovedHere(IgnoredFields, k) <==> k in IgnoredTopLevel
  {
    TopLevelDotless();
    MetadataPathsDotted();
    PlainHead(IgnoredTopLevel, UnderKey(Metadata, IgnoredMetadata));
  }

  lemma TopLevelDotless()
    ensures forall i | 0 <= i < |IgnoredTopLevel| :: '.' !in IgnoredTopLevel[i]
  {
    assert '.' !in IgnoredTopLevel[0] && '.' !in IgnoredTopLevel[1];
  }

  /** Every ignored metadata path holds a dot. */
  lemma MetadataPathsDotted()
    ensures forall k | k in UnderKey(Metadata, IgnoredMetadata) :: '.' in k
  {
    var tail := UnderKey(Metadata, IgnoredMetadata);
    forall k | k in tail ensures '.' in k {
      var i :| 0 <= i < |tail| && tail[i] == k;
      DotAfterKey(Metadata, IgnoredMetadata[i]);
    }
  }

  /** Of dotless paths followed by dotted ones, exactly the dotless ones are removed at the top. */
  lemma PlainHead(head: seq<string>, tail: seq<string>)
    requires forall i | 0 <= i < |head| :: '.' !in head[i]
    requires forall k | k in tail :: '.' in k
    ensures forall k :: RemovedHere(head + tail, k) <==> k in head
  {
  }

  lemma IgnoredMetadataNested()
    ensures Nested(IgnoredFields, Metadata) == IgnoredMetadata
  {
    var tail := UnderKey(Metadata, IgnoredMetadata);
    assert '.' !in IgnoredTopLevel[0] && '.' !in IgnoredTopLevel[1];
    assert '.' !in Metadata;
    assert IgnoredFields[1..][1..] == tail;
    assert Nested(IgnoredFields, Metadata) == Nested(tail, Metadata);
    NestedPrefix(Metadata, IgnoredMetadata);
  }

  lemma DotAfterKey(key: string, rest: string)
    ensures '.' in key + "." + rest
  {
    assert (key + "." + rest)[|key|] == '.';
  }

  /** Paths that all begin with `key.` nest to their remainders, in order. */
  lemma {:induction false} NestedPrefix(key: string, rests: seq<string>)
    requires '.' !in key
    ensures Nested(UnderKey(key, rests), key) == rests
  {
    if |rests| > 0 {
      var paths := UnderKey(key, rests);
      var p := paths[0];
      assert p == key + "." + rests[0];
      assert p[|key|] == '.';
      assert p[..|key|] == key;
      assert FirstIndexOf(p, '.') == |key|;
      assert p[|key| + 1..] == rests[0];
      assert paths[1..] == UnderKey(key, rests[1..]);
      NestedPrefix(key, rests[1..]);
    }
  }

  /** A map entry cleans by what the cleanup makes of its contents. */
  lemma CleanEntryOfContents(key: string, paths: seq<string>, n1: map<string, Value>, n2: map<string, Value>)
    requires CleanupMap(n1, Nested(paths, key)) == CleanupMap(n2, Nested(paths, key))
    ensures CleanEntry(key, Map(n1), paths) == CleanEntry(key, Map(n2), paths)
  {
  }

  /** Documents whose mappings clean to the same mapping are equivalent. */
  lemma CleanedAlikeEquivalent(m1: map<string, Value>, m2: map<string, Value>)
    requires CleanupMap(m1, IgnoredFields) == CleanupMap(m2, IgnoredFields)
    ensures ResourceYAMLEquivalent(Some(Map(m1)), Some(Map(m2))) == Ok(true)
  {
    var c := CleanupMap(m1, IgnoredFields);
    assert NormalizeYAML(Some(Map(m1))) == Ok(c);
    assert NormalizeYAML(Some(Map(m2))) == Ok(c);
    EqualReflexive(Comparable(c));
  }

  /** None of the ignored metadata field names contains a '.'. */
  lemma MetadataNamesPlain()
    ensures forall f | f in IgnoredMetadata :: '.' !in f
  {
    assert '.' !in IgnoredMetadata[0];
    assert '.' !in IgnoredMetadata[1];
    assert '.' !in IgnoredMetadata[2];
    assert '.' !in IgnoredMetadata[3];
    assert '.' !in IgnoredMetadata[4];
    assert '.' !in IgnoredMetadata[5];
    assert '.' !in IgnoredMetadata[6];
  }

  /** Two documents that differ only in `apiVersion` or `kind` are equivalent. */
  lemma TopLevelIgnoredFieldsIrrelevant(m: map<string, Value>, k: string, x: Value, y: Value)
    requires k in IgnoredTopLevel
    ensures ResourceYAMLEquivalent(Some(Map(m[k := x])), Some(Map(m[k := y]))) == Ok(true)
  {
    assert CleanupMap(m[k := x], IgnoredFields) == CleanupMap(m[k := y], IgnoredFields) by {
      IgnoredFieldsSplit();
      CleanupUpdate(m, IgnoredFields, k, x);
      CleanupUpdate(m, IgnoredFields, k, y);
    }
    CleanedAlikeEquivalent(m[k := x], m[k := y]);
  }

  /** Two documents that differ only in one ignored field of `metadata` are equivalent. */
  lemma MetadataIgnoredFieldsIrrelevant(m: map<string, Value>, md: map<string, Value>, f: string, x: Value, y: Value)
    requires f in IgnoredMetadata
    ensures ResourceYAMLEquivalent(
      Some(Map(m[Metadata := Map(md[f := x])])),
      Some(Map(m[Metadata := Map(md[f := y])]))) == Ok(true)
  {
    var q := Nested(IgnoredFields, Metadata);
    assert CleanupMap(md[f := x], q) == CleanupMap(md[f := y], q) by {
      IgnoredFieldsSplit();
      MetadataNamesPlain();
      assert RemovedHere(q, f);
      CleanupUpdate(md, q, f, x);
      CleanupUpdate(md, q, f, y);
    }
    CleanEntryOfContents(Metadata, IgnoredFields, md[f := x], md[f := y]);
    CleanupSameEntry(m, IgnoredFields, Metadata, Map(md[f := x]), Map(md[f := y]));
    CleanedAlikeEquivalent(m[Metadata := Map(md[f := x])], m[Metadata := Map(md[f := y])]);
  }

  // ------------------------------------------------------ default annotations

  /** The spellings of an annotation the rule converter leaves out as a default. */
  predicate DefaultSpelling(t: string, x: Value) {
    ((t == ThresholdCritical || t == ThresholdDegraded) &&
      (x == Str("0") || x == Int(0) || x == Float(IntDecimal(0)))) ||
    (t == EnabledKey && (x == Str("true") || x == Bool(true)))
  }

  /**
   * A default annotation, written as a string or unquoted, normalises as if
   * it were absent, at any depth of the document.
   */
  lemma DefaultAnnotationIrrelevant(data: map<string, Value>, paths: seq<string>, n: map<string, Value>, t: string, x: Value)
    requires DefaultSpelling(t, x)
    ensures CleanupMap(data[Annotations := Map(n[t := x])], paths) ==
            CleanupMap(data[Annotations := Map(n - {t})], paths)
  {
    AnnotationDefaultEntry(paths, n, t, x);
    CleanupSameEntry(data, paths, Annotations, Map(n[t := x]), Map(n - {t}));
  }

  lemma AnnotationDefaultEntry(paths: seq<string>, n: map<string, Value>, t: string, x: Value)
    requires DefaultSpelling(t, x)
    ensures CleanEntry(Annotations, Map(n[t := x]), paths) == CleanEntry(Annotations, Map(n - {t}), paths)
  {
    var q := Nested(paths, Annotations);
    var base := n - {t};
    var c0 := CleanupMap(base, q);
    assert n[t := x] == base[t := x];
    assert base - {t} == base;
    assert CleanEntry(t, x, q) == Some(x);
    CleanupUpdate(base, q, t, x);
    if RemovedHere(q, t) {
      CleanEntryOfContents(Annotations, paths, n[t := x], base);
    } else {
      var y := if x.Str? then x else Str(Render(x));
      assert IsDefaultAnnotation(t, y) by {
        assert Render(Float(IntDecimal(0))) == "0";
      }
      StringifyUpdate(c0, t, x);
      RemoveDefaultsOfDefault(Stringify(c0), t, y);
      AnnotationsEntry(paths, n[t := x]);
      AnnotationsEntry(paths, base);
    }
  }

  /** What the cleanup makes of an `annotations` mapping. */
  lemma AnnotationsEntry(paths: seq<string>, n: map<string, Value>)
    ensures var d := RemoveDefaults(Stringify(CleanupMap(n, Nested(paths, Annotations))));
      CleanEntry(Annotations, Map(n), paths) == if IsEmpty(d) then None else Some(Map(d))
  {
  }

  /** Stringifying after setting one key sets that key to its text. */
  lemma StringifyUpdate(c: map<string, Value>, k: string, v: Value)
    ensures Stringify(c[k := v]) == Stringify(c)[k := if v.Str? then v else Str(Render(v))]
  {
  }

  /** A default annotation added to a mapping without it is dropped again. */
  lemma RemoveDefaultsOfDefault(c: map<string, Value>, k: string, v: Value)
    requires IsDefaultAnnotation(k, v) && k !in c
    ensures RemoveDefaults(c[k := v]) == RemoveDefaults(c)
  {
  }

  // ---------------------------------------------------- stringified labels

  /**
   * Under `annotations` and `labels`, an unquoted scalar and its text are
   * interchangeable, except a zero under `keep_firing_for`: the cleanup
   * drops the zero string there but keeps the number.
   */
  lemma StringifiedScalarsAlike(key: string, paths: seq<string>, n: map<string, Value>, k: string, x: Value)
    requires IsLabelsKey(key)
    requires x.Null? || x.Bool? || x.Int? || x.Float?
    requires !(k == KeepFiringFor && ZeroDuration(Render(x)))
    ensures CleanEntry(key, Map(n[k := x]), paths) == CleanEntry(key, Map(n[k := Str(Render(x))]), paths)
  {
    var q := Nested(paths, key);
    var base := n - {k};
    var y := Str(Render(x));
    assert n[k := x] == base[k := x] && n[k := y] == base[k := y];
    assert base - {k} == base;
    RenderNotEmpty(x);
    CleanupUpdate(base, q, k, x);
    CleanupUpdate(base, q, k, y);
    var c0 := CleanupMap(base, q);
    if RemovedHere(q, k) {
      CleanEntryOfContents(key, paths, n[k := x], n[k := y]);
    } else {
      StringifyUpdate(c0, k, x);
      StringifyUpdate(c0, k, y);
      LabelsEntryOfText(key, paths, n[k := x], n[k := y]);
    }
  }

  /** Under `annotations` and `labels` only the stringified cleanup matters. */
  lemma LabelsEntryOfText(key: string, paths: seq<string>, n1: map<string, Value>, n2: map<string, Value>)
    requires IsLabelsKey(key)
    requires Stringify(CleanupMap(n1, Nested(paths, key))) == Stringify(CleanupMap(n2, Nested(paths, key)))
    ensures CleanEntry(key, Map(n1), paths) == CleanEntry(key, Map(n2), paths)
  {
  }

  // ---------------------------------------------------------- keep_firing_for

  /** A zero `keep_firing_for` string normalises as if it were absent. */
  lemma ZeroKeepFiringForDropped(data: map<string, Value>, paths: seq<string>, s: string)
    requires ZeroDuration(s)
    ensures CleanupMap(data[KeepFiringFor := Str(s)], paths) == CleanupMap(data - {KeepFiringFor}, paths)
  {
    CleanupUpdate(data, paths, KeepFiringFor, Str(s));
  }

  /** A non-empty `keep_firing_for` string that is not a zero duration is kept as written. */
  lemma NonZeroKeepFiringForKept(data: map<string, Value>, paths: seq<string>, s: string)
    requires s != "" && !ZeroDuration(s) && !RemovedHere(paths, KeepFiringFor)
    ensures var r := CleanupMap(data[KeepFiringFor := Str(s)], paths);
      KeepFiringFor in r && r[KeepFiringFor] == Str(s)
  {
    CleanupUpdate(data, paths, KeepFiringFor, Str(s));
  }

  /** Zero in any unit ("0s", "0m", "0h", ...) is a zero duration. */
  lemma ZeroInAnyUnit(u: string, unit: nat)
    requires UnitValue(u) == Some(unit) && |u| > 0 && DurationLemmas.AllUnitChars(u)
    ensures ZeroDuration(NatToString(0) + u)
  {
    DurationRoundTrip.ParseWhole(0, u, unit);
  }

  // ------------------------------------------------------------ numeric types

  /** No int64 is left: every number is a float64, or a uint64 beyond int64. */
  predicate NoInt64s(v: Value)
    decreases v
  {
    match v
    case Int(i) => !InInt64(i)
    case List(a) => forall i | 0 <= i < |a| :: NoInt64s(a[i])
    case Map(m) => forall k | k in m :: NoInt64s(m[k])
    case _ => true
  }

  lemma {:induction false} NormalizeNumericNoInt64s(v: Value)
    ensures NoInt64s(NormalizeNumeric(v))
    decreases v
  {
    match v
    case List(a) =>
      forall i | 0 <= i < |a| ensures NoInt64s(NormalizeNumeric(a[i])) {
        NormalizeNumericNoInt64s(a[i]);
      }
    case Map(m) =>
      forall k | k in m ensures NoInt64s(NormalizeNumeric(m[k])) {
        NormalizeNumericNoInt64s(m[k]);
      }
    case _ =>
  }

  /** A tree without int64s is left exactly as it is. */
  lemma {:induction false} NormalizeNumericFixes(v: Value)
    requires NoInt64s(v)
    ensures NormalizeNumeric(v) == v
    decreases v
  {
    match v
    case List(a) =>
      forall i | 0 <= i < |a| ensures NormalizeNumeric(a[i]) == a[i] {
        NormalizeNumericFixes(a[i]);
      }
    case Map(m) =>
      forall k | k in m ensures NormalizeNumeric(m[k]) == m[k] {
        NormalizeNumericFixes(m[k]);
      }
    case _ =>
  }

  lemma NormalizeNumericIdempotent(v: Value)
    ensures NormalizeNumeric(NormalizeNumeric(v)) == NormalizeNumeric(v)
  {
    NormalizeNumericNoInt64s(v);
    NormalizeNumericFixes(NormalizeNumeric(v));
  }

  /**
   * Re-decoding is invisible to the comparison: the floats it turns into
   * ints become the same floats again.
   */
  lemma {:induction false} ReparseInvisible(v: Value)
    ensures NormalizeNumeric(Reparse(v)) == NormalizeNumeric(v)
    decreases v
  {
    match v
    case List(a) =>
      forall i | 0 <= i < |a| ensures NormalizeNumeric(Reparse(a[i])) == NormalizeNumeric(a[i]) {
        ReparseInvisible(a[i]);
      }
    case Map(m) =>
      forall k | k in m ensures NormalizeNumeric(Reparse(m[k])) == NormalizeNumeric(m[k]) {
        ReparseInvisible(m[k]);
      }
    case _ =>
  }

  /** A field written as an int and as the equal float normalises alike. */
  lemma IntAndFloatAlike(data: map<string, Value>, paths: seq<string>, k: string, i: int)
    requires InInt64(i)
    ensures NormalizeNumeric(Map(CleanupMap(data[k := Int(i)], paths))) ==
            NormalizeNumeric(Map(CleanupMap(data[k := Float(IntDecimal(i))], paths)))
  {
    var c0 := CleanupMap(data - {k}, paths);
    var x, y := Int(i), Float(IntDecimal(i));
    CleanupUpdate(data, paths, k, x);
    CleanupUpdate(data, paths, k, y);
    if !RemovedHere(paths, k) {
      assert CleanupMap(data[k := x], paths) == c0[k := x];
      assert CleanupMap(data[k := y], paths) == c0[k := y];
      assert NormalizeNumeric(x) == NormalizeNumeric(y);
      NormalizeNumericUpdate(c0, k, x);
      NormalizeNumericUpdate(c0, k, y);
    } else {
      assert CleanupMap(data[k := x], paths) == c0 == CleanupMap(data[k := y], paths);
    }
  }

  lemma NormalizeNumericUpdate(c: map<string, Value>, k: string, x: Value)
    ensures NormalizeNumeric(Map(c[k := x])) == Map(NormalizeNumeric(Map(c)).entries[k := NormalizeNumeric(x)])
  {
  }

  /** Two documents that differ only in writing one top-level number as int or float are equivalent. */
  lemma IntAndFloatEquivalent(m: map<string, Value>, k: string, i: int)
    requires InInt64(i)
    ensures ResourceYAMLEquivalent(Some(Map(m[k := Int(i)])), Some(Map(m[k := Float(IntDecimal(i))]))) == Ok(true)
  {
    var c1 := CleanupMap(m[k := Int(i)], IgnoredFields);
    var c2 := CleanupMap(m[k := Float(IntDecimal(i))], IgnoredFields);
    assert Comparable(c1) == Comparable(c2) by {
      ReparseInvisible(Map(c1));
      ReparseInvisible(Map(c2));
      IntAndFloatAlike(m, IgnoredFields, k, i);
    }
    assert NormalizeYAML(Some(Map(m[k := Int(i)]))) == Ok(c1);
    assert NormalizeYAML(Some(Map(m[k := Float(IntDecimal(i))]))) == Ok(c2);
    EqualReflexive(Comparable(c1));
  }

  // -------------------------------------------------------------- equivalence

  /** Every document that normalises is equivalent to itself. */
  lemma EquivalentReflexive(a: Option<Value>)
    requires NormalizeYAML(a).Ok?
    ensures ResourceYAMLEquivalent(a, a) == Ok(true)
  {
    EqualReflexive(Comparable(NormalizeYAML(a).value));
  }

  /** The verdict does not depend on the order of the two documents. */
  lemma EquivalentSymmetric(a: Option<Value>, b: Option<Value>)
    ensures ResourceYAMLEquivalent(a, b).Ok? <==> ResourceYAMLEquivalent(b, a).Ok?
    ensures ResourceYAMLEquivalent(a, b).Ok? ==> ResourceYAMLEquivalent(a, b) == ResourceYAMLEquivalent(b, a)
  {
    if ResourceYAMLEquivalent(a, b).Ok? {
      EqualSymmetric(Comparable(NormalizeYAML(a).value), Comparable(NormalizeYAML(b).value));
    }
  }
}
