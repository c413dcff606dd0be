/**
 * What removeField does and does not touch, and how the legacy drift
 * check of provider/normalizer.go differs from the one in
 * converter/normalizer.go.
 */
module LegacyNormalizerLemmas {
  import opened Wrappers
  import opened Text
  import opened Values
  import opened Normalizer
  import opened LegacyNormalizer
  import NormalizerLemmas

  // ------------------------------------------------------------ path splitting

  lemma PathPartsOne(a: string)
    requires a != "" && '.' !in a
    ensures PathParts(a) == [a]
  {
  }

  lemma PathPartsTwo(a: string, b: string)
    requires '.' !in a && '.' !in b && b != ""
    ensures PathParts(a + "." + b) == [a, b]
  {
    var s := a + "." + b;
    assert s[|a|] == '.';
    assert s[..|a|] == a;
    assert FirstIndexOf(s, '.') == |a|;
    assert s[|a| + 1..] == b;
    assert SplitOn(b, '.') == [b];
    assert SplitOn(s, '.') == [a, b];
  }

  /** Every ignored path splits into its top-level key, or `metadata` and a field. */
  lemma LegacyFieldParts()
    ensures |LegacyIgnoredFields| == 7
    ensures forall i | 0 <= i < 2 :: PathParts(LegacyIgnoredFields[i]) == [IgnoredTopLevel[i]]
    ensures forall i | 2 <= i < 7 :: PathParts(LegacyIgnoredFields[i]) == [Metadata, LegacyIgnoredMetadata[i - 2]]
  {
    LegacyTopLevelParts();
    LegacyMetadataParts();
  }

  lemma LegacyTopLevelParts()
    ensures forall i | 0 <= i < 2 :: PathParts(LegacyIgnoredFields[i]) == [IgnoredTopLevel[i]]
  {
    assert '.' !in IgnoredTopLevel[0] && '.' !in IgnoredTopLevel[1];
    PathPartsOne(IgnoredTopLevel[0]);
    PathPartsOne(IgnoredTopLevel[1]);
  }

  lemma LegacyMetadataParts()
    ensures forall i | 2 <= i < 7 :: PathParts(LegacyIgnoredFields[i]) == [Metadata, LegacyIgnoredMetadata[i - 2]]
  {
    assert '.' !in Metadata;
    forall i | 2 <= i < 7 ensures PathParts(LegacyIgnoredFields[i]) == [Metadata, LegacyIgnoredMetadata[i - 2]] {
      LegacyMetadataPlain(i - 2);
      PathPartsTwo(Metadata, LegacyIgnoredMetadata[i - 2]);
    }
  }

  lemma LegacyMetadataPlain(j: nat)
    requires j < 5
    ensures '.' !in LegacyIgnoredMetadata[j] && LegacyIgnoredMetadata[j] != ""
  {
    assert '.' !in LegacyIgnoredMetadata[0];
    assert '.' !in LegacyIgnoredMetadata[1];
    assert '.' !in LegacyIgnoredMetadata[2];
    assert '.' !in LegacyIgnoredMetadata[3];
    assert '.' !in LegacyIgnoredMetadata[4];
  }

  // ------------------------------------------------------------- removeField

  /** After removal nothing is left at the path. */
  lemma {:induction false} RemovePathClears(d: map<string, Value>, p: seq<string>)
    requires |p| > 0
    ensures Lookup(RemovePath(d, p), p).None?
    decreases |p|
  {
    if |p| > 1 && p[0] in d && d[p[0]].Map? {
      RemovePathClears(d[p[0]].entries, p[1..]);
    }
  }

  /** Removal changes the mapping exactly when something is at the path. */
  lemma {:induction false} RemovePathNoOp(d: map<string, Value>, p: seq<string>)
    requires |p| > 0
    ensures RemovePath(d, p) == d <==> Lookup(d, p).None?
    decreases |p|
  {
    RemovePathClears(d, p);
    if |p| > 1 && p[0] in d && d[p[0]].Map? {
      var n := d[p[0]].entries;
      RemovePathNoOp(n, p[1..]);
      if Lookup(d, p).None? {
        assert d[p[0] := Map(RemovePath(n, p[1..]))] == d;
      }
    }
  }

  /** Two paths that part ways at some key. */
  predicate Diverge(p: seq<string>, q: seq<string>)
    decreases |p|
  {
    |p| > 0 && |q| > 0 && (p[0] != q[0] || Diverge(p[1..], q[1..]))
  }

  /** Removing one path leaves what lies at a diverging path as it was. */
  lemma {:induction false} RemovePathKeepsOthers(d: map<string, Value>, p: seq<string>, q: seq<string>)
    requires Diverge(p, q)
    ensures Lookup(RemovePath(d, p), q) == Lookup(d, q)
    decreases |p|
  {
    if p[0] == q[0] && |p| > 1 && p[0] in d && d[p[0]].Map? {
      RemovePathKeepsOthers(d[p[0]].entries, p[1..], q[1..]);
    }
  }

  /** Removing paths one after another leaves every diverging path alone. */
  lemma {:induction false} RemoveFieldsKeepsOthers(d: map<string, Value>, fields: seq<string>, q: seq<string>)
    requires |q| > 0
    requires forall i | 0 <= i < |fields| :: Diverge(PathParts(fields[i]), q)
    ensures Lookup(RemoveFields(d, fields), q) == Lookup(d, q)
    decreases |fields|
  {
    if |fields| > 0 {
      RemovePathKeepsOthers(d, PathParts(fields[0]), q);
      RemoveFieldsKeepsOthers(RemovePath(d, PathParts(fields[0])), fields[1..], q);
    }
  }

  /** Removal never brings anything back. */
  lemma {:induction false} RemovePathKeepsAbsent(d: map<string, Value>, p: seq<string>, q: seq<string>)
    requires |q| > 0 && Lookup(d, q).None?
    ensures Lookup(RemovePath(d, p), q).None?
    decreases |p|
  {
    if |p| > 1 && p[0] in d && d[p[0]].Map? && p[0] == q[0] && |q| > 1 {
      RemovePathKeepsAbsent(d[p[0]].entries, p[1..], q[1..]);
    }
  }

  lemma {:induction false} RemoveFieldsKeepsAbsent(d: map<string, Value>, fields: seq<string>, q: seq<string>)
    requires |q| > 0 && Lookup(d, q).None?
    ensures Lookup(RemoveFields(d, fields), q).None?
    decreases |fields|
  {
    if |fields| > 0 {
      RemovePathKeepsAbsent(d, PathParts(fields[0]), q);
      RemoveFieldsKeepsAbsent(RemovePath(d, PathParts(fields[0])), fields[1..], q);
    }
  }

  /** Every path of the list is empty after the list has been removed. */
  lemma {:induction false} RemoveFieldsClears(d: map<string, Value>, fields: seq<string>, j: nat)
    requires j < |fields| && |PathParts(fields[j])| > 0
    ensures Lookup(RemoveFields(d, fields), PathParts(fields[j])).None?
    decreases j
  {
    var d1 := RemovePath(d, PathParts(fields[0]));
    if j == 0 {
      RemovePathClears(d, PathParts(fields[0]));
      RemoveFieldsKeepsAbsent(d1, fields[1..], PathParts(fields[0]));
    } else {
      assert fields[1..][j - 1] == fields[j];
      RemoveFieldsClears(d1, fields[1..], j - 1);
    }
  }

  /** The legacy normaliser leaves nothing at any of its ignored paths. */
  lemma LegacyIgnoredFieldsCleared(m: map<string, Value>, j: nat)
    requires j < |LegacyIgnoredFields|
    ensures var parts := PathParts(LegacyIgnoredFields[j]);
      |parts| > 0 && Lookup(RemoveFields(m, LegacyIgnoredFields), parts).None?
  {
    LegacyFieldParts();
    RemoveFieldsClears(m, LegacyIgnoredFields, j);
  }

  // ------------------------------------------------------- one key at a time

  lemma RemovePathUpdate(d: map<string, Value>, p: seq<string>, k: string, x: Value)
    requires |p| > 0 && p[0] != k
    ensures RemovePath(d[k := x], p) == RemovePath(d, p)[k := x]
  {
  }

  /** A key that no ignored path starts with passes through unchanged. */
  lemma {:induction false} RemoveFieldsUpdate(d: map<string, Value>, fields: seq<string>, k: string, x: Value)
    requires forall i | 0 <= i < |fields| :: |PathParts(fields[i])| > 0 && PathParts(fields[i])[0] != k
    ensures RemoveFields(d[k := x], fields) == RemoveFields(d, fields)[k := x]
    decreases |fields|
  {
    if |fields| > 0 {
      RemovePathUpdate(d, PathParts(fields[0]), k, x);
      RemoveFieldsUpdate(RemovePath(d, PathParts(fields[0])), fields[1..], k, x);
    }
  }

  /** Keys the legacy list never starts a path with. */
  predicate LegacyUntouched(k: string) {
    k !in IgnoredTopLevel && k != Metadata
  }

  lemma LegacyStartsElsewhere(k: string)
    requires LegacyUntouched(k)
    ensures forall i | 0 <= i < |LegacyIgnoredFields| ::
      |PathParts(LegacyIgnoredFields[i])| > 0 && PathParts(LegacyIgnoredFields[i])[0] != k
  {
    LegacyFieldParts();
  }

  lemma ReparseUpdate(c: map<string, Value>, k: string, x: Value)
    ensures Reparse(Map(c[k := x])) == Map(Reparse(Map(c)).entries[k := Reparse(x)])
  {
  }

  // ------------------------------------------------- the two checks compared

  /** Setting a key no ignored path starts with survives the legacy normaliser. */
  lemma LegacyRemoveUpdate(m: map<string, Value>, k: string, x: Value)
    requires LegacyUntouched(k)
    ensures RemoveFields(m[k := x], LegacyIgnoredFields) == RemoveFields(m, LegacyIgnoredFields)[k := x]
  {
    LegacyStartsElsewhere(k);
    RemoveFieldsUpdate(m, LegacyIgnoredFields, k, x);
  }

  /**
   * Two documents that differ in one such key are equivalent for the
   * legacy check exactly when the two values decode again alike.
   */
  lemma LegacyOneKeyDiffers(m: map<string, Value>, k: string, x: Value, y: Value)
    requires LegacyUntouched(k)
    ensures LegacyResourceYAMLEquivalent(Some(Map(m[k := x])), Some(Map(m[k := y]))) == Ok(Reparse(x) == Reparse(y))
  {
    var n := RemoveFields(m, LegacyIgnoredFields);
    LegacyEquivalentOf(m[k := x], m[k := y]);
    LegacyRemoveUpdate(m, k, x);
    LegacyRemoveUpdate(m, k, y);
    SameAfterUpdate(n, k, x, y);
  }

  /** Reparse of one mapping updated two ways agrees exactly when the two values do. */
  lemma SameAfterUpdate(n: map<string, Value>, k: string, x: Value, y: Value)
    ensures Reparse(Map(n[k := x])) == Reparse(Map(n[k := y])) <==> Reparse(x) == Reparse(y)
  {
    ReparseUpdate(n, k, x);
    ReparseUpdate(n, k, y);
    UpdateSame(Reparse(Map(n)).entries, k, Reparse(x), Reparse(y));
  }

  lemma UpdateSame(t: map<string, Value>, k: string, u: Value, w: Value)
    ensures Map(t[k := u]) == Map(t[k := w]) <==> u == w
  {
    if Map(t[k := u]) == Map(t[k := w]) {
      assert t[k := u][k] == t[k := w][k];
    }
  }

  /**
   * An int and the equal float: the legacy check calls them the same only
   * below 10^6 in magnitude, where the float is written without an exponent
   * and comes back as an int; the current check always does.
   */
  lemma IntAndFloatOnlyBelowMillion(m: map<string, Value>, k: string, i: int)
    requires LegacyUntouched(k) && InInt64(i)
    ensures LegacyResourceYAMLEquivalent(Some(Map(m[k := Int(i)])), Some(Map(m[k := Float(IntDecimal(i))])))
      == Ok(-1_000_000 < i < 1_000_000)
    ensures ResourceYAMLEquivalent(Some(Map(m[k := Int(i)])), Some(Map(m[k := Float(IntDecimal(i))]))) == Ok(true)
  {
    LegacyOneKeyDiffers(m, k, Int(i), Float(IntDecimal(i)));
    NormalizerLemmas.IntAndFloatEquivalent(m, k, i);
  }

  /**
   * Sequence order counts for the legacy check: the same two elements in
   * the other order make the documents differ.
   */
  lemma OrderCountsForLegacy(m: map<string, Value>, k: string, a: Value, b: Value)
    requires LegacyUntouched(k) && Reparse(a) != Reparse(b)
    ensures LegacyResourceYAMLEquivalent(Some(Map(m[k := List([a, b])])), Some(Map(m[k := List([b, a])]))) == Ok(false)
  {
    ReparsePair(a, b);
    ReparsePair(b, a);
    assert List([Reparse(a), Reparse(b)]).items[0] != List([Reparse(b), Reparse(a)]).items[0];
    LegacyOneKeyDiffers(m, k, List([a, b]), List([b, a]));
  }

  lemma ReparsePair(a: Value, b: Value)
    ensures Reparse(List([a, b])) == List([Reparse(a), Reparse(b)])
  {
  }

  lemma {:induction false} LookupReparse(d: map<string, Value>, q: seq<string>)
    requires |q| > 0
    ensures Lookup(Reparse(Map(d)).entries, q) ==
      if Lookup(d, q).None? then None else Some(Reparse(Lookup(d, q).value))
    decreases |q|
  {
    if |q| > 1 && q[0] in d && d[q[0]].Map? {
      LookupReparse(d[q[0]].entries, q[1..]);
    }
  }

  /** The legacy check on two mappings, with the normaliser unfolded. */
  lemma LegacyEquivalentOf(a: map<string, Value>, b: map<string, Value>)
    ensures LegacyResourceYAMLEquivalent(Some(Map(a)), Some(Map(b))) ==
      Ok(Reparse(Map(RemoveFields(a, LegacyIgnoredFields))) == Reparse(Map(RemoveFields(b, LegacyIgnoredFields))))
  {
    assert LegacyNormalizeYAML(Some(Map(a))) == Ok(RemoveFields(a, LegacyIgnoredFields));
    assert LegacyNormalizeYAML(Some(Map(b))) == Ok(RemoveFields(b, LegacyIgnoredFields));
  }

  /** The legacy normaliser keeps `metadata.name`. */
  lemma LegacyKeepsName(m: map<string, Value>, md: map<string, Value>, x: string)
    ensures Lookup(RemoveFields(m[Metadata := Map(md["name" := Str(x)])], LegacyIgnoredFields), [Metadata, "name"]) == Some(Str(x))
  {
    var q := [Metadata, "name"];
    var mx := m[Metadata := Map(md["name" := Str(x)])];
    assert Lookup(mx, q) == Some(Str(x)) by {
      assert q[1..] == ["name"];
    }
    NameOutsideLegacyFields();
    RemoveFieldsKeepsOthers(mx, LegacyIgnoredFields, q);
  }

  /** No field the legacy normaliser removes lies on the path to `metadata.name`. */
  lemma NameOutsideLegacyFields()
    ensures forall i | 0 <= i < |LegacyIgnoredFields| :: Diverge(PathParts(LegacyIgnoredFields[i]), [Metadata, "name"])
  {
    LegacyFieldParts();
    assert "name" !in LegacyIgnoredMetadata;
    assert Metadata !in IgnoredTopLevel;
  }

  /** The legacy check sees a change of `metadata.name`. */
  lemma NameCountsForLegacy(m: map<string, Value>, md: map<string, Value>, x: string, y: string)
    requires x != y
    ensures LegacyResourceYAMLEquivalent(
      Some(Map(m[Metadata := Map(md["name" := Str(x)])])),
      Some(Map(m[Metadata := Map(md["name" := Str(y)])]))) == Ok(false)
  {
    var q := [Metadata, "name"];
    var mx := m[Metadata := Map(md["name" := Str(x)])];
    var my := m[Metadata := Map(md["name" := Str(y)])];
    var nx, ny := RemoveFields(mx, LegacyIgnoredFields), RemoveFields(my, LegacyIgnoredFields);
    LegacyKeepsName(m, md, x);
    LegacyKeepsName(m, md, y);
    TextsApart(nx, ny, q, x, y);
    LegacyEquivalentOf(mx, my);
  }

  /** Different text at one path keeps two mappings apart after decoding again. */
  lemma TextsApart(d: map<string, Value>, e: map<string, Value>, q: seq<string>, x: string, y: string)
    requires |q| > 0 && x != y
    requires Lookup(d, q) == Some(Str(x)) && Lookup(e, q) == Some(Str(y))
    ensures Reparse(Map(d)) != Reparse(Map(e))
  {
    LookupReparse(d, q);
    LookupReparse(e, q);
  }

  /**
   * `metadata.name` still counts for the legacy check: two documents with
   * different names differ there, while the current check ignores it.
   */
  lemma NameCountsOnlyForLegacy(m: map<string, Value>, md: map<string, Value>, x: string, y: string)
    requires x != y
    ensures LegacyResourceYAMLEquivalent(
      Some(Map(m[Metadata := Map(md["name" := Str(x)])])),
      Some(Map(m[Metadata := Map(md["name" := Str(y)])]))) == Ok(false)
    ensures ResourceYAMLEquivalent(
      Some(Map(m[Metadata := Map(md["name" := Str(x)])])),
      Some(Map(m[Metadata := Map(md["name" := Str(y)])]))) == Ok(true)
  {
    NameCountsForLegacy(m, md, x, y);
    assert "name" in IgnoredMetadata;
    NormalizerLemmas.MetadataIgnoredFieldsIrrelevant(m, md, "name", Str(x), Str(y));
  }
}
