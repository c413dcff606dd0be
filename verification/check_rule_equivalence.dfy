/**
 * The check-rule round trip at the level of documents: a user's
 * PrometheusRule document, converted to a Dash0 record and back and
 * written as YAML, is ResourceYAMLEquivalent to what the user wrote.
 * This holds for documents of the shape the conversion can carry: one
 * group of one rule, durations written as text, annotation and label
 * values written as scalars, metadata holding only ignored fields.
 */
module CheckRuleEquivalence {
  import opened Wrappers
  import opened Text
  import opened Duration
  import opened Values
  import opened Compare
  import opened Sorting
  import opened Normalizer
  import opened CheckRuleTypes
  import opened CheckRuleConverter
  import opened CheckRuleRoundTrip
  import opened NormalizerDifferences
  import NormalizerLemmas
  import DurationFacts
  import DurationRoundTrip

  // -------------------------------------------------- comparing cleaned trees

  /** What the cleanup keeps under `k`: None when the entry is removed or dropped. */
  function CleanedAt(m: map<string, Value>, paths: seq<string>, k: string): Option<Value> {
    if k in m && !RemovedHere(paths, k) then CleanEntry(k, m[k], paths) else None
  }

  lemma AlikeReflexive(x: Value)
    ensures Alike(x, x)
  {
    EqualReflexive(NormalizeNumeric(Reparse(x)));
  }

  /** The form a cleaned value is compared in: re-decoded, numbers as floats. */
  function Norm(x: Value): Value {
    NormalizeNumeric(Reparse(x))
  }

  /** A mapping is compared entry by entry. */
  lemma NormMap(m: map<string, Value>)
    ensures Norm(Map(m)).Map? && Norm(Map(m)).entries.Keys == m.Keys
    ensures forall k | k in m :: Norm(Map(m)).entries[k] == Norm(m[k])
  {
    var r := Reparse(Map(m));
    assert r.Map? && r.entries.Keys == m.Keys;
    assert forall k | k in m :: r.entries[k] == Reparse(m[k]);
  }

  /** A one-element sequence is compared as its element. */
  lemma NormSingleton(a: Value)
    ensures Norm(List([a])) == List([Norm(a)])
  {
    assert Reparse(List([a])) == List([Reparse(a)]);
    assert NormalizeNumeric(List([Reparse(a)])) == List([Norm(a)]);
  }

  /** Two mappings whose entries clean alike key by key clean to alike mappings. */
  lemma CleanupAlike(x: map<string, Value>, px: seq<string>, y: map<string, Value>, py: seq<string>)
    requires forall k :: OptAlike(CleanedAt(x, px, k), CleanedAt(y, py, k))
    ensures Alike(Map(CleanupMap(x, px)), Map(CleanupMap(y, py)))
  {
    var cx, cy := CleanupMap(x, px), CleanupMap(y, py);
    forall k ensures k in cx <==> k in cy {
      assert OptAlike(CleanedAt(x, px, k), CleanedAt(y, py, k));
    }
    forall k | k in cx ensures Alike(cx[k], cy[k]) {
      assert OptAlike(CleanedAt(x, px, k), CleanedAt(y, py, k));
      assert CleanedAt(x, px, k) == Some(cx[k]) && CleanedAt(y, py, k) == Some(cy[k]);
    }
    AlikeEntries(cx, cy);
  }

  /** Mappings with the same keys and alike entries are alike. */
  lemma AlikeEntries(cx: map<string, Value>, cy: map<string, Value>)
    requires cx.Keys == cy.Keys
    requires forall k | k in cx :: Alike(cx[k], cy[k])
    ensures Alike(Map(cx), Map(cy))
  {
    NormMap(cx);
    NormMap(cy);
    var nx, ny := Norm(Map(cx)).entries, Norm(Map(cy)).entries;
    forall k | k in nx ensures Equal(nx[k], ny[k]) {
      assert Alike(cx[k], cy[k]);
    }
  }

  /** A cleaned mapping is empty in isEmpty's sense only when it has no keys. */
  lemma CleanedEmpty(c: map<string, Value>)
    requires CleanMap(c)
    ensures IsEmpty(c) <==> c == map[]
  {
    if c != map[] {
      var k :| k in c;
      assert Settled(k, c[k]);
    }
  }

  /** A mapping entry other than annotations and labels cleans alike when its contents do. */
  lemma MapEntryAlike(key: string, x: map<string, Value>, y: map<string, Value>, paths: seq<string>)
    requires !IsLabelsKey(key)
    requires Alike(Map(CleanupMap(x, Nested(paths, key))), Map(CleanupMap(y, Nested(paths, key))))
    ensures OptAlike(CleanEntry(key, Map(x), paths), CleanEntry(key, Map(y), paths))
  {
    var cx, cy := CleanupMap(x, Nested(paths, key)), CleanupMap(y, Nested(paths, key));
    PlainMapEntry(key, x, paths);
    PlainMapEntry(key, y, paths);
    KeptAlike(cx, cy);
  }

  /** A cleaned mapping as an entry: dropped when empty. */
  function Kept(c: map<string, Value>): Option<Value> {
    if c == map[] then None else Some(Map(c))
  }

  /** Alike mappings are kept or dropped together, having the same keys. */
  lemma KeptAlike(cx: map<string, Value>, cy: map<string, Value>)
    requires Alike(Map(cx), Map(cy))
    ensures OptAlike(Kept(cx), Kept(cy))
  {
    NormMap(cx);
    NormMap(cy);
    assert cx.Keys == cy.Keys;
  }

  /** What the cleanup makes of a mapping under a key other than annotations and labels. */
  lemma PlainMapEntry(key: string, x: map<string, Value>, paths: seq<string>)
    requires !IsLabelsKey(key)
    ensures CleanEntry(key, Map(x), paths) == Kept(CleanupMap(x, Nested(paths, key)))
  {
    CleanedEmpty(CleanupMap(x, Nested(paths, key)));
  }

  lemma SortSingleton(x: Value)
    ensures SortByText(Render, [x]) == [x]
  {
    var r := SortByText(Render, [x]);
    assert r[0] in [x];
  }

  /** One-element sequences compare as their elements. */
  lemma SingletonListAlike(a: Value, b: Value)
    requires Alike(a, b)
    ensures Alike(List([a]), List([b]))
  {
    NormSingleton(a);
    NormSingleton(b);
    SortSingleton(Norm(a));
    SortSingleton(Norm(b));
    assert Equal(Norm(a), Norm(b));
  }

  /** Two texts of the same duration compare alike. */
  lemma DurationsAlike(s: string, t: string)
    requires Parse(s).Some? && Parse(s) == Parse(t)
    ensures Alike(Str(s), Str(t))
  {
  }

  /** Go's text of a duration is never empty, and parses back to it. */
  lemma FormatBack(d: Nanos)
    ensures Parse(Format(d)) == Some(d) && Format(d) != ""
  {
    DurationRoundTrip.ParseFormat(d);
    DurationFacts.ParseEmptyText();
  }

  // --------------------------------------------------------- the user's shape

  /** A key that is absent or holds a string. */
  predicate TextOrAbsent(m: map<string, Value>, key: string) {
    key in m ==> m[key].Str?
  }

  /** A key that holds the text of a duration. */
  predicate DurationAt(m: map<string, Value>, key: string) {
    key in m && m[key].Str? && Parse(m[key].s).Some?
  }

  /**
   * Annotation and label values written as strings. An unquoted scalar
   * would reach the Go string field as its source text (`1.50`, `True`),
   * which the cleanup's `%v` text of the same value need not match.
   */
  predicate QuotedTexts(m: map<string, Value>) {
    forall k | k in m :: m[k].Str?
  }

  predicate TextMapOrAbsent(m: map<string, Value>, key: string) {
    key in m ==> m[key].Map? && QuotedTexts(m[key].entries)
  }

  /**
   * A rule as a user writes it for the conversion: only the fields the
   * typed rule has, `for` always given, every duration as text.
   */
  predicate UserRule(r: map<string, Value>) {
    r.Keys <= {"alert", "expr", "for", KeepFiringFor, Annotations, Labels} &&
    TextOrAbsent(r, "alert") && TextOrAbsent(r, "expr") && DurationAt(r, "for") &&
    (KeepFiringFor in r ==> DurationAt(r, KeepFiringFor)) &&
    TextMapOrAbsent(r, Annotations) && TextMapOrAbsent(r, Labels)
  }

  /** A group as a user writes it: an interval given as text, exactly one rule. */
  predicate UserGroup(g: map<string, Value>) {
    g.Keys <= {"name", "interval", "rules"} &&
    TextOrAbsent(g, "name") && DurationAt(g, "interval") &&
    "rules" in g && g["rules"].List? && |g["rules"].items| == 1 &&
    g["rules"].items[0].Map? && UserRule(g["rules"].items[0].entries)
  }

  /** Metadata holding only fields the comparison ignores, as scalars. */
  predicate IgnoredOnly(m: map<string, Value>) {
    (forall k | k in m :: k in IgnoredMetadata) && ScalarEntries(m)
  }

  predicate ScalarOrAbsent(m: map<string, Value>, key: string) {
    key in m ==> !(m[key].List? || m[key].Map?)
  }

  /** A PrometheusRule document of one group of one rule, in the shape above. */
  predicate UserDocument(v: Value) {
    v.Map? &&
    var d := v.entries;
    d.Keys <= {"apiVersion", "kind", Metadata, "spec"} &&
    ScalarOrAbsent(d, "apiVersion") && ScalarOrAbsent(d, "kind") &&
    (Metadata in d ==> d[Metadata].Map? && IgnoredOnly(d[Metadata].entries)) &&
    "spec" in d && d["spec"].Map? && d["spec"].entries.Keys == {"groups"} &&
    d["spec"].entries["groups"].List? && |d["spec"].entries["groups"].items| == 1 &&
    d["spec"].entries["groups"].items[0].Map? &&
    UserGroup(d["spec"].entries["groups"].items[0].entries)
  }

  // ---------------------------------------------------------- typed decoding

  /** The text under `key`, "" when absent. */
  function TextAt(m: map<string, Value>, key: string): string
    requires TextOrAbsent(m, key)
  {
    if key in m then m[key].s else ""
  }

  /** The texts of a scalar mapping, as a `map[string]string` field decodes it. */
  function Texts(n: map<string, Value>): StringMap
    requires ScalarEntries(n)
  {
    map k | k in n :: DecodeString(n[k]).value
  }

  /** Quoted texts are exactly what writing their Go strings back gives. */
  lemma QuotedEncoded(n: map<string, Value>)
    requires QuotedTexts(n)
    ensures EncodeStringMap(Some(Texts(n))).entries == n
  {
  }

  function TextsAt(m: map<string, Value>, key: string): Option<StringMap>
    requires TextMapOrAbsent(m, key)
  {
    if key in m then Some(Texts(m[key].entries)) else None
  }

  /** The typed rule a user rule decodes to. */
  function RuleOf(r: map<string, Value>): Rule
    requires UserRule(r)
  {
    Rule(TextAt(r, "alert"), TextAt(r, "expr"), Parse(r["for"].s).value,
      if KeepFiringFor in r then Parse(r[KeepFiringFor].s).value else 0,
      TextsAt(r, Annotations), TextsAt(r, Labels))
  }

  function GroupOf(g: map<string, Value>): RuleGroup
    requires UserGroup(g)
  {
    RuleGroup(TextAt(g, "name"), Parse(g["interval"].s).value, [RuleOf(g["rules"].items[0].entries)])
  }

  lemma DecodeTextAt(m: map<string, Value>, key: string)
    requires TextOrAbsent(m, key)
    ensures DecodeString(Field(m, key)) == Ok(TextAt(m, key))
  {
  }

  lemma DecodeTextsAt(m: map<string, Value>, key: string)
    requires TextMapOrAbsent(m, key)
    ensures DecodeStringMap(Field(m, key)) == Ok(TextsAt(m, key))
  {
  }

  lemma DecodeUserRule(r: map<string, Value>)
    requires UserRule(r)
    ensures DecodeRule(Map(r)) == Ok(Some(RuleOf(r)))
  {
    DecodeTextAt(r, "alert");
    DecodeTextAt(r, "expr");
    DecodeTextsAt(r, Annotations);
    DecodeTextsAt(r, Labels);
  }

  lemma DecodeUserGroup(g: map<string, Value>)
    requires UserGroup(g)
    ensures DecodeGroup(Map(g)) == Ok(Some(GroupOf(g)))
  {
    var r := g["rules"].items[0].entries;
    DecodeTextAt(g, "name");
    DecodeUserRule(r);
    var l := DecodeRuleList(g["rules"].items);
    NonNullKeeps(g["rules"].items);
    assert l.Ok? && |l.value| == 1 && l.value[0] == RuleOf(r);
    assert l.value == [RuleOf(r)];
  }

  lemma DecodeUserDocument(v: Value)
    requires UserDocument(v)
    ensures DecodePrometheusRules(v).Ok?
    ensures DecodePrometheusRules(v).value.groups == [GroupOf(v.entries["spec"].entries["groups"].items[0].entries)]
  {
    var d := v.entries;
    var g := d["spec"].entries["groups"].items[0].entries;
    DecodeUserGroup(g);
    var l := DecodeGroupList(d["spec"].entries["groups"].items);
    NonNullKeeps(d["spec"].entries["groups"].items);
    assert l.Ok? && |l.value| == 1 && l.value[0] == GroupOf(g);
    assert l.value == [GroupOf(g)];
  }

  // ------------------------------------------------- annotations and labels

  /** A text the cleanup keeps under `k`: not empty, and not a zero `keep_firing_for`. */
  predicate KeptText(k: string, s: string) {
    s != "" && !(k == KeepFiringFor && ZeroDuration(s))
  }

  /** What the cleanup keeps of a mapping of texts. */
  lemma EncodedTexts(t: StringMap)
    ensures var c := CleanupMap(EncodeStringMap(Some(t)).entries, []);
      forall k :: (k in c <==> k in t && KeptText(k, t[k])) && (k in c ==> c[k] == Str(t[k]))
  {
    var e := EncodeStringMap(Some(t)).entries;
    forall k | k in e ensures e[k] == Str(t[k]) {
    }
  }

  /** Stringifying the cleaned user texts gives the cleaned texts written back. */
  lemma StringifiedTexts(n: map<string, Value>)
    requires QuotedTexts(n)
    ensures Stringify(CleanupMap(n, [])) == CleanupMap(EncodeStringMap(Some(Texts(n))).entries, [])
  {
    QuotedEncoded(n);
    TextsStayTexts(Texts(n));
  }

  /** Cleaned texts are left as they are by stringifying. */
  lemma TextsStayTexts(t: StringMap)
    ensures var e := CleanupMap(EncodeStringMap(Some(t)).entries, []); Stringify(e) == e
  {
    EncodedTexts(t);
  }

  /** Dropping the default entries first changes nothing once defaults are removed. */
  lemma DefaultsDroppedFirst(t: StringMap)
    ensures RemoveDefaults(CleanupMap(EncodeStringMap(Some(t)).entries, [])) ==
      RemoveDefaults(CleanupMap(EncodeStringMap(DropDefaults(Some(t))).entries, []))
  {
    var u := DropDefaults(Some(t)).value;
    var a := CleanupMap(EncodeStringMap(Some(t)).entries, []);
    var b := CleanupMap(EncodeStringMap(Some(u)).entries, []);
    EncodedTexts(t);
    EncodedTexts(u);
    forall k ensures (k in a && !IsDefaultAnnotation(k, a[k])) <==> (k in b && !IsDefaultAnnotation(k, b[k])) {
    }
    SameOutsideDefaults(a, b);
  }

  /** Two mappings that agree on their entries that are not defaults lose their differences with the defaults. */
  lemma SameOutsideDefaults(a: map<string, Value>, b: map<string, Value>)
    requires forall k :: (k in a && !IsDefaultAnnotation(k, a[k])) <==> (k in b && !IsDefaultAnnotation(k, b[k]))
    requires forall k | k in a && k in b :: a[k] == b[k]
    ensures RemoveDefaults(a) == RemoveDefaults(b)
  {
    assert RemoveDefaults(a).Keys == RemoveDefaults(b).Keys;
  }

  /** The annotations of the user's rule and of the rule that comes back clean alike. */
  lemma AnnotationsAlike(r: map<string, Value>)
    requires TextMapOrAbsent(r, Annotations)
    ensures OptAlike(CleanedAt(r, [], Annotations),
      CleanEntry(Annotations, EncodeStringMap(DropDefaults(TextsAt(r, Annotations))), []))
  {
    if Annotations in r {
      var n := r[Annotations].entries;
      var t := Texts(n);
      var back := EncodeStringMap(DropDefaults(Some(t))).entries;
      NormalizerLemmas.AnnotationsEntry([], n);
      NormalizerLemmas.AnnotationsEntry([], back);
      StringifiedTexts(n);
      TextsStayTexts(DropDefaults(Some(t)).value);
      DefaultsDroppedFirst(t);
      assert CleanedAt(r, [], Annotations) == CleanEntry(Annotations, Map(back), []);
      if CleanEntry(Annotations, Map(back), []).Some? {
        AlikeReflexive(CleanEntry(Annotations, Map(back), []).value);
      }
    } else {
      assert CleanupMap(map[], []) == map[];
    }
  }

  /** The labels of the user's rule and of the rule that comes back clean alike. */
  lemma LabelsAlike(r: map<string, Value>)
    requires TextMapOrAbsent(r, Labels)
    ensures OptAlike(CleanedAt(r, [], Labels), CleanEntry(Labels, EncodeStringMap(TextsAt(r, Labels)), []))
  {
    if Labels in r {
      var n := r[Labels].entries;
      var back := EncodeStringMap(Some(Texts(n))).entries;
      StringifiedTexts(n);
      TextsStayTexts(Texts(n));
      NormalizerLemmas.LabelsEntryOfText(Labels, [], n, back);
      assert CleanedAt(r, [], Labels) == CleanEntry(Labels, Map(back), []);
      if CleanEntry(Labels, Map(back), []).Some? {
        AlikeReflexive(CleanEntry(Labels, Map(back), []).value);
      }
    } else {
      assert CleanupMap(map[], []) == map[];
    }
  }

  // ------------------------------------------------------------ field by field

  /** A text field and the text written back for it clean alike. */
  lemma TextAlike(m: map<string, Value>, key: string)
    requires TextOrAbsent(m, key) && key != KeepFiringFor
    ensures OptAlike(CleanedAt(m, [], key), CleanEntry(key, Str(TextAt(m, key)), []))
  {
    if key in m && m[key].s != "" {
      AlikeReflexive(m[key]);
    }
  }

  /** A duration field and Go's text of its value clean alike. */
  lemma DurationFieldAlike(m: map<string, Value>, key: string)
    requires DurationAt(m, key) && key != KeepFiringFor
    ensures OptAlike(CleanedAt(m, [], key), CleanEntry(key, EncodeDuration(Parse(m[key].s).value), []))
  {
    var s := m[key].s;
    FormatBack(Parse(s).value);
    DurationFacts.ParseEmptyText();
    DurationsAlike(s, Format(Parse(s).value));
  }

  /**
   * `keep_firing_for`: absent or zero on the user's side, left out on the
   * way back; otherwise Go's text of the same duration.
   */
  lemma KeepFiringForAlike(r: map<string, Value>, e: map<string, Value>)
    requires KeepFiringFor in r ==> DurationAt(r, KeepFiringFor)
    requires var d := if KeepFiringFor in r then Parse(r[KeepFiringFor].s).value else 0;
      (d == 0 ==> KeepFiringFor !in e) && (d != 0 ==> KeepFiringFor in e && e[KeepFiringFor] == EncodeDuration(d))
    ensures OptAlike(CleanedAt(r, [], KeepFiringFor), CleanedAt(e, [], KeepFiringFor))
  {
    if KeepFiringFor in r {
      var s := r[KeepFiringFor].s;
      var d := Parse(s).value;
      DurationFacts.ParseEmptyText();
      if d != 0 {
        FormatBack(d);
        DurationsAlike(s, Format(d));
      }
    }
  }

  /** The user's rule and the rule that comes back, written as YAML, clean alike. */
  lemma RuleAlike(r: map<string, Value>)
    requires UserRule(r)
    ensures Alike(Map(CleanupMap(r, [])), Map(CleanupMap(EncodeRule(RuleBack(r)).entries, [])))
  {
    var e := EncodeRule(RuleBack(r)).entries;
    forall k ensures OptAlike(CleanedAt(r, [], k), CleanedAt(e, [], k)) {
      RuleKeyAlike(r, k);
    }
    CleanupAlike(r, [], e, []);
  }

  lemma RuleKeyAlike(r: map<string, Value>, k: string)
    requires UserRule(r)
    ensures OptAlike(CleanedAt(r, [], k), CleanedAt(EncodeRule(RuleBack(r)).entries, [], k))
  {
    if k == "alert" || k == "expr" || k == "for" || k == KeepFiringFor {
      RuleScalarAlike(r, k);
    } else if k == Annotations || k == Labels {
      RuleMapAlike(r, k);
    } else {
      assert k !in r && k !in EncodeRule(RuleBack(r)).entries;
    }
  }

  lemma RuleScalarAlike(r: map<string, Value>, k: string)
    requires UserRule(r) && (k == "alert" || k == "expr" || k == "for" || k == KeepFiringFor)
    ensures OptAlike(CleanedAt(r, [], k), CleanedAt(EncodeRule(RuleBack(r)).entries, [], k))
  {
    var e := EncodeRule(RuleBack(r)).entries;
    if k == "for" {
      DurationFieldAlike(r, k);
    } else if k == KeepFiringFor {
      KeepFiringForAlike(r, e);
    } else {
      TextAlike(r, k);
    }
  }

  lemma RuleMapAlike(r: map<string, Value>, k: string)
    requires UserRule(r) && (k == Annotations || k == Labels)
    ensures OptAlike(CleanedAt(r, [], k), CleanedAt(EncodeRule(RuleBack(r)).entries, [], k))
  {
    if k == Annotations {
      AnnotationsAlike(r);
    } else {
      LabelsAlike(r);
    }
  }

  /** The rule that comes back for a user rule: its default annotations dropped. */
  function RuleBack(r: map<string, Value>): Rule
    requires UserRule(r)
  {
    RuleOf(r).(annotations := DropDefaults(RuleOf(r).annotations))
  }

  function GroupBack(g: map<string, Value>): RuleGroup
    requires UserGroup(g)
  {
    GroupOf(g).(rules := [RuleBack(g["rules"].items[0].entries)])
  }

  /** A one-mapping sequence is kept with its mapping cleaned from the top. */
  lemma SingletonEntry(key: string, x: map<string, Value>, paths: seq<string>)
    ensures CleanEntry(key, List([Map(x)]), paths) == Some(List([Map(CleanupMap(x, []))]))
  {
    var items := [Map(x)];
    var cleaned := seq(|items|, i requires 0 <= i < |items| =>
      if items[i].Map? then Map(CleanupMap(items[i].entries, [])) else items[i]);
    assert cleaned == [Map(CleanupMap(x, []))];
  }

  /** Sequences holding one alike cleaned mapping each clean alike. */
  lemma SingletonEntriesAlike(key: string, x: map<string, Value>, y: map<string, Value>)
    requires Alike(Map(CleanupMap(x, [])), Map(CleanupMap(y, [])))
    ensures OptAlike(CleanEntry(key, List([Map(x)]), []), CleanEntry(key, List([Map(y)]), []))
  {
    SingletonEntry(key, x, []);
    SingletonEntry(key, y, []);
    SingletonListAlike(Map(CleanupMap(x, [])), Map(CleanupMap(y, [])));
  }

  /** The user's group and the group that comes back clean alike. */
  lemma GroupAlike(g: map<string, Value>)
    requires UserGroup(g)
    ensures Alike(Map(CleanupMap(g, [])), Map(CleanupMap(EncodeGroup(GroupBack(g)).entries, [])))
  {
    var e := EncodeGroup(GroupBack(g)).entries;
    forall k ensures OptAlike(CleanedAt(g, [], k), CleanedAt(e, [], k)) {
      GroupKeyAlike(g, k);
    }
    CleanupAlike(g, [], e, []);
  }

  lemma GroupKeyAlike(g: map<string, Value>, k: string)
    requires UserGroup(g)
    ensures OptAlike(CleanedAt(g, [], k), CleanedAt(EncodeGroup(GroupBack(g)).entries, [], k))
  {
    var e := EncodeGroup(GroupBack(g)).entries;
    if k == "name" {
      TextAlike(g, k);
    } else if k == "interval" {
      DurationFieldAlike(g, k);
    } else if k == "rules" {
      var r := g["rules"].items[0].entries;
      assert g[k] == List([Map(r)]);
      assert e[k] == List([EncodeRule(RuleBack(r))]);
      RuleAlike(r);
      SingletonEntriesAlike(k, r, EncodeRule(RuleBack(r)).entries);
    } else {
      assert k !in g && k !in e;
    }
  }

  // ---------------------------------------------------------------- documents

  /** The group of a user document. */
  function GroupIn(v: Value): map<string, Value>
    requires UserDocument(v)
  {
    v.entries["spec"].entries["groups"].items[0].entries
  }

  /** The `spec` written back for a user document. */
  function SpecBack(v: Value): map<string, Value>
    requires UserDocument(v)
  {
    map["groups" := List([EncodeGroup(GroupBack(GroupIn(v)))])]
  }

  /** The user's `spec` and the `spec` written back clean alike. */
  lemma SpecAlike(v: Value)
    requires UserDocument(v)
    ensures Alike(Map(CleanupMap(v.entries["spec"].entries, [])), Map(CleanupMap(SpecBack(v), [])))
  {
    var spec, back := v.entries["spec"].entries, SpecBack(v);
    forall k ensures OptAlike(CleanedAt(spec, [], k), CleanedAt(back, [], k)) {
      if k == "groups" {
        var g := GroupIn(v);
        assert spec[k] == List([Map(g)]);
        GroupAlike(g);
        SingletonEntriesAlike(k, g, EncodeGroup(GroupBack(g)).entries);
      } else {
        assert k !in spec && k !in back;
      }
    }
    CleanupAlike(spec, [], back, []);
  }

  /**
   * TestCheckRuleRoundTripEquivalence in general: a user document of the
   * shape above whose group name splits back off and whose thresholds and
   * enabled flag are written as the conversion writes them (or as the
   * defaults) converts to a record that converts back to an equivalent
   * document.
   */
  lemma UserDocumentRoundTrip(v: Value, p: PrometheusRules, dataset: string)
    requires UserDocument(v) && DecodePrometheusRules(v) == Ok(p)
    requires |p.groups| == 1 && |p.groups[0].rules| == 1
    requires SplitsBack(p.groups[0].name)
    requires LooseCanonical(p.groups[0].rules[0].annotations)
    ensures FromRules(p, dataset).Ok?
    ensures var d := FromRules(p, dataset).value;
      (d.annotations.Some? || !WritesAnnotations(d)) &&
      ResourceYAMLEquivalent(Some(v), Some(EncodePrometheusRules(ToRules(d)))) == Ok(true)
  {
    LooseRulesRoundTrip(p, dataset);
    var d := FromRules(p, dataset).value;
    var back := EncodePrometheusRules(ToRules(d)).entries;
    BackOfDocument(v, p, ToRules(d));
    var top := v.entries;
    forall k ensures OptAlike(CleanedAt(top, IgnoredFields, k), CleanedAt(back, IgnoredFields, k)) {
      TopLevelAlike(v, back, k);
    }
    CleanupAlike(top, IgnoredFields, back, IgnoredFields);
    assert NormalizeYAML(Some(v)) == Ok(CleanupMap(top, IgnoredFields));
    assert NormalizeYAML(Some(Map(back))) == Ok(CleanupMap(back, IgnoredFields));
  }

  /** The document written back: the fixed header, no metadata, the group that comes back. */
  lemma BackOfDocument(v: Value, p: PrometheusRules, q: PrometheusRules)
    requires UserDocument(v) && DecodePrometheusRules(v) == Ok(p)
    requires |p.groups| == 1 && |p.groups[0].rules| == 1
    requires q == Header(Dropped(p))
    ensures var back := EncodePrometheusRules(q).entries;
      back.Keys == {"apiVersion", "kind", Metadata, "spec"} &&
      back[Metadata] == Map(map[]) && back["spec"] == Map(SpecBack(v))
  {
    DecodeUserDocument(v);
    var g := GroupIn(v);
    assert p.groups == [GroupOf(g)];
    assert Dropped(p).groups == [GroupBack(g)];
    assert q.groups == [GroupBack(g)];
    assert EncodeGroupList(q.groups) == [EncodeGroup(GroupBack(g))];
  }

  /** The top level, key by key: the header is ignored, metadata cleans away, spec as shown. */
  lemma TopLevelAlike(v: Value, back: map<string, Value>, k: string)
    requires UserDocument(v)
    requires back.Keys == {"apiVersion", "kind", Metadata, "spec"}
    requires back[Metadata] == Map(map[]) && back["spec"] == Map(SpecBack(v))
    ensures OptAlike(CleanedAt(v.entries, IgnoredFields, k), CleanedAt(back, IgnoredFields, k))
  {
    var top := v.entries;
    if k == "spec" {
      SpecAlike(v);
      SpecEntryAlike(top, back, top["spec"].entries, SpecBack(v));
    } else if k == Metadata {
      MetadataNested();
      MetadataCleansAway(top, back, IgnoredFields);
    } else {
      HeaderIgnored(top, back, k);
    }
  }

  /** Keys other than the four of a document: the header is removed, anything else absent. */
  lemma HeaderIgnored(top: map<string, Value>, back: map<string, Value>, k: string)
    requires top.Keys <= {"apiVersion", "kind", Metadata, "spec"}
    requires back.Keys <= {"apiVersion", "kind", Metadata, "spec"}
    requires k != Metadata && k != "spec"
    ensures CleanedAt(top, IgnoredFields, k).None? && CleanedAt(back, IgnoredFields, k).None?
  {
    if k in top || k in back {
      HeaderRemoved(k);
    }
  }

  /** `apiVersion` and `kind` are removed at the top level. */
  lemma HeaderRemoved(k: string)
    requires k == "apiVersion" || k == "kind"
    ensures RemovedHere(IgnoredFields, k)
  {
    assert IgnoredFields[0] == "apiVersion" && IgnoredFields[1] == "kind";
  }

  /** `spec` is not removed, and nothing below it is. */
  lemma SpecNotIgnored()
    ensures !RemovedHere(IgnoredFields, "spec") && Nested(IgnoredFields, "spec") == []
  {
    SpecKept();
    NothingIgnoredUnder("spec");
  }

  lemma SpecKept()
    ensures !RemovedHere(IgnoredFields, "spec")
  {
    NormalizerLemmas.IgnoredFieldsSplit();
  }

  /** Below `metadata` the ignored metadata fields are removed. */
  lemma MetadataNested()
    ensures Nested(IgnoredFields, Metadata) == IgnoredMetadata
  {
    NormalizerLemmas.IgnoredFieldsSplit();
  }

  lemma SpecEntryAlike(top: map<string, Value>, back: map<string, Value>,
                       spec: map<string, Value>, backSpec: map<string, Value>)
    requires "spec" in top && top["spec"] == Map(spec)
    requires "spec" in back && back["spec"] == Map(backSpec)
    requires Alike(Map(CleanupMap(spec, [])), Map(CleanupMap(backSpec, [])))
    ensures OptAlike(CleanedAt(top, IgnoredFields, "spec"), CleanedAt(back, IgnoredFields, "spec"))
  {
    SpecNotIgnored();
    MapEntryAlike("spec", spec, backSpec, IgnoredFields);
  }

  /** Both documents' metadata is dropped: only ignored fields, or nothing at all. */
  lemma MetadataCleansAway(top: map<string, Value>, back: map<string, Value>, paths: seq<string>)
    requires Nested(paths, Metadata) == IgnoredMetadata
    requires Metadata in top ==> top[Metadata].Map? && IgnoredOnly(top[Metadata].entries)
    requires Metadata in back && back[Metadata] == Map(map[])
    ensures CleanedAt(top, paths, Metadata).None?
    ensures CleanedAt(back, paths, Metadata).None?
  {
    MetadataEntryDropped(map[], paths);
    if Metadata in top {
      MetadataEntryDropped(top[Metadata].entries, paths);
    }
  }

  lemma MetadataEntryDropped(m: map<string, Value>, paths: seq<string>)
    requires Nested(paths, Metadata) == IgnoredMetadata
    requires IgnoredOnly(m)
    ensures CleanEntry(Metadata, Map(m), paths).None?
  {
    IgnoredOnlyCleansAway(m);
    PlainMapEntry(Metadata, m, paths);
  }

  /** Metadata holding only ignored fields cleans to nothing. */
  lemma IgnoredOnlyCleansAway(m: map<string, Value>)
    requires IgnoredOnly(m)
    ensures CleanupMap(m, IgnoredMetadata) == map[]
  {
    NormalizerLemmas.MetadataNamesPlain();
    forall k | k in m ensures RemovedHere(IgnoredMetadata, k) {
    }
  }
}
