/**
 * converter/normalizer.go: the cleanup that makes two resource YAMLs
 * comparable (ignored fields, empty values, stringified annotations and
 * labels, default annotations, a zero `keep_firing_for`), the numeric
 * normalisation, and ResourceYAMLEquivalent on top of the comparator.
 *
 * YAML text is not modelled: a document is given as the tree the decoder
 * produced (None for text that is not YAML at all), and encoding the
 * cleaned tree and decoding it again is the function Reparse.
 */
module Normalizer {
  import opened Wrappers
  import opened Text
  import opened Duration
  import opened Values
  import opened Compare

  /** Top-level fields ignored when resource YAMLs are compared. */
  const IgnoredTopLevel: seq<string> := ["apiVersion", "kind"]

  const Metadata: string := "metadata"

  /** Fields below `metadata` ignored when resource YAMLs are compared. */
  const IgnoredMetadata: seq<string> :=
    ["labels", "annotations", "createdAt", "updatedAt", "version", "dash0Extensions", "name"]

  /**
   * ignoredFields as dot-separated paths: `apiVersion`, `kind`, then
   * `metadata.labels` ... `metadata.name` in that order.
   */
  const IgnoredFields: seq<string> := IgnoredTopLevel + UnderKey(Metadata, IgnoredMetadata)

  /** `key.r` for every remainder `r`, in order. */
  function UnderKey(key: string, rests: seq<string>): (r: seq<string>)
    ensures |r| == |rests|
    ensures forall i | 0 <= i < |r| :: r[i] == key + "." + rests[i]
  {
    if |rests| == 0 then [] else [key + "." + rests[0]] + UnderKey(key, rests[1..])
  }

  const KeepFiringFor: string := "keep_firing_for"
  const Annotations: string := "annotations"
  const Labels: string := "labels"
  const ThresholdCritical: string := "dash0-threshold-critical"
  const ThresholdDegraded: string := "dash0-threshold-degraded"
  const EnabledKey: string := "dash0-enabled"

  // ------------------------------------------------------------ field paths

  /** A path without a '.' removes the key of that name at this level. */
  predicate RemovedHere(paths: seq<string>, key: string) {
    key in paths && '.' !in key
  }

  /**
   * The remainders of the paths whose first segment is `key`: what the
   * cleanup removes inside the value under `key`.
   */
  function Nested(paths: seq<string>, key: string): (r: seq<string>)
    ensures forall q | q in r :: '.' !in key && key + "." + q in paths
  {
    if |paths| == 0 then []
    else
      var p := paths[0];
      var rest := Nested(paths[1..], key);
      if '.' in p then
        var i := FirstIndexOf(p, '.');
        if p[..i] == key then
          assert p == key + "." + p[i + 1..];
          [p[i + 1..]] + rest
        else rest
      else rest
  }

  // ----------------------------------------------------------- empty values

  /** isEmpty: every value of the map is itself blank (so the empty map is). */
  predicate IsEmpty(m: map<string, Value>)
    decreases Map(m), 0
  {
    forall k | k in m :: Blank(m[k])
  }

  /** A value isEmpty accepts: an empty map, sequence or string. */
  predicate Blank(v: Value)
    decreases v, 1
  {
    match v
    case Map(n) => IsEmpty(n)
    case List(a) => |a| == 0
    case Str(s) => s == ""
    case _ => false
  }

  // ---------------------------------------------------- annotations, labels

  predicate IsLabelsKey(k: string) {
    k == Annotations || k == Labels
  }

  predicate AllStrings(m: map<string, Value>) {
    forall k | k in m :: m[k].Str?
  }

  /**
   * stringifyMapValues: every value that is not a string becomes its `%v`
   * text; strings and keys stay as they are.
   */
  function Stringify(m: map<string, Value>): (r: map<string, Value>)
    ensures r.Keys == m.Keys
    ensures AllStrings(r)
    ensures forall k | k in m && m[k].Str? :: r[k] == m[k]
  {
    map k | k in m :: if m[k].Str? then m[k] else Str(Render(m[k]))
  }

  /** An annotation whose value is the default the rule converter omits. */
  predicate IsDefaultAnnotation(k: string, v: Value) {
    v.Str? &&
    (((k == ThresholdCritical || k == ThresholdDegraded) && v.s == "0") ||
     (k == EnabledKey && v.s == "true"))
  }

  predicate NoDefaults(m: map<string, Value>) {
    forall k | k in m :: !IsDefaultAnnotation(k, m[k])
  }

  /** removeDefaultAnnotationValues: drops exactly the default annotations. */
  function RemoveDefaults(m: map<string, Value>): (r: map<string, Value>)
    ensures NoDefaults(r)
    ensures forall k | k in m && !IsDefaultAnnotation(k, m[k]) :: k in r && r[k] == m[k]
    ensures forall k | k in r :: k in m
  {
    map k | k in m && !IsDefaultAnnotation(k, m[k]) :: m[k]
  }

  /** A duration text that denotes zero ("0", "0s", "0h0m", "-0s", ...). */
  predicate ZeroDuration(s: string) {
    var d := Parse(s);
    d.Some? && d.value == 0
  }

  // ------------------------------------------------------- the cleaned form

  /**
   * What the cleanup guarantees of every map it returns: no blank value,
   * annotations and labels hold only strings, annotations hold no default,
   * and the same below every map and every map inside a sequence.
   */
  predicate CleanMap(m: map<string, Value>)
    decreases Map(m), 0
  {
    forall k | k in m :: Settled(k, m[k])
  }

  predicate Settled(k: string, v: Value)
    decreases v, 1
  {
    !Blank(v) &&
    (IsLabelsKey(k) && v.Map? ==> AllStrings(v.entries)) &&
    (k == Annotations && v.Map? ==> NoDefaults(v.entries)) &&
    match v
    case Map(n) => CleanMap(n)
    case List(a) => forall i | 0 <= i < |a| :: a[i].Map? ==> CleanMap(a[i].entries)
    case _ => true
  }

  // ------------------------------------------------------------ the cleanup

  /**
   * cleanupMap: every key named by a one-segment path goes; every other
   * entry is cleaned by CleanEntry and goes when that reports it empty.
   */
  function CleanupMap(data: map<string, Value>, paths: seq<string>): (r: map<string, Value>)
    ensures CleanMap(r)
    ensures forall k | k in r :: k in data && !RemovedHere(paths, k)
    decreases Map(data), 0
  {
    map k | k in data && !RemovedHere(paths, k) && CleanEntry(k, data[k], paths).Some?
      :: CleanEntry(k, data[k], paths).value
  }

  /**
   * The body of cleanupMap's loop for one entry that is not removed by
   * path: None when the entry is deleted, else its cleaned value.
   * - a map is cleaned with the nested paths, stringified under
   *   `annotations` / `labels`, stripped of defaults under `annotations`,
   *   and deleted when it is then empty;
   * - a sequence has each of its maps cleaned (with no paths) and is
   *   deleted when it has no elements;
   * - a string is deleted when empty, or under `keep_firing_for` when it
   *   is a zero duration;
   * - anything else stays.
   */
  function CleanEntry(key: string, v: Value, paths: seq<string>): (r: Option<Value>)
    ensures r.Some? ==> Settled(key, r.value)
    ensures v.Str? ==> (r.None? <==> v.s == "" || (key == KeepFiringFor && ZeroDuration(v.s)))
    ensures v.Str? && r.Some? ==> r.value == v
    ensures v.List? ==> (r.None? <==> |v.items| == 0)
    ensures v.List? && r.Some? ==> r.value.List? && |r.value.items| == |v.items|
    ensures (v.Null? || v.Bool? || v.Int? || v.Float?) ==> r == Some(v)
    ensures v.Map? && r.Some? ==>
      (r.value.Map? && forall k | k in r.value.entries :: k in v.entries && !RemovedHere(Nested(paths, key), k))
    decreases v, 1
  {
    match v
    case Map(m) =>
      var c := CleanupMap(m, Nested(paths, key));
      var s := if IsLabelsKey(key) then Stringify(c) else c;
      var d := if key == Annotations then RemoveDefaults(s) else s;
      StringifyClean(c);
      RemoveDefaultsClean(s);
      if IsEmpty(d) then None else Some(Map(d))
    case List(items) =>
      if |items| == 0 then None
      else
        Some(List(seq(|items|, i requires 0 <= i < |items| =>
          if items[i].Map? then Map(CleanupMap(items[i].entries, [])) else items[i])))
    case Str(s) =>
      if s == "" then None
      else if key == KeepFiringFor && ZeroDuration(s) then None
      else Some(v)
    case _ => Some(v)
  }

  /** Stringifying a cleaned map keeps it clean: `%v` text is never empty. */
  lemma StringifyClean(m: map<string, Value>)
    requires CleanMap(m)
    ensures CleanMap(Stringify(m))
  {
    var r := Stringify(m);
    forall k | k in r ensures Settled(k, r[k]) {
      if !m[k].Str? {
        RenderNotEmpty(m[k]);
      }
    }
  }

  lemma RenderNotEmpty(v: Value)
    requires !v.Str?
    ensures |Render(v)| > 0
  {
  }

  /** Dropping entries keeps a cleaned map clean. */
  lemma RemoveDefaultsClean(m: map<string, Value>)
    requires CleanMap(m)
    ensures CleanMap(RemoveDefaults(m))
  {
  }

  // ----------------------------------------------------------- numeric types

  /**
   * normalizeNumericTypes: every int becomes the float64 of the same value.
   * An integer in (2^63-1, 2^64-1] is the decoder's uint64, which the Go
   * switch does not list, so it stays as it is; yaml.v3 decodes a larger
   * integer as a float64, so an `Int` above 2^64-1 does not come from it.
   */
  function NormalizeNumeric(v: Value): (r: Value)
    decreases v
  {
    match v
    case Int(i) => if InInt64(i) then Float(IntDecimal(i)) else v
    case List(items) => List(seq(|items|, i requires 0 <= i < |items| => NormalizeNumeric(items[i])))
    case Map(m) => Map(map k | k in m :: NormalizeNumeric(m[k]))
    case _ => v
  }

  /**
   * Encoding a tree as YAML and decoding it again. yaml.v3 writes a float64
   * with strconv's shortest 'g' format, so an integral float of magnitude
   * below 10^6 is written without '.' or exponent and comes back as an int;
   * everything else comes back as it was.
   */
  function Reparse(v: Value): (r: Value)
    decreases v
  {
    match v
    case Float(d) =>
      if d.scale == 0 && -1_000_000 < d.mantissa < 1_000_000 then Int(d.mantissa) else v
    case List(items) => List(seq(|items|, i requires 0 <= i < |items| => Reparse(items[i])))
    case Map(m) => Map(map k | k in m :: Reparse(m[k]))
    case _ => v
  }

  // ------------------------------------------------------------ entry points

  /**
   * NormalizeYAML on the decoded document: text that is not YAML, or whose
   * top level is not a mapping, is an error; an empty document is the
   * empty mapping; otherwise the cleaned mapping (which the Go code then
   * encodes as text).
   */
  function NormalizeYAML(doc: Option<Value>): (r: Result<map<string, Value>, string>)
    ensures r.Ok? <==> doc.Some? && (doc.value.Map? || doc.value.Null?)
    ensures r.Ok? ==> CleanMap(r.value)
    ensures r.Ok? ==> forall k | k in IgnoredTopLevel :: k !in r.value
  {
    match doc
    case None => Err("error parsing resource YAML")
    case Some(Map(m)) =>
      var c := CleanupMap(m, IgnoredFields);
      TopLevelIgnored(c);
      Ok(c)
    case Some(Null) => Ok(map[])
    case Some(_) => Err("error parsing resource YAML: not a mapping")
  }

  lemma TopLevelIgnored(c: map<string, Value>)
    requires forall k | k in c :: !RemovedHere(IgnoredFields, k)
    ensures forall k | k in IgnoredTopLevel :: k !in c
  {
    assert '.' !in IgnoredTopLevel[0] && '.' !in IgnoredTopLevel[1];
  }

  /** The comparable form of a normalised document: re-decoded, numbers as floats. */
  function Comparable(m: map<string, Value>): Value {
    NormalizeNumeric(Reparse(Map(m)))
  }

  /**
   * ResourceYAMLEquivalent: both documents normalised (an error names the
   * document that failed), re-decoded, numbers made floats, then compared.
   */
  function ResourceYAMLEquivalent(a: Option<Value>, b: Option<Value>): (r: Result<bool, string>)
    ensures r.Ok? <==> NormalizeYAML(a).Ok? && NormalizeYAML(b).Ok?
  {
    match NormalizeYAML(a)
    case Err(e) => Err("error normalizing first resource yaml: " + e)
    case Ok(na) =>
      match NormalizeYAML(b)
      case Err(e) => Err("error normalizing second resource yaml: " + e)
      case Ok(nb) => Ok(Equal(Comparable(na), Comparable(nb)))
  }
}
