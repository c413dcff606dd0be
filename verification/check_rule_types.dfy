/**
 * The check-rule records of provider/check_rule.go, with whole-number
 * thresholds as the converters read them with Atoi and write them with
 * Itoa (the types package the current converter imports is not part of
 * this model), and their YAML form: the typed
 * decode of a document tree into PrometheusRules, with Duration's
 * unmarshalValue for every duration field, and yaml.Marshal's tree of a
 * PrometheusRules, with Duration's MarshalYAML.
 */
module CheckRuleTypes {
  import opened Wrappers
  import opened Text
  import opened Duration
  import opened Values
  import Normalizer
  import GoQuote

  /** A Go `int` on a 64-bit platform. */
  type Int64 = i: int | InInt64(i)

  /** A time.Duration: a nanosecond count in int64 range. */
  type Nanos = d: int | InRange(d)

  type StringMap = map<string, string>

  // ------------------------------------------------------------------ records

  /** Dash0CheckRuleThresholds: whole numbers, parsed and printed with Atoi / Itoa. */
  datatype Thresholds = Thresholds(degraded: Int64, failed: Int64)

  /**
   * Dash0CheckRule, the API's flat record. A `None` map is Go's nil map,
   * which reads as empty but panics when written to.
   */
  datatype Dash0CheckRule = Dash0CheckRule(
    dataset: string,
    id: string,
    name: string,
    expression: string,
    thresholds: Thresholds,
    summary: string,
    description: string,
    interval: Nanos,
    forDuration: Nanos,
    keepFiringFor: Nanos,
    labels: Option<StringMap>,
    annotations: Option<StringMap>,
    enabled: bool)

  /** PrometheusRule: one alerting rule of a group. */
  datatype Rule = Rule(
    alert: string,
    expr: string,
    forDuration: Nanos,
    keepFiringFor: Nanos,
    annotations: Option<StringMap>,
    labels: Option<StringMap>)

  /** PrometheusRulesGroup. */
  datatype RuleGroup = RuleGroup(name: string, interval: Nanos, rules: seq<Rule>)

  /** PrometheusRules; `groups` is the only field of its `spec`. */
  datatype PrometheusRules = PrometheusRules(
    apiVersion: string,
    kind: string,
    metadata: Option<StringMap>,
    groups: seq<RuleGroup>)

  const EmptyRules: PrometheusRules := PrometheusRules("", "", None, [])

  // ------------------------------------------------------- Duration decoding

  /** Go's `%T` of a value decoded into `interface{}` by yaml.v3. */
  function GoTypeName(v: Value): string {
    match v
    case Null => "<nil>"
    case Bool(_) => "bool"
    case Int(i) => if InInt64(i) then "int" else if 0 <= i <= MaxUint64 then "uint64" else "float64"
    case Float(_) => "float64"
    case Str(_) => "string"
    case List(_) => "[]interface {}"
    case Map(_) => "map[string]interface {}"
  }

  /**
   * Go's conversion of a float64 to time.Duration on amd64: truncation
   * toward zero, and the minimum int64 for a value out of range.
   */
  function Truncate(d: Decimal): (r: Nanos)
    ensures d.scale == 0 && InRange(d.mantissa) ==> r == d.mantissa
  {
    var p := Pow10(d.scale);
    var t := if d.mantissa >= 0 then d.mantissa / p else -((-d.mantissa) / p);
    if InRange(t) then t else -(Limit as int)
  }

  /**
   * Duration.unmarshalValue on the decoded value: a string through the
   * duration parser, an int as nanoseconds, a float64 truncated; any other
   * type is an "invalid duration type" error. A YAML integer beyond int64
   * but within uint64 decodes as a uint64, and one beyond that as a float64.
   */
  function UnmarshalValue(v: Value): (r: Result<Nanos, string>)
    ensures v.Str? ==> (r.Ok? <==> Parse(v.s).Some?)
    ensures v.Str? && r.Ok? ==> r.value == Parse(v.s).value
    ensures v.Int? && InInt64(v.i) ==> r == Ok(v.i)
    ensures v.Null? || v.Bool? || v.List? || v.Map? ==> r == Err("invalid duration type: " + GoTypeName(v))
  {
    match v
    case Str(s) => UnmarshalText(s)
    case Int(i) =>
      if InInt64(i) then Ok(i)
      else if 0 <= i <= MaxUint64 then Err("invalid duration type: uint64")
      else Ok(Truncate(IntDecimal(i)))
    case Float(d) => Ok(Truncate(d))
    case _ => Err("invalid duration type: " + GoTypeName(v))
  }

  /** The string case of unmarshalValue: time.ParseDuration's verdict. */
  function UnmarshalText(s: string): (r: Result<Nanos, string>)
    ensures r.Ok? <==> Parse(s).Some?
    ensures r.Ok? ==> r.value == Parse(s).value
  {
    match Parse(s)
    case Some(d) => Ok(d)
    case None => Err("time: invalid duration " + GoQuote.TimeQuote(s))
  }

  /**
   * A Duration field of a struct: yaml.v3 leaves a null or missing node at
   * the zero value without calling UnmarshalYAML.
   */
  function DecodeDuration(v: Value): (r: Result<Nanos, string>)
    ensures v.Null? ==> r == Ok(0)
    ensures !v.Null? ==> r == UnmarshalValue(v)
  {
    if v.Null? then Ok(0) else UnmarshalValue(v)
  }

  // ------------------------------------------------------ typed YAML decoding

  /** The node under `key`, a missing key reading as null. */
  function Field(m: map<string, Value>, key: string): Value {
    if key in m then m[key] else Null
  }

  /**
   * A scalar decoded into a Go string field: its text (a null leaves "");
   * a sequence or mapping is a type error.
   */
  function DecodeString(v: Value): (r: Result<string, string>)
    ensures r.Ok? <==> !(v.List? || v.Map?)
    ensures v.Str? ==> r == Ok(v.s)
    ensures v.Null? ==> r == Ok("")
  {
    match v
    case List(_) => Err("cannot unmarshal !!seq into string")
    case Map(_) => Err("cannot unmarshal !!map into string")
    case Null => Ok("")
    case Str(s) => Ok(s)
    case _ => Ok(Render(v))
  }

  predicate ScalarEntries(m: map<string, Value>) {
    forall k | k in m :: !(m[k].List? || m[k].Map?)
  }

  /** A `map[string]string` field: null gives nil, a mapping of scalars its texts. */
  function DecodeStringMap(v: Value): (r: Result<Option<StringMap>, string>)
    ensures r.Ok? <==> v.Null? || (v.Map? && ScalarEntries(v.entries))
    ensures v.Null? ==> r == Ok(None)
    ensures r.Ok? && v.Map? ==> r.value.Some? && r.value.value.Keys == v.entries.Keys
    ensures r.Ok? && v.Map? ==> forall k | k in v.entries :: r.value.value[k] == DecodeString(v.entries[k]).value
  {
    match v
    case Null => Ok(None)
    case Map(m) =>
      if ScalarEntries(m) then Ok(Some(map k | k in m :: DecodeString(m[k]).value))
      else Err("cannot unmarshal !!seq or !!map into string")
    case _ => Err("cannot unmarshal into map[string]string")
  }

  /**
   * yaml.v3's decode of one sequence element into a PrometheusRule: a
   * mapping fills the fields, anything but null is an error, and null
   * stores nothing (the decoder reports it as not decoded, and the slice
   * leaves it out).
   */
  function DecodeRule(v: Value): (r: Result<Option<Rule>, string>)
    ensures r == Ok(None) <==> v.Null?
    ensures !(v.Null? || v.Map?) ==> r.Err?
  {
    match v
    case Null => Ok(None)
    case Map(m) =>
      var alert :- DecodeString(Field(m, "alert"));
      var expr :- DecodeString(Field(m, "expr"));
      var forDuration :- DecodeDuration(Field(m, "for"));
      var keepFiringFor :- DecodeDuration(Field(m, Normalizer.KeepFiringFor));
      var annotations :- DecodeStringMap(Field(m, Normalizer.Annotations));
      var labels :- DecodeStringMap(Field(m, Normalizer.Labels));
      Ok(Some(Rule(alert, expr, forDuration, keepFiringFor, annotations, labels)))
    case _ => Err("cannot unmarshal into PrometheusRule")
  }

  /** The elements of a sequence that are not null, in order. */
  function NonNull(items: seq<Value>): (r: seq<Value>)
    ensures |r| <= |items|
    ensures forall v :: v in r <==> v in items && !v.Null?
  {
    if |items| == 0 then []
    else (if items[0].Null? then [] else [items[0]]) + NonNull(items[1..])
  }

  /** A sequence without null elements is kept whole. */
  lemma {:induction false} NonNullKeeps(items: seq<Value>)
    requires forall i | 0 <= i < |items| :: !items[i].Null?
    ensures NonNull(items) == items
  {
    if |items| > 0 {
      NonNullKeeps(items[1..]);
    }
  }

  /**
   * One step of a slice decode: an element that stores something goes in
   * front of what the rest of the sequence decoded to, and a null adds
   * nothing.
   */
  lemma KeptStep<T>(items: seq<Value>, decode: Value -> Result<Option<T>, string>, first: Option<T>, rest: seq<T>)
    requires |items| > 0 && decode(items[0]) == Ok(first)
    requires first.None? <==> items[0].Null?
    requires |rest| == |NonNull(items[1..])|
    requires forall j | 0 <= j < |rest| :: decode(NonNull(items[1..])[j]) == Ok(Some(rest[j]))
    ensures var out := if first.Some? then [first.value] + rest else rest;
      |out| == |NonNull(items)| && forall j | 0 <= j < |out| :: decode(NonNull(items)[j]) == Ok(Some(out[j]))
  {
    assert NonNull(items) == (if items[0].Null? then [] else [items[0]]) + NonNull(items[1..]);
  }

  /**
   * yaml.v3's decode of a sequence into a slice: the first failing element
   * is reported; otherwise the slice holds the non-null elements, decoded,
   * in order.
   */
  function DecodeRuleList(items: seq<Value>): (r: Result<seq<Rule>, string>)
    ensures r.Ok? <==> forall i | 0 <= i < |items| :: DecodeRule(items[i]).Ok?
    ensures r.Ok? ==> |r.value| == |NonNull(items)|
    ensures r.Ok? ==> forall j | 0 <= j < |r.value| :: DecodeRule(NonNull(items)[j]) == Ok(Some(r.value[j]))
  {
    if |items| == 0 then Ok([])
    else
      var first :- DecodeRule(items[0]);
      var rest :- DecodeRuleList(items[1..]);
      KeptStep(items, DecodeRule, first, rest);
      if first.Some? then Ok([first.value] + rest) else Ok(rest)
  }

  /** A slice field: null gives a nil (empty) slice. */
  function DecodeRules(v: Value): (r: Result<seq<Rule>, string>)
    ensures v.Null? ==> r == Ok([])
    ensures v.List? ==> r == DecodeRuleList(v.items)
    ensures !(v.Null? || v.List?) ==> r.Err?
  {
    match v
    case Null => Ok([])
    case List(items) => DecodeRuleList(items)
    case _ => Err("cannot unmarshal into []PrometheusRule")
  }

  /** yaml.v3's decode of one sequence element into a PrometheusRulesGroup, as for a rule. */
  function DecodeGroup(v: Value): (r: Result<Option<RuleGroup>, string>)
    ensures r == Ok(None) <==> v.Null?
    ensures !(v.Null? || v.Map?) ==> r.Err?
  {
    match v
    case Null => Ok(None)
    case Map(m) =>
      var name :- DecodeString(Field(m, "name"));
      var interval :- DecodeDuration(Field(m, "interval"));
      var rules :- DecodeRules(Field(m, "rules"));
      Ok(Some(RuleGroup(name, interval, rules)))
    case _ => Err("cannot unmarshal into PrometheusRulesGroup")
  }

  function DecodeGroupList(items: seq<Value>): (r: Result<seq<RuleGroup>, string>)
    ensures r.Ok? <==> forall i | 0 <= i < |items| :: DecodeGroup(items[i]).Ok?
    ensures r.Ok? ==> |r.value| == |NonNull(items)|
    ensures r.Ok? ==> forall j | 0 <= j < |r.value| :: DecodeGroup(NonNull(items)[j]) == Ok(Some(r.value[j]))
  {
    if |items| == 0 then Ok([])
    else
      var first :- DecodeGroup(items[0]);
      var rest :- DecodeGroupList(items[1..]);
      KeptStep(items, DecodeGroup, first, rest);
      if first.Some? then Ok([first.value] + rest) else Ok(rest)
  }

  function DecodeGroups(v: Value): (r: Result<seq<RuleGroup>, string>)
    ensures v.Null? ==> r == Ok([])
    ensures v.List? ==> r == DecodeGroupList(v.items)
    ensures !(v.Null? || v.List?) ==> r.Err?
  {
    match v
    case Null => Ok([])
    case List(items) => DecodeGroupList(items)
    case _ => Err("cannot unmarshal into []PrometheusRulesGroup")
  }

  /** The `spec` field: a mapping whose `groups` are decoded, or null. */
  function DecodeSpec(v: Value): (r: Result<seq<RuleGroup>, string>)
    ensures v.Null? ==> r == Ok([])
    ensures v.Map? ==> r == DecodeGroups(Field(v.entries, "groups"))
    ensures !(v.Null? || v.Map?) ==> r.Err?
  {
    match v
    case Null => Ok([])
    case Map(s) => DecodeGroups(Field(s, "groups"))
    case _ => Err("cannot unmarshal into PrometheusRulesSpec")
  }

  /**
   * yaml.Unmarshal of a document into PrometheusRules: an empty or null
   * document gives the zero record, a mapping has its known keys decoded
   * (other keys are ignored), anything else is an error.
   */
  function DecodePrometheusRules(doc: Value): (r: Result<PrometheusRules, string>)
    ensures doc.Null? ==> r == Ok(EmptyRules)
    ensures !(doc.Null? || doc.Map?) ==> r.Err?
  {
    match doc
    case Null => Ok(EmptyRules)
    case Map(m) =>
      var apiVersion :- DecodeString(Field(m, "apiVersion"));
      var kind :- DecodeString(Field(m, "kind"));
      var metadata :- DecodeStringMap(Field(m, Normalizer.Metadata));
      var groups :- DecodeSpec(Field(m, "spec"));
      Ok(PrometheusRules(apiVersion, kind, metadata, groups))
    case _ => Err("cannot unmarshal into PrometheusRules")
  }

  // ---------------------------------------------------------- YAML encoding

  /** yaml.Marshal of a `map[string]string`: a nil map is written as `{}`. */
  function EncodeStringMap(o: Option<StringMap>): (v: Value)
    ensures v.Map? && ScalarEntries(v.entries)
    ensures o.Some? ==> v.entries.Keys == o.value.Keys
    ensures o.None? ==> v.entries == map[]
  {
    match o
    case None => Map(map[])
    case Some(m) => Map(map k | k in m :: Str(m[k]))
  }

  /** Duration.MarshalYAML: the duration's String text. */
  function EncodeDuration(d: Nanos): Value {
    Str(Format(d))
  }

  /**
   * A rule as written by yaml.Marshal: `keep_firing_for` is `omitempty`, so
   * a zero duration is left out, while `for` is always written.
   */
  function EncodeRule(r: Rule): (v: Value)
    ensures v.Map? && "for" in v.entries
    ensures Normalizer.KeepFiringFor in v.entries <==> r.keepFiringFor != 0
  {
    var base := map[
      "alert" := Str(r.alert),
      "expr" := Str(r.expr),
      "for" := EncodeDuration(r.forDuration),
      Normalizer.Annotations := EncodeStringMap(r.annotations),
      Normalizer.Labels := EncodeStringMap(r.labels)];
    if r.keepFiringFor == 0 then Map(base)
    else Map(base[Normalizer.KeepFiringFor := EncodeDuration(r.keepFiringFor)])
  }

  function EncodeRuleList(rs: seq<Rule>): (vs: seq<Value>)
    ensures |vs| == |rs|
    ensures forall i | 0 <= i < |rs| :: vs[i] == EncodeRule(rs[i])
  {
    if |rs| == 0 then [] else [EncodeRule(rs[0])] + EncodeRuleList(rs[1..])
  }

  /** A group as written by yaml.Marshal: its interval is always written. */
  function EncodeGroup(g: RuleGroup): (v: Value)
    ensures v.Map? && "interval" in v.entries
  {
    Map(map[
      "name" := Str(g.name),
      "interval" := EncodeDuration(g.interval),
      "rules" := List(EncodeRuleList(g.rules))])
  }

  function EncodeGroupList(gs: seq<RuleGroup>): (vs: seq<Value>)
    ensures |vs| == |gs|
    ensures forall i | 0 <= i < |gs| :: vs[i] == EncodeGroup(gs[i])
  {
    if |gs| == 0 then [] else [EncodeGroup(gs[0])] + EncodeGroupList(gs[1..])
  }

  /** yaml.Marshal of a PrometheusRules, as the tree it decodes back to. */
  function EncodePrometheusRules(p: PrometheusRules): (v: Value)
    ensures v.Map?
  {
    Map(map[
      "apiVersion" := Str(p.apiVersion),
      "kind" := Str(p.kind),
      Normalizer.Metadata := EncodeStringMap(p.metadata),
      "spec" := Map(map["groups" := List(EncodeGroupList(p.groups))])])
  }

  // ------------------------------------------------------- nil maps filled

  /** A nil map after a round trip through YAML: written as `{}`, read back empty. */
  function Filled(o: Option<StringMap>): Option<StringMap> {
    if o.None? then Some(map[]) else o
  }

  function FilledRule(r: Rule): Rule {
    r.(annotations := Filled(r.annotations), labels := Filled(r.labels))
  }

  function FilledRuleList(rs: seq<Rule>): (r: seq<Rule>)
    ensures |r| == |rs| && forall i | 0 <= i < |rs| :: r[i] == FilledRule(rs[i])
  {
    if |rs| == 0 then [] else [FilledRule(rs[0])] + FilledRuleList(rs[1..])
  }

  function FilledGroup(g: RuleGroup): RuleGroup {
    g.(rules := FilledRuleList(g.rules))
  }

  function FilledGroupList(gs: seq<RuleGroup>): (r: seq<RuleGroup>)
    ensures |r| == |gs| && forall i | 0 <= i < |gs| :: r[i] == FilledGroup(gs[i])
  {
    if |gs| == 0 then [] else [FilledGroup(gs[0])] + FilledGroupList(gs[1..])
  }

  /** The record a PrometheusRules reads back as once written to YAML. */
  function FilledRules(p: PrometheusRules): PrometheusRules {
    p.(metadata := Filled(p.metadata),
       groups := FilledGroupList(p.groups))
  }
}
