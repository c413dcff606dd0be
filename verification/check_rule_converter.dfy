/**
 * The check-rule bridge of converter/check_rule.go: a PrometheusRules
 * document with one group of one rule becomes Dash0's flat check-rule
 * record, and back. The name joins group and alert with " - "; the
 * `dash0-*` annotations carry the thresholds and the enabled flag.
 */
module CheckRuleConverter {
  import opened Wrappers
  import opened Text
  import opened Values
  import opened CheckRuleTypes
  import Normalizer
  import GoQuote

  const ApiVersion: string := "monitoring.coreos.com/v1"
  const RuleKind: string := "PrometheusRule"
  const NameSeparator: string := " - "
  const SummaryKey: string := "summary"
  const DescriptionKey: string := "description"

  const OneGroupError: string := "currently only one group is supported"
  const OneRuleError: string := "currently only one rule per group is supported"

  // ------------------------------------------------------------------- names

  /** fmt.Sprintf("%s - %s", group, alert). */
  function JoinName(group: string, alert: string): string {
    group + NameSeparator + alert
  }

  /**
   * strings.SplitN(name, " - ", 2): the text before and after the first
   * separator, or the whole name as both group and alert.
   */
  function SplitName(name: string): (r: (string, string))
    ensures Contains(name, NameSeparator) ==> JoinName(r.0, r.1) == name && !Contains(r.0, NameSeparator)
    ensures !Contains(name, NameSeparator) ==> r == (name, name)
  {
    var parts := SplitFirst(name, NameSeparator);
    if |parts| == 2 then (parts[0], parts[1]) else (name, name)
  }

  // ------------------------------------------------------------- annotations

  /** A key of a possibly nil map. */
  function Get(o: Option<StringMap>, key: string): (r: Option<string>)
    ensures r.Some? <==> o.Some? && key in o.value
  {
    if o.Some? && key in o.value then Some(o.value[key]) else None
  }

  /** A map with some keys deleted; deleting from a nil map does nothing. */
  function Without(o: Option<StringMap>, keys: set<string>): (r: Option<StringMap>)
    ensures r.None? <==> o.None?
    ensures r.Some? ==> forall k :: k in r.value <==> k in o.value && k !in keys
    ensures r.Some? ==> forall k | k in r.value :: r.value[k] == o.value[k]
  {
    if o.None? then None else Some(o.value - keys)
  }

  /** The text under `key`, or "" when absent. */
  function TextOf(o: Option<StringMap>, key: string): (r: string)
    ensures Get(o, key).Some? ==> r == Get(o, key).value
    ensures Get(o, key).None? ==> r == ""
  {
    if o.Some? && key in o.value then o.value[key] else ""
  }

  /** The text after an optional leading sign. */
  function Unsigned(s: string): (body: string)
    ensures |body| <= |s|
  {
    if |s| > 0 && (s[0] == '+' || s[0] == '-') then s[1..] else s
  }

  /**
   * Whether a failed strconv.Atoi reports a range error, in Go's order:
   * ParseUint's loop over the unsigned text first (which stops at its first
   * failure), then ParseInt's int64 bounds on the signed value.
   */
  predicate AtoiOutOfRange(s: string) {
    var body := Unsigned(s);
    |body| > 0 &&
    match ScanUint(body, 0)
    case RangeError => true
    case SyntaxError => false
    case Scanned(u) => !InInt64(if s[0] == '-' then -(u as int) else u)
  }

  /** The *NumError text of a failed strconv.Atoi. */
  function AtoiError(s: string): string {
    "strconv.Atoi: parsing " + GoQuote.Quote(s) + ": " +
    (if AtoiOutOfRange(s) then "value out of range" else "invalid syntax")
  }

  /** The *NumError text of a failed strconv.ParseBool. */
  function ParseBoolError(s: string): string {
    "strconv.ParseBool: parsing " + GoQuote.Quote(s) + ": invalid syntax"
  }

  /**
   * A threshold annotation: absent leaves the threshold at 0; present, it
   * must be an int.
   */
  function ReadThreshold(o: Option<StringMap>, key: string): (r: Result<Int64, string>)
    ensures Get(o, key).None? ==> r == Ok(0)
    ensures Get(o, key).Some? ==> (r.Ok? <==> Atoi(Get(o, key).value).Some?)
    ensures Get(o, key).Some? && r.Ok? ==> r.value == Atoi(Get(o, key).value).value
    ensures r.Err? ==> r.error == "invalid value for " + key + ": " + AtoiError(Get(o, key).value)
  {
    match Get(o, key)
    case None => Ok(0)
    case Some(text) =>
      match Atoi(text)
      case Some(n) => Ok(n)
      case None => Err("invalid value for " + key + ": " + AtoiError(text))
  }

  /** The `dash0-enabled` annotation: absent means enabled; present, it must be a bool. */
  function ReadEnabled(o: Option<StringMap>): (r: Result<bool, string>)
    ensures Get(o, Normalizer.EnabledKey).None? ==> r == Ok(true)
    ensures Get(o, Normalizer.EnabledKey).Some? ==> r.Ok? == ParseBool(Get(o, Normalizer.EnabledKey).value).Some?
    ensures Get(o, Normalizer.EnabledKey).Some? && r.Ok? ==> r.value == ParseBool(Get(o, Normalizer.EnabledKey).value).value
  {
    match Get(o, Normalizer.EnabledKey)
    case None => Ok(true)
    case Some(text) =>
      match ParseBool(text)
      case Some(b) => Ok(b)
      case None => Err("invalid value for " + Normalizer.EnabledKey + ": " + ParseBoolError(text))
  }

  /** The annotations the record's typed fields are taken from, and removed. */
  const ParsedKeys: set<string> := {Normalizer.ThresholdCritical, Normalizer.ThresholdDegraded, Normalizer.EnabledKey}

  // -------------------------------------------------- PrometheusRules -> Dash0

  /**
   * ConvertPromYAMLToDash0CheckRule after decoding: exactly one group of
   * exactly one rule; thresholds, enabled flag, summary and description
   * read from the annotations; the three parsed annotations removed.
   */
  function FromRules(p: PrometheusRules, dataset: string): (r: Result<Dash0CheckRule, string>)
    ensures |p.groups| != 1 ==> r == Err(OneGroupError)
    ensures |p.groups| == 1 && |p.groups[0].rules| != 1 ==> r == Err(OneRuleError)
    ensures |p.groups| == 1 && |p.groups[0].rules| == 1 ==>
      var a := p.groups[0].rules[0].annotations;
      var critical := ReadThreshold(a, Normalizer.ThresholdCritical);
      var degraded := ReadThreshold(a, Normalizer.ThresholdDegraded);
      (critical.Err? ==> r == Err(critical.error)) &&
      (critical.Ok? && degraded.Err? ==> r == Err(degraded.error)) &&
      (critical.Ok? && degraded.Ok? && ReadEnabled(a).Err? ==> r == Err(ReadEnabled(a).error))
    ensures r.Ok? ==> |p.groups| == 1 && |p.groups[0].rules| == 1
    ensures r.Ok? <==> (|p.groups| == 1 && |p.groups[0].rules| == 1 &&
      var a := p.groups[0].rules[0].annotations;
      ReadThreshold(a, Normalizer.ThresholdCritical).Ok? &&
      ReadThreshold(a, Normalizer.ThresholdDegraded).Ok? &&
      ReadEnabled(a).Ok?)
  {
    if |p.groups| != 1 then Err(OneGroupError)
    else if |p.groups[0].rules| != 1 then Err(OneRuleError)
    else
      var group := p.groups[0];
      var rule := group.rules[0];
      var failed :- ReadThreshold(rule.annotations, Normalizer.ThresholdCritical);
      var degraded :- ReadThreshold(rule.annotations, Normalizer.ThresholdDegraded);
      var enabled :- ReadEnabled(rule.annotations);
      Ok(Dash0CheckRule(
        dataset := dataset,
        id := "",
        name := JoinName(group.name, rule.alert),
        expression := rule.expr,
        thresholds := Thresholds(degraded, failed),
        summary := TextOf(rule.annotations, SummaryKey),
        description := TextOf(rule.annotations, DescriptionKey),
        interval := group.interval,
        forDuration := rule.forDuration,
        keepFiringFor := rule.keepFiringFor,
        labels := rule.labels,
        annotations := Without(rule.annotations, ParsedKeys),
        enabled := enabled))
  }

  /**
   * ConvertPromYAMLToDash0CheckRule: YAML that does not parse, or does not
   * decode into PrometheusRules, is an error; otherwise FromRules.
   */
  function ToDash0CheckRule(doc: Option<Value>, dataset: string): (r: Result<Dash0CheckRule, string>)
    ensures doc.None? ==> r.Err?
    ensures doc.Some? && DecodePrometheusRules(doc.value).Err? ==> r.Err?
    ensures doc.Some? && DecodePrometheusRules(doc.value).Ok? ==> r == FromRules(DecodePrometheusRules(doc.value).value, dataset)
  {
    match doc
    case None => Err("error parsing resource YAML")
    case Some(v) =>
      match DecodePrometheusRules(v)
      case Err(e) => Err("error parsing resource YAML: " + e)
      case Ok(p) => FromRules(p, dataset)
  }

  // -------------------------------------------------- Dash0 -> PrometheusRules

  /**
   * The annotation the reverse conversion writes under `key`, if any:
   * `dash0-enabled: "false"` only when disabled, summary and description
   * only when non-empty, thresholds only when non-zero.
   */
  function Emitted(d: Dash0CheckRule, key: string): Option<string> {
    if key == Normalizer.EnabledKey && !d.enabled then Some(FormatBool(false))
    else if key == SummaryKey && d.summary != "" then Some(d.summary)
    else if key == DescriptionKey && d.description != "" then Some(d.description)
    else if key == Normalizer.ThresholdCritical && d.thresholds.failed != 0 then Some(IntToString(d.thresholds.failed))
    else if key == Normalizer.ThresholdDegraded && d.thresholds.degraded != 0 then Some(IntToString(d.thresholds.degraded))
    else None
  }

  /** Whether the reverse conversion writes into the annotations map at all. */
  predicate WritesAnnotations(d: Dash0CheckRule) {
    !d.enabled || d.summary != "" || d.description != "" || d.thresholds.failed != 0 || d.thresholds.degraded != 0
  }

  /** The keys the reverse conversion may write, in the order it writes them. */
  const EmitOrder: seq<string> :=
    [Normalizer.EnabledKey, SummaryKey, DescriptionKey, Normalizer.ThresholdCritical, Normalizer.ThresholdDegraded]

  /** The writes for `keys`, one after the other. */
  function AddEmittedFrom(d: Dash0CheckRule, m: StringMap, keys: seq<string>): StringMap
    decreases |keys|
  {
    if |keys| == 0 then m
    else
      var e := Emitted(d, keys[0]);
      AddEmittedFrom(d, if e.Some? then m[keys[0] := e.value] else m, keys[1..])
  }

  /** After the writes for `keys`, a key holds its write if it has one, and its old value otherwise. */
  lemma {:induction false} AddEmittedFromAt(d: Dash0CheckRule, m: StringMap, keys: seq<string>, k: string)
    ensures var r := AddEmittedFrom(d, m, keys);
      (k in r <==> k in m || (k in keys && Emitted(d, k).Some?)) &&
      (k in r ==> r[k] == if k in keys && Emitted(d, k).Some? then Emitted(d, k).value else m[k])
    decreases |keys|
  {
    if |keys| > 0 {
      var e := Emitted(d, keys[0]);
      var m1 := if e.Some? then m[keys[0] := e.value] else m;
      AddEmittedFromAt(d, m1, keys[1..], k);
      assert k in keys <==> k == keys[0] || k in keys[1..];
    }
  }

  /** The annotations after all writes of the reverse conversion. */
  function AddEmitted(d: Dash0CheckRule, m: StringMap): StringMap {
    AddEmittedFrom(d, m, EmitOrder)
  }

  /** Each write overrides what the record carried under its key; every other key is kept. */
  lemma AddEmittedAt(d: Dash0CheckRule, m: StringMap, k: string)
    ensures var r := AddEmitted(d, m);
      (k in r <==> k in m || Emitted(d, k).Some?) &&
      (k in r ==> r[k] == if Emitted(d, k).Some? then Emitted(d, k).value else m[k])
  {
    AddEmittedFromAt(d, m, EmitOrder, k);
    assert Emitted(d, k).Some? ==> k in EmitOrder;
  }

  /**
   * ConvertDash0JSONtoPrometheusRules after decoding: the fixed apiVersion
   * and kind, empty metadata, and one group of one rule, with the name
   * split at the first " - " and the non-default fields written as
   * annotations. Writing into a nil annotations map panics in the source,
   * so a record without annotations must need no writes.
   */
  function ToRules(d: Dash0CheckRule): (r: PrometheusRules)
    requires d.annotations.Some? || !WritesAnnotations(d)
    ensures r.apiVersion == ApiVersion && r.kind == RuleKind && r.metadata == Some(map[])
    ensures |r.groups| == 1 && |r.groups[0].rules| == 1
    ensures r.groups[0].interval == d.interval
    ensures JoinName(r.groups[0].name, r.groups[0].rules[0].alert) == d.name || (r.groups[0].name == d.name && r.groups[0].rules[0].alert == d.name)
    ensures r.groups[0].rules[0].annotations.None? <==> d.annotations.None?
  {
    var (group, alert) := SplitName(d.name);
    var annotations := if d.annotations.None? then None else Some(AddEmitted(d, d.annotations.value));
    var rule := Rule(alert, d.expression, d.forDuration, d.keepFiringFor, annotations, d.labels);
    PrometheusRules(ApiVersion, RuleKind, Some(map[]), [RuleGroup(group, d.interval, [rule])])
  }

  /** ConvertDash0JSONtoPrometheusRules: JSON that does not decode is an error. */
  function ToPrometheusRules(decoded: Option<Dash0CheckRule>): (r: Result<PrometheusRules, string>)
    requires decoded.Some? ==> decoded.value.annotations.Some? || !WritesAnnotations(decoded.value)
    ensures r.Ok? <==> decoded.Some?
    ensures r.Ok? ==> r.value == ToRules(decoded.value)
  {
    match decoded
    case None => Err("error parsing resource JSON")
    case Some(d) => Ok(ToRules(d))
  }
}
