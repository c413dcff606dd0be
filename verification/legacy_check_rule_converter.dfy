/**
 * The older check-rule bridge of provider/check_rule_converter.go: the same
 * one-group / one-rule conversion, but without any `dash0-enabled`
 * handling. Every converted record is enabled, the annotation stays where
 * it was, and the reverse never writes it.
 */
module LegacyCheckRuleConverter {
  import opened Wrappers
  import opened Text
  import opened CheckRuleTypes
  import opened CheckRuleConverter
  import Normalizer

  /** Only the thresholds are taken out of the annotations. */
  const LegacyParsedKeys: set<string> := {Normalizer.ThresholdCritical, Normalizer.ThresholdDegraded}

  /** convertPromYAMLToDash0CheckRule after decoding. */
  function LegacyFromRules(p: PrometheusRules, dataset: string): (r: Result<Dash0CheckRule, string>)
    ensures |p.groups| != 1 ==> r == Err(OneGroupError)
    ensures |p.groups| == 1 && |p.groups[0].rules| != 1 ==> r == Err(OneRuleError)
    ensures r.Ok? <==> (|p.groups| == 1 && |p.groups[0].rules| == 1 &&
      var a := p.groups[0].rules[0].annotations;
      ReadThreshold(a, Normalizer.ThresholdCritical).Ok? &&
      ReadThreshold(a, Normalizer.ThresholdDegraded).Ok?)
    ensures r.Ok? ==> r.value.enabled
  {
    if |p.groups| != 1 then Err(OneGroupError)
    else if |p.groups[0].rules| != 1 then Err(OneRuleError)
    else
      var group := p.groups[0];
      var rule := group.rules[0];
      var failed :- ReadThreshold(rule.annotations, Normalizer.ThresholdCritical);
      var degraded :- ReadThreshold(rule.annotations, Normalizer.ThresholdDegraded);
      Ok(Dash0CheckRule(
        dataset := dataset,
        id := "",
        name := JoinName(group.name, rule.alert),
        expression := rule.expr,
        thresholds := Thresholds(degraded, failed),
        summary := TextOf(rule.annotations, SummaryKey),
        description := TextOf(rule.annotations, DescriptionKey),
        interval := group.interval,
        forDuration := rule.forDuration,
        keepFiringFor := rule.keepFiringFor,
        labels := rule.labels,
        annotations := Without(rule.annotations, LegacyParsedKeys),
        enabled := true))
  }

  /** convertPromYAMLToDash0CheckRule. */
  function LegacyToDash0CheckRule(doc: Option<Values.Value>, dataset: string): (r: Result<Dash0CheckRule, string>)
    ensures doc.None? ==> r.Err?
    ensures doc.Some? && DecodePrometheusRules(doc.value).Err? ==> r.Err?
    ensures doc.Some? && DecodePrometheusRules(doc.value).Ok? ==> r == LegacyFromRules(DecodePrometheusRules(doc.value).value, dataset)
  {
    match doc
    case None => Err("error parsing resource YAML")
    case Some(v) =>
      match DecodePrometheusRules(v)
      case Err(e) => Err("error parsing resource YAML: " + e)
      case Ok(p) => LegacyFromRules(p, dataset)
  }

  /** Whether the legacy reverse writes into the annotations map at all. */
  predicate LegacyWritesAnnotations(d: Dash0CheckRule) {
    d.summary != "" || d.description != "" || d.thresholds.failed != 0 || d.thresholds.degraded != 0
  }

  /** The legacy writes: summary, description and thresholds, never `dash0-enabled`. */
  function LegacyAddEmitted(d: Dash0CheckRule, m: StringMap): StringMap {
    AddEmittedFrom(d, m, EmitOrder[1..])
  }

  lemma LegacyAddEmittedAt(d: Dash0CheckRule, m: StringMap, k: string)
    ensures var r := LegacyAddEmitted(d, m);
      (k in r <==> k in m || (k != Normalizer.EnabledKey && Emitted(d, k).Some?)) &&
      (k in r ==> r[k] == if k != Normalizer.EnabledKey && Emitted(d, k).Some? then Emitted(d, k).value else m[k])
  {
    AddEmittedFromAt(d, m, EmitOrder[1..], k);
    assert k != Normalizer.EnabledKey && Emitted(d, k).Some? ==> k in EmitOrder[1..];
    assert Normalizer.EnabledKey !in EmitOrder[1..];
  }

  /** convertDash0JSONtoPrometheusRules after decoding. */
  function LegacyToRules(d: Dash0CheckRule): (r: PrometheusRules)
    requires d.annotations.Some? || !LegacyWritesAnnotations(d)
    ensures r.apiVersion == ApiVersion && r.kind == RuleKind && r.metadata == Some(map[])
    ensures |r.groups| == 1 && |r.groups[0].rules| == 1
  {
    var (group, alert) := SplitName(d.name);
    var annotations := if d.annotations.None? then None else Some(LegacyAddEmitted(d, d.annotations.value));
    var rule := Rule(alert, d.expression, d.forDuration, d.keepFiringFor, annotations, d.labels);
    PrometheusRules(ApiVersion, RuleKind, Some(map[]), [RuleGroup(group, d.interval, [rule])])
  }

  /** convertDash0JSONtoPrometheusRules. */
  function LegacyToPrometheusRules(decoded: Option<Dash0CheckRule>): (r: Result<PrometheusRules, string>)
    requires decoded.Some? ==> decoded.value.annotations.Some? || !LegacyWritesAnnotations(decoded.value)
    ensures r.Ok? <==> decoded.Some?
    ensures r.Ok? ==> r.value == LegacyToRules(decoded.value)
  {
    match decoded
    case None => Err("error parsing resource JSON")
    case Some(d) => Ok(LegacyToRules(d))
  }
}
