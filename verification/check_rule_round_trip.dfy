/**
 * How far the two conversions of the check-rule bridge undo each other.
 * Names survive only when the group name splits back off, the thresholds
 * and the enabled flag survive through Atoi / Itoa and ParseBool, and a
 * rule's annotations come back when they already hold what the reverse
 * would write.
 */
module CheckRuleRoundTrip {
  import opened Wrappers
  import opened Text
  import opened Values
  import opened CheckRuleTypes
  import opened CheckRuleConverter
  import opened LegacyCheckRuleConverter
  import Normalizer
  import GoQuote

  // ------------------------------------------------------------------- names

  predicate EndsWithSpaceDash(g: string) {
    |g| >= 2 && g[|g| - 2] == ' ' && g[|g| - 1] == '-'
  }

  /** A group name the first " - " of the joined name cannot start inside. */
  predicate SplitsBack(g: string) {
    !Contains(g, NameSeparator) && !EndsWithSpaceDash(g)
  }

  /** No " - " of the joined name starts inside a group name that splits back. */
  lemma NoEarlyOccurrence(g: string, a: string, j: nat)
    requires SplitsBack(g) && j < |g|
    ensures !OccursAt(JoinName(g, a), NameSeparator, j)
  {
    var s := JoinName(g, a);
    if j + 3 <= |g| {
      assert s[j..j + 3] == g[j..j + 3];
      assert !OccursAt(g, NameSeparator, j);
    } else if j + 2 == |g| {
      assert s[j] == g[j] && s[j + 1] == g[j + 1];
      assert g[j] != NameSeparator[0] || g[j + 1] != NameSeparator[1];
    } else {
      assert s[j + 1] == NameSeparator[0];
    }
  }

  /** The joined name splits back into group and alert when the group allows it. */
  lemma SplitJoin(g: string, a: string)
    requires SplitsBack(g)
    ensures SplitName(JoinName(g, a)) == (g, a)
  {
    var s := JoinName(g, a);
    assert OccursAt(s, NameSeparator, |g|) by {
      assert s[|g|..|g| + 3] == NameSeparator;
    }
    forall j | 0 <= j < |g| ensures !OccursAt(s, NameSeparator, j) {
      NoEarlyOccurrence(g, a, j);
    }
    assert Index(s, NameSeparator) == Some(|g|);
    assert s[..|g|] == g && s[|g| + 3..] == a;
  }

  /**
   * Without the trailing-dash condition the split goes wrong: group "x -"
   * and alert "y" join to "x - - y", which splits as "x" and "- y".
   */
  lemma SplitJoinTrailingDash()
    ensures !Contains("x -", NameSeparator)
    ensures SplitName(JoinName("x -", "y")) == ("x", "- y")
  {
    var s := JoinName("x -", "y");
    assert !Contains("x -", NameSeparator) by {
      assert "x -"[0] != NameSeparator[0];
    }
    assert Index(s, NameSeparator) == Some(1) by {
      assert s[0] != NameSeparator[0];
      assert s[1..4] == NameSeparator;
    }
    assert s[..1] == "x" && s[4..] == "- y";
  }

  /** A name with no separator comes back doubled: group and alert are both the name. */
  lemma NameWithoutSeparatorDoubles(n: string)
    requires !Contains(n, NameSeparator)
    ensures var (g, a) := SplitName(n); JoinName(g, a) == n + NameSeparator + n
  {
  }

  // ------------------------------------------------------------ Dash0 first

  /** No annotation the reverse conversion writes or the forward one reads. */
  predicate NoReservedKeys(o: Option<StringMap>) {
    forall k | k in EmitOrder :: Get(o, k).None?
  }

  /** The annotations after a round trip: summary and description added when set. */
  function WithTexts(d: Dash0CheckRule): Option<StringMap> {
    match d.annotations
    case None => None
    case Some(m) =>
      var s := if d.summary != "" then m[SummaryKey := d.summary] else m;
      Some(if d.description != "" then s[DescriptionKey := d.description] else s)
  }

  lemma ThresholdBack(o: Option<StringMap>, key: string, n: Int64)
    requires n != 0 ==> Get(o, key) == Some(IntToString(n))
    requires n == 0 ==> Get(o, key).None?
    ensures ReadThreshold(o, key) == Ok(n)
  {
    if n != 0 {
      AtoiOfIntToString(n);
    }
  }

  /**
   * A fractional threshold is refused: the thresholds go through
   * strconv.Atoi, so `"99.99"` is an error naming the annotation.
   */
  lemma FractionalThresholdRejected(p: PrometheusRules, dataset: string, a: StringMap)
    requires |p.groups| == 1 && |p.groups[0].rules| == 1
    requires p.groups[0].rules[0].annotations == Some(a)
    requires Normalizer.ThresholdCritical in a && a[Normalizer.ThresholdCritical] == "99.99"
    ensures FromRules(p, dataset) ==
      Err("invalid value for dash0-threshold-critical: " + "strconv.Atoi: parsing \"99.99\": invalid syntax")
  {
    FractionRead(a);
  }

  lemma FractionRead(a: StringMap)
    requires Normalizer.ThresholdCritical in a && a[Normalizer.ThresholdCritical] == "99.99"
    ensures ReadThreshold(Some(a), Normalizer.ThresholdCritical) ==
      Err("invalid value for dash0-threshold-critical: " + "strconv.Atoi: parsing \"99.99\": invalid syntax")
  {
    var t := "99.99";
    assert Atoi(t).None? by {
      assert !IsDigit(t[2]);
    }
    FractionError();
  }

  lemma FractionError()
    ensures "invalid value for " + Normalizer.ThresholdCritical + ": " + AtoiError("99.99") ==
      "invalid value for dash0-threshold-critical: " + "strconv.Atoi: parsing \"99.99\": invalid syntax"
  {
    FractionAtoiError();
    CriticalPrefix();
  }

  lemma CriticalPrefix()
    ensures "invalid value for " + Normalizer.ThresholdCritical + ": " == "invalid value for dash0-threshold-critical: "
  {
  }

  lemma FractionAtoiError()
    ensures AtoiError("99.99") == "strconv.Atoi: parsing \"99.99\": invalid syntax"
  {
    var t := "99.99";
    assert !IsDigit(t[2]);
    assert GoQuote.Quote(t) == "\"99.99\"" by {
      GoQuote.QuotePlain(t);
    }
  }

  /**
   * A failed Atoi reports a range error exactly when its unsigned text is
   * non-empty and either all digits (so out of int64) or led by digits
   * that already exceed 64 bits, whatever follows them.
   */
  lemma AtoiOutOfRangeExactly(s: string)
    requires Atoi(s).None?
    ensures AtoiOutOfRange(s) <==> var body := Unsigned(s);
      |body| > 0 && (AllDigits(body) || DigitsValue(DigitPrefix(body)) > MaxUint64)
  {
    var body := Unsigned(s);
    if |body| > 0 {
      ScanRange(body, 0);
      if AllDigits(body) {
        ScanDigits(body, 0);
      }
    }
  }

  /** Digits worth more than 64 bits make a failed Atoi a range error, whatever follows them. */
  lemma OverflowBeforeRest(d: string, rest: string)
    requires AllDigits(d) && DigitsValue(d) > MaxUint64
    ensures AtoiOutOfRange(d + rest)
  {
    var s := d + rest;
    assert |d| > 0;
    assert s[0] == d[0] && IsDigit(s[0]);
    assert Unsigned(s) == s;
    DigitPrefixAppend(d, rest);
    DigitsValueFromAppend(d, DigitPrefix(rest), 0);
    DigitsValueFromAtLeast(DigitPrefix(rest), DigitsValue(d));
    ScanRange(s, 0);
  }

  /**
   * Twenty nines overflow before the loop reaches the letter after them, so
   * Atoi reports "value out of range" for `99999999999999999999x`, not
   * "invalid syntax".
   */
  lemma LongDigitsBeforeLetter()
    ensures AtoiOutOfRange(seq(20, _ => '9') + "x")
  {
    var d: string := seq(20, _ => '9');
    TwentyDigitsOverflow(d);
    OverflowBeforeRest(d, "x");
  }

  /** FromRules of a single rule whose annotations all read. */
  lemma FromRulesFields(p: PrometheusRules, dataset: string, failed: Int64, degraded: Int64, enabled: bool)
    requires |p.groups| == 1 && |p.groups[0].rules| == 1
    requires var a := p.groups[0].rules[0].annotations;
      ReadThreshold(a, Normalizer.ThresholdCritical) == Ok(failed) &&
      ReadThreshold(a, Normalizer.ThresholdDegraded) == Ok(degraded) &&
      ReadEnabled(a) == Ok(enabled)
    ensures var g := p.groups[0]; var rule := g.rules[0];
      FromRules(p, dataset) == Ok(Dash0CheckRule(
        dataset, "", JoinName(g.name, rule.alert), rule.expr, Thresholds(degraded, failed),
        TextOf(rule.annotations, SummaryKey), TextOf(rule.annotations, DescriptionKey),
        g.interval, rule.forDuration, rule.keepFiringFor, rule.labels,
        Without(rule.annotations, ParsedKeys), enabled))
  {
  }

  /** The reverse writes exactly the emitted value under a key the record does not carry. */
  lemma WrittenAt(d: Dash0CheckRule, key: string)
    requires d.annotations.Some? || !WritesAnnotations(d)
    requires Get(d.annotations, key).None?
    ensures Get(ToRules(d).groups[0].rules[0].annotations, key) == Emitted(d, key)
  {
    if d.annotations.Some? {
      AddEmittedAt(d, d.annotations.value, key);
    }
  }

  lemma AnnotationsBackAt(d: Dash0CheckRule, m: StringMap, k: string)
    requires NoReservedKeys(Some(m)) && d.annotations == Some(m)
    ensures var r := AddEmitted(d, m) - ParsedKeys; var w := WithTexts(d).value;
      (k in r <==> k in w) && (k in r ==> r[k] == w[k])
  {
    AddEmittedAt(d, m, k);
    assert SummaryKey in EmitOrder && DescriptionKey in EmitOrder;
    assert Get(Some(m), SummaryKey).None? && Get(Some(m), DescriptionKey).None?;
    var s := if d.summary != "" then m[SummaryKey := d.summary] else m;
    var w := if d.description != "" then s[DescriptionKey := d.description] else s;
    assert WithTexts(d).value == w;
    if k in ParsedKeys {
      assert k in EmitOrder;
      assert k !in m;
    } else if k == SummaryKey {
      assert k in w <==> d.summary != "";
    } else if k == DescriptionKey {
      assert k in w <==> d.description != "";
    } else {
      assert Emitted(d, k).None?;
    }
  }

  lemma AnnotationsBack(d: Dash0CheckRule, m: StringMap)
    requires NoReservedKeys(Some(m)) && d.annotations == Some(m)
    ensures Some(AddEmitted(d, m) - ParsedKeys) == WithTexts(d)
  {
    var r := AddEmitted(d, m) - ParsedKeys;
    var w := WithTexts(d).value;
    forall k ensures (k in r <==> k in w) && (k in r ==> r[k] == w[k]) {
      AnnotationsBackAt(d, m, k);
    }
    assert r == w;
  }

  /**
   * Dash0 record to PrometheusRules and back: the same record, without its
   * id and with summary and description also in the annotations, when the
   * name holds a " - " and the annotations hold none of the keys the
   * conversions write or read.
   */
  lemma Dash0RoundTrip(d: Dash0CheckRule)
    requires d.annotations.Some? || !WritesAnnotations(d)
    requires Contains(d.name, NameSeparator)
    requires NoReservedKeys(d.annotations)
    ensures FromRules(ToRules(d), d.dataset) == Ok(d.(id := "", annotations := WithTexts(d)))
  {
    var p := ToRules(d);
    var a := p.groups[0].rules[0].annotations;
    Dash0Reads(d);
    FromRulesFields(p, d.dataset, d.thresholds.failed, d.thresholds.degraded, d.enabled);
    assert Without(a, ParsedKeys) == WithTexts(d) by {
      if d.annotations.Some? {
        AnnotationsBack(d, d.annotations.value);
      }
    }
  }

  /** The thresholds, the enabled flag and the texts the forward conversion writes read back. */
  lemma Dash0Reads(d: Dash0CheckRule)
    requires d.annotations.Some? || !WritesAnnotations(d)
    requires NoReservedKeys(d.annotations)
    ensures var a := ToRules(d).groups[0].rules[0].annotations;
      ReadThreshold(a, Normalizer.ThresholdCritical) == Ok(d.thresholds.failed) &&
      ReadThreshold(a, Normalizer.ThresholdDegraded) == Ok(d.thresholds.degraded) &&
      ReadEnabled(a) == Ok(d.enabled) &&
      TextOf(a, SummaryKey) == d.summary && TextOf(a, DescriptionKey) == d.description
  {
    var a := ToRules(d).groups[0].rules[0].annotations;
    assert forall k | k in EmitOrder :: Get(d.annotations, k).None?;
    WrittenAt(d, Normalizer.ThresholdCritical);
    WrittenAt(d, Normalizer.ThresholdDegraded);
    WrittenAt(d, Normalizer.EnabledKey);
    WrittenAt(d, SummaryKey);
    WrittenAt(d, DescriptionKey);
    ThresholdBack(a, Normalizer.ThresholdCritical, d.thresholds.failed);
    ThresholdBack(a, Normalizer.ThresholdDegraded, d.thresholds.degraded);
  }

  // --------------------------------------------------- PrometheusRules first

  /** Threshold text that Itoa would write back unchanged: a non-zero int in canonical form. */
  predicate CanonicalThreshold(s: string) {
    Atoi(s).Some? && Atoi(s).value != 0 && IntToString(Atoi(s).value) == s
  }

  /** Annotations that already hold what the reverse conversion writes. */
  predicate Canonical(o: Option<StringMap>) {
    (Get(o, Normalizer.ThresholdCritical).Some? ==> CanonicalThreshold(Get(o, Normalizer.ThresholdCritical).value)) &&
    (Get(o, Normalizer.ThresholdDegraded).Some? ==> CanonicalThreshold(Get(o, Normalizer.ThresholdDegraded).value)) &&
    (Get(o, Normalizer.EnabledKey).Some? ==> Get(o, Normalizer.EnabledKey).value == FormatBool(false))
  }

  /** The document a single-rule PrometheusRules comes back as: fixed header, empty metadata. */
  function Header(p: PrometheusRules): PrometheusRules {
    p.(apiVersion := ApiVersion, kind := RuleKind, metadata := Some(map[]))
  }

  lemma AnnotationsRestoredAt(d: Dash0CheckRule, m: StringMap, k: string)
    requires Canonical(Some(m))
    requires d.thresholds.failed == ReadThreshold(Some(m), Normalizer.ThresholdCritical).value
    requires d.thresholds.degraded == ReadThreshold(Some(m), Normalizer.ThresholdDegraded).value
    requires ReadEnabled(Some(m)) == Ok(d.enabled)
    requires d.summary == TextOf(Some(m), SummaryKey) && d.description == TextOf(Some(m), DescriptionKey)
    ensures var r := AddEmitted(d, m - ParsedKeys); (k in r <==> k in m) && (k in r ==> r[k] == m[k])
  {
    AddEmittedAt(d, m - ParsedKeys, k);
  }

  lemma AnnotationsRestored(d: Dash0CheckRule, m: StringMap)
    requires Canonical(Some(m))
    requires d.thresholds.failed == ReadThreshold(Some(m), Normalizer.ThresholdCritical).value
    requires d.thresholds.degraded == ReadThreshold(Some(m), Normalizer.ThresholdDegraded).value
    requires ReadEnabled(Some(m)) == Ok(d.enabled)
    requires d.summary == TextOf(Some(m), SummaryKey) && d.description == TextOf(Some(m), DescriptionKey)
    ensures AddEmitted(d, m - ParsedKeys) == m
  {
    var r := AddEmitted(d, m - ParsedKeys);
    forall k ensures (k in r <==> k in m) && (k in r ==> r[k] == m[k]) {
      AnnotationsRestoredAt(d, m, k);
    }
    assert r == m;
  }

  /**
   * PrometheusRules to Dash0 record and back: the same single rule under
   * the fixed apiVersion and kind, when the group name splits back off and
   * the annotations are canonical.
   */
  lemma RulesRoundTrip(p: PrometheusRules, dataset: string)
    requires |p.groups| == 1 && |p.groups[0].rules| == 1
    requires SplitsBack(p.groups[0].name)
    requires Canonical(p.groups[0].rules[0].annotations)
    ensures FromRules(p, dataset).Ok?
    ensures var d := FromRules(p, dataset).value;
      (d.annotations.Some? || !WritesAnnotations(d)) && ToRules(d) == Header(p)
  {
    var g := p.groups[0];
    var rule := g.rules[0];
    var o := rule.annotations;
    var failed := ReadThreshold(o, Normalizer.ThresholdCritical).value;
    var degraded := ReadThreshold(o, Normalizer.ThresholdDegraded).value;
    var enabled := ReadEnabled(o).value;
    FromRulesFields(p, dataset, failed, degraded, enabled);
    var d := FromRules(p, dataset).value;
    SplitJoin(g.name, rule.alert);
    var back := ToRules(d).groups[0].rules[0];
    assert back.annotations == o by {
      if o.Some? {
        AnnotationsRestored(d, o.value);
      }
    }
    assert back == rule;
    assert ToRules(d).groups[0] == g;
  }

  // ------------------------------------------------- default annotations

  /** The annotations without the entries the normaliser treats as defaults. */
  function DropDefaults(o: Option<StringMap>): (r: Option<StringMap>)
    ensures r.None? <==> o.None?
  {
    if o.None? then None
    else Some(map k | k in o.value && !Normalizer.IsDefaultAnnotation(k, Str(o.value[k])) :: o.value[k])
  }

  /**
   * Annotations that come back as written once defaults are set aside:
   * each threshold absent, `"0"` or in Itoa form; `dash0-enabled` absent,
   * `"true"` or `"false"`.
   */
  predicate LooseCanonical(o: Option<StringMap>) {
    (Get(o, Normalizer.ThresholdCritical).Some? ==>
      Get(o, Normalizer.ThresholdCritical).value == "0" || CanonicalThreshold(Get(o, Normalizer.ThresholdCritical).value)) &&
    (Get(o, Normalizer.ThresholdDegraded).Some? ==>
      Get(o, Normalizer.ThresholdDegraded).value == "0" || CanonicalThreshold(Get(o, Normalizer.ThresholdDegraded).value)) &&
    (Get(o, Normalizer.EnabledKey).Some? ==>
      Get(o, Normalizer.EnabledKey).value == FormatBool(true) || Get(o, Normalizer.EnabledKey).value == FormatBool(false))
  }

  /** The single rule of `p` with its default annotations dropped. */
  function Dropped(p: PrometheusRules): PrometheusRules
    requires |p.groups| == 1 && |p.groups[0].rules| == 1
  {
    var g := p.groups[0];
    var rule := g.rules[0];
    p.(groups := [g.(rules := [rule.(annotations := DropDefaults(rule.annotations))])])
  }

  /** Default annotations read as if absent. */
  lemma FromRulesIgnoresDefaults(p: PrometheusRules, dataset: string)
    requires |p.groups| == 1 && |p.groups[0].rules| == 1
    ensures FromRules(p, dataset) == FromRules(Dropped(p), dataset)
  {
    var o := p.groups[0].rules[0].annotations;
    ThresholdIgnoresDefault(o, Normalizer.ThresholdCritical);
    ThresholdIgnoresDefault(o, Normalizer.ThresholdDegraded);
    EnabledIgnoresDefault(o);
    OthersIgnoreDefaults(o);
  }

  lemma ThresholdIgnoresDefault(o: Option<StringMap>, key: string)
    requires key == Normalizer.ThresholdCritical || key == Normalizer.ThresholdDegraded
    ensures ReadThreshold(o, key) == ReadThreshold(DropDefaults(o), key)
  {
    assert Atoi("0") == Some(0);
    if o.Some? && key in o.value && o.value[key] != "0" {
      assert Get(DropDefaults(o), key) == Get(o, key);
    }
  }

  lemma EnabledIgnoresDefault(o: Option<StringMap>)
    ensures ReadEnabled(o) == ReadEnabled(DropDefaults(o))
  {
    var key := Normalizer.EnabledKey;
    if o.Some? && key in o.value && o.value[key] != "true" {
      assert Get(DropDefaults(o), key) == Get(o, key);
    }
  }

  lemma OthersIgnoreDefaults(o: Option<StringMap>)
    ensures TextOf(o, SummaryKey) == TextOf(DropDefaults(o), SummaryKey)
    ensures TextOf(o, DescriptionKey) == TextOf(DropDefaults(o), DescriptionKey)
    ensures Without(o, ParsedKeys) == Without(DropDefaults(o), ParsedKeys)
  {
    if o.Some? {
      var a, b := o.value - ParsedKeys, DropDefaults(o).value - ParsedKeys;
      forall k | k in a ensures k in b {
        assert !Normalizer.IsDefaultAnnotation(k, Str(o.value[k]));
      }
      assert a == b;
    }
  }

  /**
   * The round trip of a single-rule document whose annotations may also
   * spell the defaults: it comes back under the fixed header with those
   * default entries gone.
   */
  lemma LooseRulesRoundTrip(p: PrometheusRules, dataset: string)
    requires |p.groups| == 1 && |p.groups[0].rules| == 1
    requires SplitsBack(p.groups[0].name)
    requires LooseCanonical(p.groups[0].rules[0].annotations)
    ensures FromRules(p, dataset).Ok?
    ensures var d := FromRules(p, dataset).value;
      (d.annotations.Some? || !WritesAnnotations(d)) && ToRules(d) == Header(Dropped(p))
  {
    FromRulesIgnoresDefaults(p, dataset);
    assert Canonical(DropDefaults(p.groups[0].rules[0].annotations));
    RulesRoundTrip(Dropped(p), dataset);
  }

  /**
   * Default-valued annotations do not survive: `dash0-enabled: "true"`
   * is read as enabled and not written back.
   */
  lemma EnabledTrueDropped(p: PrometheusRules, dataset: string)
    requires |p.groups| == 1 && |p.groups[0].rules| == 1
    requires p.groups[0].rules[0].annotations == Some(map[Normalizer.EnabledKey := "true"])
    ensures FromRules(p, dataset).Ok?
    ensures ToRules(FromRules(p, dataset).value).groups[0].rules[0].annotations == Some(map[])
  {
    var o := p.groups[0].rules[0].annotations;
    FromRulesFields(p, dataset, 0, 0, true);
    var d := FromRules(p, dataset).value;
    assert d.annotations == Some(map[]) by {
      assert o.value - ParsedKeys == map[];
    }
    var r := AddEmitted(d, map[]);
    forall k ensures k !in r {
      AddEmittedAt(d, map[], k);
    }
    assert r == map[];
  }

  // ------------------------------------------------------------ the legacy bridge

  /** The legacy bridge leaves `dash0-enabled` where it was and enables every record. */
  lemma LegacyKeepsEnabledAnnotation(p: PrometheusRules, dataset: string)
    requires LegacyFromRules(p, dataset).Ok?
    ensures var d := LegacyFromRules(p, dataset).value;
      d.enabled && Get(d.annotations, Normalizer.EnabledKey) == Get(p.groups[0].rules[0].annotations, Normalizer.EnabledKey)
  {
  }

  /** Without a `dash0-enabled` annotation both bridges read a document alike. */
  lemma LegacyAgreesWithoutEnabledKey(p: PrometheusRules, dataset: string)
    requires |p.groups| == 1 && |p.groups[0].rules| == 1
    requires Get(p.groups[0].rules[0].annotations, Normalizer.EnabledKey).None?
    ensures LegacyFromRules(p, dataset) == FromRules(p, dataset)
  {
    var o := p.groups[0].rules[0].annotations;
    if o.Some? {
      assert o.value - LegacyParsedKeys == o.value - ParsedKeys;
    }
  }

  /** For an enabled record both bridges write the same document. */
  lemma LegacyAgreesWhenEnabled(d: Dash0CheckRule)
    requires d.enabled
    requires d.annotations.Some? || !WritesAnnotations(d)
    ensures LegacyToRules(d) == ToRules(d)
  {
    if d.annotations.Some? {
      var m := d.annotations.value;
      assert LegacyAddEmitted(d, m) == AddEmitted(d, m);
    }
  }

  /** A disabled record comes back enabled through the legacy bridge. */
  lemma LegacyLosesDisabled(d: Dash0CheckRule)
    requires !d.enabled && d.annotations.Some?
    requires Get(d.annotations, Normalizer.ThresholdCritical).None? && Get(d.annotations, Normalizer.ThresholdDegraded).None?
    ensures LegacyFromRules(LegacyToRules(d), d.dataset).Ok?
    ensures LegacyFromRules(LegacyToRules(d), d.dataset).value.enabled
    ensures FromRules(ToRules(d), d.dataset).Ok? ==> !FromRules(ToRules(d), d.dataset).value.enabled
  {
    var m := d.annotations.value;
    var o := LegacyToRules(d).groups[0].rules[0].annotations;
    assert o == Some(LegacyAddEmitted(d, m));
    LegacyAddEmittedAt(d, m, Normalizer.ThresholdCritical);
    LegacyAddEmittedAt(d, m, Normalizer.ThresholdDegraded);
    ThresholdBack(o, Normalizer.ThresholdCritical, d.thresholds.failed);
    ThresholdBack(o, Normalizer.ThresholdDegraded, d.thresholds.degraded);
    AddEmittedAt(d, m, Normalizer.EnabledKey);
    assert Get(ToRules(d).groups[0].rules[0].annotations, Normalizer.EnabledKey) == Some(FormatBool(false));
  }
}
