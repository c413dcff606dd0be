/**
 * The YAML form of the check-rule records round-trips: decoding what
 * yaml.Marshal writes gives back the record, except that nil maps come back
 * empty. Durations survive because the parser inverts Duration.String.
 */
module CheckRuleYaml {
  import opened Wrappers
  import opened Text
  import opened Duration
  import opened Values
  import opened CheckRuleTypes
  import Normalizer
  import DurationRoundTrip

  /** A duration written by MarshalYAML reads back through unmarshalValue. */
  lemma DurationTextRoundTrip(d: Nanos)
    ensures DecodeDuration(EncodeDuration(d)) == Ok(d)
  {
    DurationRoundTrip.ParseFormat(d);
  }

  /** An integer node is read as that many nanoseconds. */
  lemma IntegerNanoseconds(i: int)
    requires InInt64(i)
    ensures DecodeDuration(Int(i)) == Ok(i)
  {
  }

  lemma StringMapRoundTrip(o: Option<StringMap>)
    ensures DecodeStringMap(EncodeStringMap(o)) == Ok(Filled(o))
  {
    var v := EncodeStringMap(o);
    var r := DecodeStringMap(v);
    assert r.Ok?;
    assert r.value.value == Filled(o).value;
  }

  /** DecodeRule of a mapping whose every field decodes. */
  lemma DecodeRuleFields(m: map<string, Value>, r: Rule)
    requires DecodeString(Field(m, "alert")) == Ok(r.alert)
    requires DecodeString(Field(m, "expr")) == Ok(r.expr)
    requires DecodeDuration(Field(m, "for")) == Ok(r.forDuration)
    requires DecodeDuration(Field(m, Normalizer.KeepFiringFor)) == Ok(r.keepFiringFor)
    requires DecodeStringMap(Field(m, Normalizer.Annotations)) == Ok(r.annotations)
    requires DecodeStringMap(Field(m, Normalizer.Labels)) == Ok(r.labels)
    ensures DecodeRule(Map(m)) == Ok(Some(r))
  {
  }

  lemma RuleRoundTrip(r: Rule)
    ensures DecodeRule(EncodeRule(r)) == Ok(Some(FilledRule(r)))
  {
    var m := EncodeRule(r).entries;
    EncodedRuleFields(r);
    DecodeRuleFields(m, FilledRule(r));
    assert EncodeRule(r) == Map(m);
  }

  /** Each field of a written rule reads back as the filled rule's field. */
  lemma EncodedRuleFields(r: Rule)
    ensures var m := EncodeRule(r).entries; var f := FilledRule(r);
      DecodeString(Field(m, "alert")) == Ok(f.alert) &&
      DecodeString(Field(m, "expr")) == Ok(f.expr) &&
      DecodeDuration(Field(m, "for")) == Ok(f.forDuration) &&
      DecodeDuration(Field(m, Normalizer.KeepFiringFor)) == Ok(f.keepFiringFor) &&
      DecodeStringMap(Field(m, Normalizer.Annotations)) == Ok(f.annotations) &&
      DecodeStringMap(Field(m, Normalizer.Labels)) == Ok(f.labels)
  {
    var m := EncodeRule(r).entries;
    var f := FilledRule(r);
    assert DecodeString(Field(m, "alert")) == Ok(f.alert) by {
      assert Field(m, "alert") == Str(r.alert);
    }
    assert DecodeString(Field(m, "expr")) == Ok(f.expr) by {
      assert Field(m, "expr") == Str(r.expr);
    }
    assert DecodeDuration(Field(m, "for")) == Ok(f.forDuration) by {
      assert Field(m, "for") == EncodeDuration(r.forDuration);
      DurationTextRoundTrip(r.forDuration);
    }
    assert DecodeDuration(Field(m, Normalizer.KeepFiringFor)) == Ok(f.keepFiringFor) by {
      if r.keepFiringFor != 0 {
        DurationTextRoundTrip(r.keepFiringFor);
      }
    }
    assert DecodeStringMap(Field(m, Normalizer.Annotations)) == Ok(f.annotations) by {
      assert Field(m, Normalizer.Annotations) == EncodeStringMap(r.annotations);
      StringMapRoundTrip(r.annotations);
    }
    assert DecodeStringMap(Field(m, Normalizer.Labels)) == Ok(f.labels) by {
      assert Field(m, Normalizer.Labels) == EncodeStringMap(r.labels);
      StringMapRoundTrip(r.labels);
    }
  }

  lemma RuleListRoundTrip(rs: seq<Rule>)
    ensures DecodeRuleList(EncodeRuleList(rs)) == Ok(FilledRuleList(rs))
  {
    var vs := EncodeRuleList(rs);
    forall i | 0 <= i < |vs| ensures DecodeRule(vs[i]) == Ok(Some(FilledRule(rs[i]))) {
      RuleRoundTrip(rs[i]);
    }
    NonNullKeeps(vs);
    var r := DecodeRuleList(vs);
    assert r.value == FilledRuleList(rs);
  }

  lemma GroupRoundTrip(g: RuleGroup)
    ensures DecodeGroup(EncodeGroup(g)) == Ok(Some(FilledGroup(g)))
  {
    var m := EncodeGroup(g).entries;
    assert Field(m, "name") == Str(g.name);
    assert Field(m, "interval") == EncodeDuration(g.interval);
    assert Field(m, "rules") == List(EncodeRuleList(g.rules));
    DurationTextRoundTrip(g.interval);
    RuleListRoundTrip(g.rules);
  }

  lemma GroupListRoundTrip(gs: seq<RuleGroup>)
    ensures DecodeGroupList(EncodeGroupList(gs)) == Ok(FilledGroupList(gs))
  {
    var vs := EncodeGroupList(gs);
    forall i | 0 <= i < |vs| ensures DecodeGroup(vs[i]) == Ok(Some(FilledGroup(gs[i]))) {
      GroupRoundTrip(gs[i]);
    }
    NonNullKeeps(vs);
    var r := DecodeGroupList(vs);
    assert r.value == FilledGroupList(gs);
  }

  lemma DecodeRulesFields(m: map<string, Value>, p: PrometheusRules)
    requires DecodeString(Field(m, "apiVersion")) == Ok(p.apiVersion)
    requires DecodeString(Field(m, "kind")) == Ok(p.kind)
    requires DecodeStringMap(Field(m, Normalizer.Metadata)) == Ok(p.metadata)
    requires DecodeSpec(Field(m, "spec")) == Ok(p.groups)
    ensures DecodePrometheusRules(Map(m)) == Ok(p)
  {
  }

  /** Decoding what yaml.Marshal writes gives the record back, nil maps filled. */
  lemma RulesRoundTrip(p: PrometheusRules)
    ensures DecodePrometheusRules(EncodePrometheusRules(p)) == Ok(FilledRules(p))
  {
    var m := EncodePrometheusRules(p).entries;
    var f := FilledRules(p);
    assert DecodeString(Field(m, "apiVersion")) == Ok(f.apiVersion) by {
      assert Field(m, "apiVersion") == Str(p.apiVersion);
    }
    assert DecodeString(Field(m, "kind")) == Ok(f.kind) by {
      assert Field(m, "kind") == Str(p.kind);
    }
    assert DecodeStringMap(Field(m, Normalizer.Metadata)) == Ok(f.metadata) by {
      assert Field(m, Normalizer.Metadata) == EncodeStringMap(p.metadata);
      StringMapRoundTrip(p.metadata);
    }
    assert DecodeSpec(Field(m, "spec")) == Ok(f.groups) by {
      var spec := map["groups" := List(EncodeGroupList(p.groups))];
      assert Field(m, "spec") == Map(spec);
      assert Field(spec, "groups") == List(EncodeGroupList(p.groups));
      GroupListRoundTrip(p.groups);
    }
    DecodeRulesFields(m, f);
  }

  /** Writing is injective up to nil maps: a record without nil maps is read back exactly. */
  lemma RulesRoundTripExact(p: PrometheusRules)
    requires FilledRules(p) == p
    ensures DecodePrometheusRules(EncodePrometheusRules(p)) == Ok(p)
  {
    RulesRoundTrip(p);
  }

  // ------------------------------------------------------ null elements

  /** A null element of `groups` or `rules` is left out of the slice. */
  lemma NullElementDropped(items: seq<Value>)
    ensures DecodeRuleList([Null] + items) == DecodeRuleList(items)
    ensures DecodeGroupList([Null] + items) == DecodeGroupList(items)
  {
    assert ([Null] + items)[1..] == items;
  }

  /** `rules: [~]` is a group without rules. */
  lemma NullRulesAreNone()
    ensures DecodeRules(List([Null])) == Ok([])
  {
    NullElementDropped([]);
    assert [Null] + [] == [Null];
  }

  /** `groups: [~, g]` is the one group `g`. */
  lemma NullGroupSkipped(spec: map<string, Value>, g: map<string, Value>)
    requires DecodeGroup(Map(g)).Ok?
    ensures DecodeSpec(Map(spec["groups" := List([Null, Map(g)])])) == Ok([DecodeGroup(Map(g)).value.value])
  {
    var gs := [Null, Map(g)];
    var one := DecodeGroup(Map(g)).value.value;
    NullElementDropped([Map(g)]);
    assert [Null] + [Map(g)] == gs;
    NonNullKeeps([Map(g)]);
    var l := DecodeGroupList([Map(g)]);
    assert l.Ok? && |l.value| == 1 && l.value[0] == one;
    assert l.value == [one];
    assert Field(spec["groups" := List(gs)], "groups") == List(gs);
  }
}
