/**
 * The YAMLSemanticEqual plan modifier of planmodifier/yaml_semantic_equal.go:
 * when the configured YAML and the YAML in the prior state are equivalent
 * resources, the plan takes the state value, so formatting-only edits do not
 * show up as a diff.
 */
module PlanModifier {
  import opened Wrappers
  import opened Values
  import opened Normalizer
  import NormalizerLemmas

  /** A Terraform string attribute: null, unknown until apply, or a known text. */
  datatype TfString = NullString | UnknownString | KnownString(text: string)

  /** ValueString: the text of a known value and "" for null or unknown. */
  function ValueString(v: TfString): string {
    if v.KnownString? then v.text else ""
  }

  /**
   * The YAML decoder, a parameter of the model: None for text that is not
   * YAML, otherwise the decoded document (Some(Null) for an empty one).
   */
  type Decoder = string -> Option<Value>

  /** The comparison the modifier runs once config and state are both present. */
  function Verdict(config: TfString, state: TfString, parse: Decoder): Result<bool, string> {
    ResourceYAMLEquivalent(parse(ValueString(config)), parse(ValueString(state)))
  }

  /**
   * PlanModifyString: the plan value the framework continues with. Nothing
   * changes for a null or unknown config, a null state (a new resource) or a
   * failed comparison; equivalent YAMLs replace the plan by the state.
   */
  function PlanModifyString(config: TfString, state: TfString, plan: TfString, parse: Decoder): (r: TfString)
    ensures r == plan || r == state
    ensures config.NullString? || config.UnknownString? ==> r == plan
    ensures state.NullString? ==> r == plan
    ensures config.KnownString? && !state.NullString? && Verdict(config, state, parse).Err? ==> r == plan
    ensures r != plan ==> config.KnownString? && !state.NullString? && Verdict(config, state, parse) == Ok(true)
    ensures config.KnownString? && !state.NullString? && Verdict(config, state, parse) == Ok(true) ==> r == state
  {
    if config.NullString? || config.UnknownString? then plan
    else if state.NullString? then plan
    else
      match Verdict(config, state, parse)
      case Err(_) => plan
      case Ok(equivalent) => if equivalent then state else plan
  }

  /** Running the modifier on its own output changes nothing more. */
  lemma PlanModifyIdempotent(config: TfString, state: TfString, plan: TfString, parse: Decoder)
    ensures var r := PlanModifyString(config, state, plan, parse);
      PlanModifyString(config, state, r, parse) == r
  {
  }

  /** A config that repeats the state's text keeps the state, whenever that text normalises. */
  lemma SameTextKeepsState(t: string, plan: TfString, parse: Decoder)
    requires NormalizeYAML(parse(t)).Ok?
    ensures PlanModifyString(KnownString(t), KnownString(t), plan, parse) == KnownString(t)
  {
    NormalizerLemmas.EquivalentReflexive(parse(t));
  }

  /** Text that is not YAML leaves the plan as it is. */
  lemma InvalidConfigKeepsPlan(config: string, state: TfString, plan: TfString, parse: Decoder)
    requires parse(config).None?
    ensures PlanModifyString(KnownString(config), state, plan, parse) == plan
  {
  }

  /** A config that differs from the state only in `apiVersion` or `kind` keeps the state. */
  lemma TopLevelEditKeepsState(c: string, s: string, m: map<string, Value>, k: string, x: Value, y: Value, plan: TfString, parse: Decoder)
    requires k in IgnoredTopLevel
    requires parse(c) == Some(Map(m[k := x])) && parse(s) == Some(Map(m[k := y]))
    ensures PlanModifyString(KnownString(c), KnownString(s), plan, parse) == KnownString(s)
  {
    NormalizerLemmas.TopLevelIgnoredFieldsIrrelevant(m, k, x, y);
  }

  /**
   * A config that differs from the state only in one ignored field of
   * `metadata` (its name, labels, annotations, timestamps, version or
   * extensions) keeps the state.
   */
  lemma MetadataEditKeepsState(c: string, s: string, m: map<string, Value>, md: map<string, Value>, f: string,
                               x: Value, y: Value, plan: TfString, parse: Decoder)
    requires f in IgnoredMetadata
    requires parse(c) == Some(Map(m[Metadata := Map(md[f := x])]))
    requires parse(s) == Some(Map(m[Metadata := Map(md[f := y])]))
    ensures PlanModifyString(KnownString(c), KnownString(s), plan, parse) == KnownString(s)
  {
    NormalizerLemmas.MetadataIgnoredFieldsIrrelevant(m, md, f, x, y);
  }

  /**
   * Swapping the texts of config and state does not change whether the
   * state is kept: the decision is symmetric in the two documents.
   */
  lemma DecisionSymmetric(a: string, b: string, parse: Decoder)
    requires KnownString(a) != KnownString(b)
    ensures PlanModifyString(KnownString(a), KnownString(b), KnownString(a), parse) == KnownString(b) <==>
            PlanModifyString(KnownString(b), KnownString(a), KnownString(b), parse) == KnownString(a)
  {
    NormalizerLemmas.EquivalentSymmetric(parse(a), parse(b));
  }
}
