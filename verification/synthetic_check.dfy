/**
 * The decisions of synthetic_check_resource.go: which YAML a Read keeps,
 * how an import ID names a check, which client calls Create and Update
 * issue, and that text which is not YAML is refused before any call. The
 * API client and the YAML decoder are parameters; the Terraform framework
 * plumbing around them is not modelled.
 */
module SyntheticCheckResource {
  import opened Wrappers
  import opened Text
  import opened Values
  import opened Normalizer
  import NormalizerLemmas

  /** model.SyntheticCheck: the resource's three attributes. */
  datatype SyntheticCheck = SyntheticCheck(origin: string, dataset: string, yaml: string)

  /** A diagnostic added to the response: a warning, or an error that fails the operation. */
  datatype Diagnostic = Warning(summary: string, detail: string) | Error(summary: string, detail: string)

  /** A call into the API client. */
  datatype Call =
    | GetCheck(dataset: string, origin: string)
    | CreateCheck(check: SyntheticCheck)
    | UpdateCheck(check: SyntheticCheck)
    | DeleteCheck(origin: string, dataset: string)

  /**
   * What an operation did: the client calls in order, the state it wrote
   * (None when it wrote none) and the diagnostics it added.
   */
  datatype Outcome = Outcome(calls: seq<Call>, state: Option<SyntheticCheck>, diagnostics: seq<Diagnostic>)

  /** The YAML decoder: None for text that is not YAML. */
  type Decoder = string -> Option<Value>

  /** GetSyntheticCheck(dataset, origin): the check, or the client's error. */
  type Fetcher = (string, string) -> Result<SyntheticCheck, string>

  /** A create, update or delete call: its error, None on success. */
  type Sender = Call -> Option<string>

  const OriginPrefix: string := "tf_"
  const InvalidYaml: string := "Invalid YAML"
  const ClientError: string := "Client Error"

  // -------------------------------------------------------------------- read

  /**
   * The refresh of the YAML attribute on Read: an empty state adopts the
   * API's text; otherwise the state's text stays when the two documents are
   * equivalent and is replaced when they are not, or (with a warning) when
   * they cannot be compared.
   */
  function RefreshYaml(current: string, fetched: string, parse: Decoder): (r: (string, seq<Diagnostic>))
    ensures r.0 == current || r.0 == fetched
    ensures current == "" ==> r == (fetched, [])
    ensures r.0 != fetched ==> ResourceYAMLEquivalent(parse(current), parse(fetched)) == Ok(true)
    ensures current != "" && ResourceYAMLEquivalent(parse(current), parse(fetched)) == Ok(true) ==> r == (current, [])
    ensures r.1 != [] <==> current != "" && ResourceYAMLEquivalent(parse(current), parse(fetched)).Err?
    ensures forall i | 0 <= i < |r.1| :: r.1[i].Warning?
  {
    if current == "" then (fetched, [])
    else
      match ResourceYAMLEquivalent(parse(current), parse(fetched))
      case Err(e) =>
        (fetched, [Warning("Synthetic Check Comparison Error",
                           "Error comparing synthetic checks: " + e + ". Using API response as source of truth.")])
      case Ok(equivalent) => if equivalent then (current, []) else (fetched, [])
  }

  /**
   * Read: fetch the check named by the state; a client error fails the
   * refresh without writing state, otherwise the state keeps its origin and
   * dataset and its YAML is refreshed.
   */
  function Read(state: SyntheticCheck, get: Fetcher, parse: Decoder): (r: Outcome)
    ensures r.calls == [GetCheck(state.dataset, state.origin)]
    ensures r.state.None? <==> get(state.dataset, state.origin).Err?
    ensures r.state.None? ==> |r.diagnostics| == 1 && r.diagnostics[0].Error?
    ensures r.state.Some? ==> r.state.value.origin == state.origin && r.state.value.dataset == state.dataset
    ensures r.state.Some? ==> forall i | 0 <= i < |r.diagnostics| :: r.diagnostics[i].Warning?
    ensures r.state.Some? ==> r.state.value.yaml in {state.yaml, get(state.dataset, state.origin).value.yaml}
  {
    var call := GetCheck(state.dataset, state.origin);
    match get(state.dataset, state.origin)
    case Err(e) => Outcome([call], None, [Error(ClientError, "Unable to read synthetic check, got error: " + e)])
    case Ok(check) =>
      var (yaml, warnings) := RefreshYaml(state.yaml, check.yaml, parse);
      Outcome([call], Some(state.(yaml := yaml)), warnings)
  }

  /** Refreshing against the same API text a second time changes nothing more. */
  lemma RefreshIdempotent(current: string, fetched: string, parse: Decoder)
    ensures var y := RefreshYaml(current, fetched, parse).0; RefreshYaml(y, fetched, parse).0 == y
  {
    var y := RefreshYaml(current, fetched, parse).0;
    if y == fetched && fetched != "" && NormalizeYAML(parse(fetched)).Ok? {
      NormalizerLemmas.EquivalentReflexive(parse(fetched));
    }
  }

  /** A second Read against an unchanged API writes the same state as the first. */
  lemma ReadIdempotent(state: SyntheticCheck, get: Fetcher, parse: Decoder)
    requires Read(state, get, parse).state.Some?
    ensures Read(Read(state, get, parse).state.value, get, parse).state == Read(state, get, parse).state
  {
    RefreshIdempotent(state.yaml, get(state.dataset, state.origin).value.yaml, parse);
  }

  /**
   * An API answer that differs from the state only in a top-level
   * `apiVersion` or `kind` keeps the state's text byte for byte.
   */
  lemma ReadKeepsOnTopLevelChange(state: SyntheticCheck, get: Fetcher, parse: Decoder,
                                  m: map<string, Value>, k: string, x: Value, y: Value)
    requires state.yaml != "" && k in IgnoredTopLevel
    requires get(state.dataset, state.origin).Ok?
    requires parse(state.yaml) == Some(Map(m[k := x]))
    requires parse(get(state.dataset, state.origin).value.yaml) == Some(Map(m[k := y]))
    ensures Read(state, get, parse) == Outcome([GetCheck(state.dataset, state.origin)], Some(state), [])
  {
    NormalizerLemmas.TopLevelIgnoredFieldsIrrelevant(m, k, x, y);
  }

  /**
   * An API answer that differs from the state only in one ignored field of
   * `metadata` (timestamps, version, labels and the like) keeps the state's
   * text byte for byte.
   */
  lemma ReadKeepsOnMetadataChange(state: SyntheticCheck, get: Fetcher, parse: Decoder,
                                  m: map<string, Value>, md: map<string, Value>, f: string, x: Value, y: Value)
    requires state.yaml != "" && f in IgnoredMetadata
    requires get(state.dataset, state.origin).Ok?
    requires parse(state.yaml) == Some(Map(m[Metadata := Map(md[f := x])]))
    requires parse(get(state.dataset, state.origin).value.yaml) == Some(Map(m[Metadata := Map(md[f := y])]))
    ensures Read(state, get, parse) == Outcome([GetCheck(state.dataset, state.origin)], Some(state), [])
  {
    NormalizerLemmas.MetadataIgnoredFieldsIrrelevant(m, md, f, x, y);
  }

  // ------------------------------------------------------------------ import

  /** strings.Split of an ID with exactly one comma: the text on either side of it. */
  lemma SplitOnTwo(s: string, c: char)
    requires |SplitOn(s, c)| == 2
    ensures s == SplitOn(s, c)[0] + [c] + SplitOn(s, c)[1]
  {
    var i := FirstIndexOf(s, c);
    var rest := SplitOn(s[i + 1..], c);
    assert |rest| == 1;
    assert c !in s[i + 1..];
    assert s == s[..i] + [c] + s[i + 1..];
  }

  /** The first `c` of `a + [c] + b` is the one between them when `a` holds none. */
  lemma {:induction false} FirstIndexAfter(a: string, b: string, c: char)
    requires c !in a
    ensures FirstIndexOf(a + [c] + b, c) == |a|
  {
    var s := a + [c] + b;
    if |a| > 0 {
      assert s[0] == a[0] && s[1..] == a[1..] + [c] + b;
      FirstIndexAfter(a[1..], b, c);
    }
  }

  /** Joining two comma-free parts with a comma splits back into the same two parts. */
  lemma SplitOnJoin(a: string, b: string, c: char)
    requires c !in a && c !in b
    ensures SplitOn(a + [c] + b, c) == [a, b]
  {
    var s := a + [c] + b;
    assert s[|a|] == c;
    FirstIndexAfter(a, b, c);
    assert s[..|a|] == a && s[|a| + 1..] == b;
  }

  /**
   * ImportState: an ID of the form "dataset,origin" fetches that check and
   * adopts what the API returns; any other ID is refused without a call.
   */
  function ImportState(id: string, get: Fetcher): (r: Outcome)
    ensures r.calls == [] <==> CountChar(id, ',') != 1
    ensures r.calls == [] ==> r.state.None? && |r.diagnostics| == 1 && r.diagnostics[0].Error?
    ensures r.calls != [] ==> exists dataset, origin ::
      id == dataset + "," + origin && ',' !in dataset && ',' !in origin && r.calls == [GetCheck(dataset, origin)]
    ensures r.state.Some? ==> r.calls != [] && get(r.calls[0].dataset, r.calls[0].origin) == Ok(r.state.value)
  {
    var parts := SplitOn(id, ',');
    if |parts| != 2 then
      Outcome([], None, [Error("Invalid Import ID", "Expected import ID in the format 'dataset,origin'. Got: " + id)])
    else
      var dataset := parts[0];
      var origin := parts[1];
      SplitOnTwo(id, ',');
      var call := GetCheck(dataset, origin);
      match get(dataset, origin)
      case Err(e) =>
        Outcome([call], None, [Error("Error Importing Synthetic Check",
          "Could not get synthetic check with origin=" + origin + ", dataset=" + dataset + ": " + e)])
      case Ok(check) => Outcome([call], Some(check), [])
  }

  /** The ID "dataset,origin" of a check whose names hold no comma imports exactly that check. */
  lemma ImportIdRoundTrip(dataset: string, origin: string, get: Fetcher)
    requires ',' !in dataset && ',' !in origin
    ensures ImportState(dataset + "," + origin, get).calls == [GetCheck(dataset, origin)]
    ensures ImportState(dataset + "," + origin, get).state ==
      (if get(dataset, origin).Ok? then Some(get(dataset, origin).value) else None)
  {
    SplitOnJoin(dataset, origin, ',');
    assert dataset + "," + origin == dataset + [','] + origin;
  }

  // ---------------------------------------------------------- create, update

  /**
   * Create: the plan under the origin "tf_" + a fresh uuid (a parameter);
   * text that is not YAML is refused before the client is called.
   */
  function Create(plan: SyntheticCheck, uuid: string, parse: Decoder, send: Sender): (r: Outcome)
    ensures r.calls == [] <==> parse(plan.yaml).None?
    ensures r.calls == [] ==> r.state.None? && r.diagnostics == [Error(InvalidYaml, "Synthetic check definition is not valid YAML")]
    ensures r.calls != [] ==> r.calls == [CreateCheck(plan.(origin := OriginPrefix + uuid))]
    ensures r.state.Some? <==> r.calls != [] && send(r.calls[0]).None?
    ensures r.state.Some? ==> r.state.value == plan.(origin := OriginPrefix + uuid) && r.diagnostics == []
  {
    var m := plan.(origin := OriginPrefix + uuid);
    if parse(m.yaml).None? then
      Outcome([], None, [Error(InvalidYaml, "Synthetic check definition is not valid YAML")])
    else
      match send(CreateCheck(m))
      case Some(e) => Outcome([CreateCheck(m)], None, [Error(ClientError, "Unable to create synthetic check, got error: " + e)])
      case None => Outcome([CreateCheck(m)], Some(m), [])
  }

  /**
   * Update: the plan under the state's origin. A changed dataset deletes the
   * check from the old dataset and creates it in the new one; otherwise one
   * update is sent. The first failing call ends the operation with an error
   * and no state; text that is not YAML is refused before any call.
   */
  function Update(state: SyntheticCheck, plan: SyntheticCheck, parse: Decoder, send: Sender): (r: Outcome)
    ensures r.calls == [] <==> parse(plan.yaml).None?
    ensures r.calls == [] ==> r.state.None? && r.diagnostics == [Error(InvalidYaml, "Synthetic check definition is not valid YAML")]
    ensures state.dataset != plan.dataset && r.calls != [] ==>
      r.calls <= [DeleteCheck(state.origin, state.dataset), CreateCheck(plan.(origin := state.origin))]
    ensures state.dataset == plan.dataset && r.calls != [] ==> r.calls == [UpdateCheck(plan.(origin := state.origin))]
    ensures forall i | 0 <= i < |r.calls| - 1 :: send(r.calls[i]).None?
    ensures r.state.Some? <==> r.calls != [] && send(r.calls[|r.calls| - 1]).None?
    ensures r.state.Some? ==> r.state.value == plan.(origin := state.origin) && r.diagnostics == []
    ensures r.state.Some? && state.dataset != plan.dataset ==> |r.calls| == 2
    ensures r.state.None? ==> |r.diagnostics| == 1 && r.diagnostics[0].Error?
  {
    if parse(plan.yaml).None? then
      Outcome([], None, [Error(InvalidYaml, "Synthetic check definition is not valid YAML")])
    else
      var p := plan.(origin := state.origin);
      if state.dataset != plan.dataset then
        var delete := DeleteCheck(state.origin, state.dataset);
        match send(delete)
        case Some(e) =>
          Outcome([delete], None, [Error(ClientError, "Unable to delete synthetic check from old dataset, got error: " + e)])
        case None =>
          match send(CreateCheck(p))
          case Some(e) =>
            Outcome([delete, CreateCheck(p)], None, [Error(ClientError, "Unable to create synthetic check in new dataset, got error: " + e)])
          case None => Outcome([delete, CreateCheck(p)], Some(p), [])
      else
        match send(UpdateCheck(p))
        case Some(e) => Outcome([UpdateCheck(p)], None, [Error(ClientError, "Unable to update synthetic check, got error: " + e)])
        case None => Outcome([UpdateCheck(p)], Some(p), [])
  }

  /** A created check keeps its generated origin through any number of successful updates. */
  lemma CreateThenUpdateKeepsOrigin(plan: SyntheticCheck, next: SyntheticCheck, uuid: string, parse: Decoder, send: Sender)
    requires Create(plan, uuid, parse, send).state.Some?
    requires Update(Create(plan, uuid, parse, send).state.value, next, parse, send).state.Some?
    ensures Update(Create(plan, uuid, parse, send).state.value, next, parse, send).state.value ==
      next.(origin := OriginPrefix + uuid)
  {
  }

  /**
   * After a successful Update, a Read that gets back the written check
   * keeps the written state unchanged, and adds no diagnostic when the
   * text is a resource document.
   */
  lemma UpdateThenReadKeeps(state: SyntheticCheck, plan: SyntheticCheck, parse: Decoder, send: Sender, get: Fetcher)
    requires Update(state, plan, parse, send).state.Some?
    requires var w := Update(state, plan, parse, send).state.value; get(w.dataset, w.origin) == Ok(w)
    ensures var w := Update(state, plan, parse, send).state.value; Read(w, get, parse).state == Some(w)
    ensures NormalizeYAML(parse(plan.yaml)).Ok? ==> Read(Update(state, plan, parse, send).state.value, get, parse).diagnostics == []
  {
    var w := Update(state, plan, parse, send).state.value;
    if w.yaml != "" && NormalizeYAML(parse(w.yaml)).Ok? {
      NormalizerLemmas.EquivalentReflexive(parse(w.yaml));
    }
  }
}
