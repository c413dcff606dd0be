/**
 * The older drift check of provider/normalizer.go: it only deletes a fixed
 * list of field paths and then compares the re-decoded trees with
 * reflect.DeepEqual, so sequence order, `metadata.name`, empty values and
 * the int/float distinction all still count.
 */
module LegacyNormalizer {
  import opened Wrappers
  import opened Text
  import opened Values
  import opened Normalizer

  /** The legacy ignoredFields: no `metadata.annotations`, no `metadata.name`. */
  const LegacyIgnoredMetadata: seq<string> :=
    ["labels", "createdAt", "updatedAt", "version", "dash0Extensions"]

  const LegacyIgnoredFields: seq<string> := IgnoredTopLevel + UnderKey(Metadata, LegacyIgnoredMetadata)

  // ------------------------------------------------------------ field paths

  /**
   * removeField's split of a path: every '.' ends a part (an empty part
   * included); the text after the last '.' is a part only when non-empty.
   */
  function PathParts(path: string): (parts: seq<string>)
    ensures forall i | 0 <= i < |parts| :: '.' !in parts[i]
  {
    var pieces := SplitOn(path, '.');
    if pieces[|pieces| - 1] == "" then pieces[..|pieces| - 1] else pieces
  }

  /**
   * The value at a path of keys, descending only through mappings: None
   * when a key is missing or an intermediate value is not a mapping.
   */
  function Lookup(data: map<string, Value>, parts: seq<string>): (r: Option<Value>)
    requires |parts| > 0
    ensures r.Some? && |parts| == 1 ==> parts[0] in data && r.value == data[parts[0]]
    decreases |parts|
  {
    if parts[0] !in data then None
    else if |parts| == 1 then Some(data[parts[0]])
    else if data[parts[0]].Map? then Lookup(data[parts[0]].entries, parts[1..])
    else None
  }

  /**
   * removeField after the split: delete the last key, descending through
   * the earlier ones only while they hold mappings (a missing, null or
   * non-mapping value stops it with nothing deleted). No parts, no change.
   */
  function RemovePath(data: map<string, Value>, parts: seq<string>): (r: map<string, Value>)
    ensures |parts| > 0 ==> forall k | k != parts[0] :: (k in r <==> k in data) && (k in r ==> r[k] == data[k])
    ensures |parts| == 0 ==> r == data
    decreases |parts|
  {
    if |parts| == 0 then data
    else if |parts| == 1 then data - {parts[0]}
    else if parts[0] in data && data[parts[0]].Map? then
      data[parts[0] := Map(RemovePath(data[parts[0]].entries, parts[1..]))]
    else data
  }

  /** The loop of NormalizeYAML: removeField for every path, in order. */
  function RemoveFields(data: map<string, Value>, fields: seq<string>): (r: map<string, Value>)
  {
    if |fields| == 0 then data
    else RemoveFields(RemovePath(data, PathParts(fields[0])), fields[1..])
  }

  // ------------------------------------------------------------ entry points

  /**
   * The legacy NormalizeYAML on the decoded document: an error for text
   * that is not YAML or not a mapping; the empty mapping for an empty
   * document; otherwise the mapping without the ignored fields.
   */
  function LegacyNormalizeYAML(doc: Option<Value>): (r: Result<map<string, Value>, string>)
    ensures r.Ok? <==> doc.Some? && (doc.value.Map? || doc.value.Null?)
  {
    match doc
    case None => Err("error parsing resource YAML")
    case Some(Map(m)) => Ok(RemoveFields(m, LegacyIgnoredFields))
    case Some(Null) => Ok(map[])
    case Some(_) => Err("error parsing resource YAML: not a mapping")
  }

  /**
   * The legacy ResourceYAMLEquivalent: both documents normalised, encoded,
   * decoded again and compared with reflect.DeepEqual, which on decoded
   * trees is plain structural equality.
   */
  function LegacyResourceYAMLEquivalent(a: Option<Value>, b: Option<Value>): (r: Result<bool, string>)
    ensures r.Ok? <==> LegacyNormalizeYAML(a).Ok? && LegacyNormalizeYAML(b).Ok?
  {
    match LegacyNormalizeYAML(a)
    case Err(e) => Err("error normalizing first resource yaml: " + e)
    case Ok(na) =>
      match LegacyNormalizeYAML(b)
      case Err(e) => Err("error normalizing second resource yaml: " + e)
      case Ok(nb) => Ok(Reparse(Map(na)) == Reparse(Map(nb)))
  }
}
