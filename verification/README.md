# terraform-provider-dash0: drift detection and the check-rule bridge, in Dafny

This project models the part of the Dash0 Terraform provider that decides
whether a resource has drifted and that translates check rules between the
Dash0 API record and the Prometheus `PrometheusRule` document.

- **Resource YAML equivalence** (`internal/converter/normalizer.go`). A decoded
  document is cleaned: ignored fields are removed, and empty values,
  default annotations and a zero `keep_firing_for` are dropped. Annotation
  and label values become strings. Both documents are then re-decoded, their
  numbers made floats, and compared the way go-cmp does with `SortSlices`
  and the duration comparer (`Normalizer`, `Compare`, `Sorting`).
- **The older comparison** (`internal/provider/normalizer.go`). It deletes a
  fixed list of dot paths and compares with structural equality
  (`LegacyNormalizer`).
- **Check-rule records** (`internal/provider/check_rule.go`). These are the
  Dash0 record and the `PrometheusRules` document types, and `Duration`
  decoding from YAML values. The typed YAML decoding and encoding of a
  document are modelled after gopkg.in/yaml.v3 (`CheckRuleTypes`,
  `CheckRuleYaml`).
- **Both check-rule conversions** (`internal/converter/check_rule.go`). One goes
  from `PrometheusRules` to a Dash0 record, the other back. The older pair
  in `internal/provider/check_rule_converter.go` is modelled too
  (`CheckRuleConverter`, `LegacyCheckRuleConverter`, `CheckRuleRoundTrip`).
  Taken together with the comparison, a user's document converted to a
  record and back is equivalent to what the user wrote (`CheckRuleEquivalence`).
- **The `YAMLSemanticEqual` plan modifier** (`PlanModifier`).
- **The synthetic-check resource's decisions** (`SyntheticCheckResource`).
  These cover which YAML a Read keeps, how an import ID is split, which
  client calls Create and Update issue, and the rejection of text that is
  not YAML before any client call.

Go's standard-library pieces that the core leans on are modelled concretely:

- `time.ParseDuration` and `Duration.String` (`Duration`), with
  `Parse(Format(d)) == d` proved for every duration;
- `strconv.Atoi`/`Itoa`/`ParseBool` and the `strings` split functions (`Text`);
- `strconv.Quote` and the time package's own quoting, used in error texts (`GoQuote`);
- `fmt`'s `%v` text of a decoded tree (`Values`).

YAML and JSON text are not modelled. A document is the decoded tree
(`Values.Value`), and the decoder is a parameter wherever the source starts
from text.

## Model

| member | source | states |
|---|---|---|
| Values.SortedKeys | internal/converter/normalizer.go:240-242 | `%v` prints a mapping's keys in strictly ascending order, each key exactly once |
| Text.AtoiOfIntToString | internal/converter/check_rule.go:50-54 | `Atoi(Itoa(n)) == n` for every int64 threshold |
| Text.ParseBool | internal/converter/check_rule.go:125-131 | true for exactly the six true spellings, false for exactly the six false spellings, an error otherwise |
| Text.SplitFirst | internal/converter/check_rule.go:19-28 | `SplitN(s, sep, 2)` gives two parts iff `sep` occurs; the parts joined by `sep` are `s`, and the first holds no `sep` |
| Text.SplitOn | internal/provider/synthetic_check_resource.go:250 | `strings.Split(s, ",")` has one part more than `s` has commas, and no part holds a comma |
| Text.Index | internal/converter/normalizer.go:100 | the first occurrence of the separator, or none anywhere |
| Duration.Parse | internal/provider/check_rule.go:45 | an accepted duration lies in the int64 nanosecond range |
| DurationRoundTrip.ParseFormat | internal/provider/check_rule.go:19-49 | a duration written by `MarshalYAML` parses back to the same nanoseconds, for every int64 duration |
| DurationRoundTrip.ParseWhole | internal/converter/normalizer.go:245-255 | `"<n><unit>"` parses to n times the unit, so `"2m"` and `"120s"` compare equal |
| DurationRoundTrip.ParseWholePair | internal/converter/normalizer.go:245-255 | `"<n><u><m><v>"` parses to the sum of both components (`"1h30m"`, `"2m0s"`) |
| DurationFacts.ParseZeroText | internal/converter/normalizer.go:149 | `"0"` is the zero duration, so `keep_firing_for: "0"` is dropped |
| DurationFacts.ParseBareDigits | internal/converter/normalizer.go:149 | digits without a unit, other than `"0"`, are not a duration |
| DurationFacts.ParseNonNumericStart | internal/converter/normalizer.go:247-249 | text that starts with neither a sign, a digit nor `.` is not a duration, so the duration comparer does not apply to it |
| Normalizer.Nested | internal/converter/normalizer.go:99-106 | every path passed down under `key` is the remainder of an ignored path `key.rest` |
| Normalizer.Stringify | internal/converter/normalizer.go:62-68 | same keys, every value a string, string values untouched |
| Normalizer.RemoveDefaults | internal/converter/normalizer.go:77-90 | no default annotation is left, every other entry survives unchanged, nothing is added |
| Normalizer.CleanupMap | internal/converter/normalizer.go:95-155 | the result is clean (no blank value, stringified annotations and labels, no defaults, at every depth), holds only keys of the input, and no key ignored at this level |
| Normalizer.CleanEntry | internal/converter/normalizer.go:108-153 | a string is dropped iff it is empty or a zero `keep_firing_for` and is otherwise kept; a list is dropped iff empty and keeps its length; other scalars are kept as they are |
| Normalizer.NormalizeYAML | internal/converter/normalizer.go:28-36 | succeeds iff the document decodes to a mapping or is empty; the result is clean and has no `apiVersion` or `kind` |
| Normalizer.ResourceYAMLEquivalent | internal/converter/normalizer.go:213-224 | a verdict exists iff both documents normalise |
| NormalizerDifferences.OneKeyDecides | internal/converter/normalizer.go:213-259 | two documents that differ in one top-level key other than `apiVersion` and `kind` are equivalent exactly when both values are dropped by the cleanup, or both are kept and compare equal once re-decoded and made floats |
| NormalizerDifferences.ScalarKeyDecides | internal/converter/normalizer.go:213-259 | for numbers, bools, null and non-empty strings under such a key, the verdict is the comparison of the two values themselves |
| NormalizerDifferences.ExtraKeyDiffers | internal/converter/normalizer.go:108-155 | a key the cleanup keeps, present in one document only, makes the verdict false |
| NormalizerDifferences.EqualAt | internal/converter/normalizer.go:238-259 | mappings that differ in one key compare as the two values under it do |
| NormalizerDifferences.NothingIgnoredUnder | internal/converter/normalizer.go:14-24 | below any top-level key other than `metadata` no path is ignored |
| NormalizerDifferences.ThreeAndFourDiffer | internal/converter/normalizer.go:186-236 | `3` and `4` under the same key give a false verdict |
| NormalizerDifferences.TwoAndThreeMinutesDiffer | internal/converter/normalizer.go:243-256 | `"2m"` and `"3m"` under the same key give a false verdict |
| NormalizerDifferences.KeepFiringForDiffersFromAbsent | internal/converter/normalizer.go:144-152 | adding `keep_firing_for: 5m` gives a false verdict |
| NormalizerDifferences.EnabledFalseDiffersFromAbsent | internal/converter/normalizer.go:77-90 | `dash0-enabled: "false"` in the annotations against the same annotations without it gives a false verdict |
| NormalizerDifferences.EnabledFalseEntry | internal/converter/normalizer.go:77-123 | the two annotation mappings clean to values that do not compare alike |
| NormalizerLemmas.CleanupUpdate | internal/converter/normalizer.go:108-112 | the cleanup treats each entry on its own: changing one key changes only that key's cleaned entry |
| NormalizerLemmas.IgnoredFieldsSplit | internal/converter/normalizer.go:14-24 | the ignore list removes exactly `apiVersion` and `kind` at the top and passes the seven `metadata` fields down |
| NormalizerLemmas.CleanedAlikeEquivalent | internal/converter/normalizer.go:213-259 | documents that clean to the same mapping are equivalent |
| NormalizerLemmas.TopLevelIgnoredFieldsIrrelevant | internal/converter/normalizer.go:14-16 | documents differing only in `apiVersion` or `kind` are equivalent |
| NormalizerLemmas.MetadataIgnoredFieldsIrrelevant | internal/converter/normalizer.go:17-23 | documents differing only in one ignored `metadata` field (name, labels, annotations, timestamps, version, extensions) are equivalent |
| NormalizerLemmas.DefaultAnnotationIrrelevant | internal/converter/normalizer.go:77-90 | a default annotation (`"0"` thresholds, `"true"` enabled, quoted or not) cleans as if it were absent, at any depth |
| NormalizerLemmas.StringifiedScalarsAlike | internal/converter/normalizer.go:117-123 | in annotations or labels, an unquoted scalar cleans like its `%v` text (`8080` like `"8080"`) |
| NormalizerLemmas.ZeroKeepFiringForDropped | internal/converter/normalizer.go:144-152 | a zero `keep_firing_for` cleans as if absent |
| NormalizerLemmas.NonZeroKeepFiringForKept | internal/converter/normalizer.go:144-152 | a non-zero or unparsable `keep_firing_for` survives unchanged |
| NormalizerLemmas.ZeroInAnyUnit | internal/converter/normalizer.go:149 | `0s`, `0m`, `0h` and every other zero spelling is a zero duration |
| NormalizerLemmas.NormalizeNumericNoInt64s | internal/converter/normalizer.go:186-209 | after numeric normalisation no int64 is left anywhere in the tree |
| NormalizerLemmas.NormalizeNumericFixes | internal/converter/normalizer.go:186-209 | a tree with no int64 is left unchanged: strings, bools and structure are untouched |
| NormalizerLemmas.NormalizeNumericIdempotent | internal/converter/normalizer.go:186-209 | numeric normalisation is idempotent |
| NormalizerLemmas.ReparseInvisible | internal/converter/normalizer.go:225-236 | the encode/decode round trip before numeric normalisation makes no difference to it |
| NormalizerLemmas.IntAndFloatEquivalent | internal/converter/normalizer.go:234-236 | `3` and `3.0` at the same key give equivalent documents |
| NormalizerLemmas.EquivalentReflexive | internal/converter/normalizer.go:213-259 | every document that normalises is equivalent to itself |
| NormalizerLemmas.EquivalentSymmetric | internal/converter/normalizer.go:213-259 | the verdict, and whether there is one, does not depend on the order of the documents |
| NormalizerFixpoint.CleanupLeavesFixed | internal/converter/normalizer.go:95-155 | on trees with only string `keep_firing_for` values, the cleanup output is a fixed point |
| NormalizerFixpoint.CleanupIdentity | internal/converter/normalizer.go:95-155 | a clean tree at a fixed point passes through the cleanup unchanged |
| NormalizerFixpoint.CleanupIdempotent | internal/converter/normalizer.go:95-155 | cleaning twice is cleaning once, for trees with only string `keep_firing_for` values |
| NormalizerFixpoint.NormalizeYAMLIdempotent | internal/converter/normalizer.go:28-56 | normalising the re-decoded output of a normalisation gives that re-decoded output back, under the same condition |
| NormalizerFixpoint.ReparseKeepsFixed | internal/converter/normalizer.go:28-56 | re-decoding a cleaned tree (whole floats coming back as ints) keeps it clean and at a fixed point |
| NormalizerFixpoint.NotIdempotentWithNumericKeepFiring | internal/converter/normalizer.go:117-153 | `labels: {keep_firing_for: 0}` needs two passes: the first stringifies it and only the second drops it |
| Compare.EqualReflexive | internal/converter/normalizer.go:238-259 | every value equals itself under the comparison options |
| Compare.EqualSymmetric | internal/converter/normalizer.go:238-259 | the comparison is symmetric |
| Compare.ListOrderIgnored | internal/converter/normalizer.go:239-242 | permuting a list whose elements print differently does not change the comparison |
| Compare.PlainTextsExact | internal/converter/normalizer.go:245-250 | strings that are not both durations compare as exact text |
| Compare.DurationTextsByValue | internal/converter/normalizer.go:251-255 | two duration strings are equal iff they denote the same nanoseconds |
| Compare.MinutesAsSeconds | internal/converter/normalizer.go:243-256 | `"<n>m"` equals `"<60n>s"` |
| Compare.ZeroSecondsSuffix | internal/converter/normalizer.go:243-256 | `"2m"` equals `"2m0s"`, `"1h"` equals `"1h0s"`, for any whole count and unit |
| Compare.DifferentCounts | internal/converter/normalizer.go:243-256 | `"2m"` and `"3m"` differ, for any two counts in the same unit |
| Compare.SortingPrecedesDurations | internal/converter/normalizer.go:238-256 | lists are sorted by text before durations are compared, so two equal durations in a list can still make the lists unequal |
| Compare.PairSortsApart | internal/converter/normalizer.go:239-242 | when the text order puts a third element between two values, swapping them changes the comparison |
| Compare.SameTextKeepsOrder | internal/converter/normalizer.go:239-242 | elements with the same text but unequal values keep their order, so their order matters |
| Compare.StringAndNumberOne | internal/converter/normalizer.go:234-242 | `["1", 1.0]` and `[1.0, "1"]` are not equal: the sort is stable on equal text |
| Sorting.SortByText | internal/converter/normalizer.go:239-242 | the sorted list is a permutation of the input, ordered by text |
| Sorting.SortIgnoresOrder | internal/converter/normalizer.go:239-242 | permutations of a list whose elements print differently sort to the same list |
| LegacyNormalizer.PathParts | internal/provider/normalizer.go:47-59 | no part of a split path holds a `.` |
| LegacyNormalizer.Lookup | internal/provider/normalizer.go:61-91 | a value found by a one-part path is the entry under that key |
| LegacyNormalizer.RemovePath | internal/provider/normalizer.go:61-93 | only the entry under the first part can change; no parts means no change |
| LegacyNormalizer.LegacyNormalizeYAML | internal/provider/normalizer.go:23-42 | succeeds iff the document decodes to a mapping or is empty |
| LegacyNormalizer.LegacyResourceYAMLEquivalent | internal/provider/normalizer.go:97-120 | a verdict exists iff both documents normalise |
| LegacyNormalizerLemmas.PathPartsTwo | internal/provider/normalizer.go:47-59 | `"a.b"` splits into `[a, b]` |
| LegacyNormalizerLemmas.LegacyFieldParts | internal/provider/normalizer.go:11-19 | the legacy list is two top-level keys and five `metadata` fields |
| LegacyNormalizerLemmas.RemovePathClears | internal/provider/normalizer.go:61-72 | after removal the path leads nowhere |
| LegacyNormalizerLemmas.RemovePathNoOp | internal/provider/normalizer.go:74-89 | removal changes nothing iff the path led nowhere (a missing or non-mapping step) |
| LegacyNormalizerLemmas.RemoveFieldsKeepsOthers | internal/provider/normalizer.go:31-33 | a path that diverges from every removed path keeps its value |
| LegacyNormalizerLemmas.RemoveFieldsKeepsAbsent | internal/provider/normalizer.go:31-33 | removing fields never creates a value |
| LegacyNormalizerLemmas.LegacyIgnoredFieldsCleared | internal/provider/normalizer.go:11-33 | after normalisation none of the seven legacy paths leads anywhere |
| LegacyNormalizerLemmas.LegacyOneKeyDiffers | internal/provider/normalizer.go:109-119 | for a key outside the ignored paths, the verdict is exact equality of the re-decoded values |
| LegacyNormalizerLemmas.IntAndFloatOnlyBelowMillion | internal/provider/normalizer.go:109-119 | the legacy check equates `i` and `float64(i)` only when abs(i) < 10^6; the current check always does |
| LegacyNormalizerLemmas.OrderCountsForLegacy | internal/provider/normalizer.go:119 | swapping two list elements that differ after re-decoding makes the legacy verdict false |
| LegacyNormalizerLemmas.LegacyEquivalentOf | internal/provider/normalizer.go:97-120 | the legacy verdict is equality of the re-decoded documents after path removal |
| LegacyNormalizerLemmas.LegacyKeepsName | internal/provider/normalizer.go:11-19 | `metadata.name` survives legacy normalisation |
| LegacyNormalizerLemmas.NameCountsOnlyForLegacy | internal/provider/normalizer.go:11-19 | a different `metadata.name` is a difference for the legacy check and not for the current one |
| CheckRuleTypes.Truncate | internal/provider/check_rule.go:52-53 | an integral float in range converts to exactly that many nanoseconds |
| CheckRuleTypes.UnmarshalValue | internal/provider/check_rule.go:42-58 | a string decodes as `UnmarshalText` says; an int is nanoseconds; null, bool, list and map are "invalid duration type" errors |
| CheckRuleTypes.UnmarshalText | internal/provider/check_rule.go:44-49 | a string decodes iff the duration parser accepts it, to the parsed nanoseconds; otherwise the error quotes the text as the time package does |
| CheckRuleTypes.DecodeDuration | internal/provider/check_rule.go:33-39 | a null or missing duration is 0; anything else goes through `unmarshalValue` |
| CheckRuleTypes.DecodeString | internal/provider/check_rule.go:98-100 | a string field takes a scalar and rejects a list or mapping; null leaves "" |
| CheckRuleTypes.DecodeStringMap | internal/provider/check_rule.go:103-104 | a `map[string]string` field is nil for null; otherwise it needs a mapping of scalars and keeps its keys and texts |
| CheckRuleTypes.DecodeRule | internal/provider/check_rule.go:98-105 | a null element stores nothing (`Ok(None)`) and only a null does; a mapping decodes to a rule; a scalar or list is an error |
| CheckRuleTypes.DecodeRuleList | internal/provider/check_rule.go:95 | decodes iff every element does; the slice is the non-null elements, each decoded, in order, so a null element is left out |
| CheckRuleTypes.DecodeGroup | internal/provider/check_rule.go:92-96 | a null element stores nothing (`Ok(None)`) and only a null does; a mapping decodes to a group; a scalar or list is an error |
| CheckRuleTypes.DecodeGroupList | internal/provider/check_rule.go:89 | decodes iff every element does; the slice is the non-null elements, each decoded, in order, so a null element is left out |
| CheckRuleTypes.NonNullKeeps | internal/provider/check_rule.go:89-95 | a list without nulls keeps every element |
| CheckRuleTypes.DecodeSpec | internal/provider/check_rule.go:88-90 | `spec` is a mapping whose `groups` are decoded; null gives no groups |
| CheckRuleTypes.DecodePrometheusRules | internal/provider/check_rule.go:81-86 | an empty document is the zero document; a non-mapping is an error |
| CheckRuleTypes.EncodeStringMap | internal/provider/check_rule.go:103-104 | a map is written with its keys, and a nil map as `{}` |
| CheckRuleTypes.EncodeRule | internal/provider/check_rule.go:101-102 | `for` is always written, `keep_firing_for` iff non-zero |
| CheckRuleTypes.EncodeGroup | internal/provider/check_rule.go:94 | the group `interval` is always written |
| CheckRuleYaml.DurationTextRoundTrip | internal/provider/check_rule.go:19-49 | a duration written as YAML decodes back to itself |
| CheckRuleYaml.IntegerNanoseconds | internal/provider/check_rule.go:50-51 | an integer decodes as that many nanoseconds |
| CheckRuleYaml.StringMapRoundTrip | internal/provider/check_rule.go:103-104 | a string map survives encoding and decoding, except that nil comes back empty |
| CheckRuleYaml.RuleRoundTrip | internal/provider/check_rule.go:98-105 | a rule survives encoding and decoding, with nil maps made empty and a zero `keep_firing_for` restored as 0 |
| CheckRuleYaml.GroupRoundTrip | internal/provider/check_rule.go:92-96 | a group survives encoding and decoding |
| CheckRuleYaml.RulesRoundTrip | internal/provider/check_rule.go:81-105 | a whole document survives encoding and decoding up to nil maps becoming empty |
| CheckRuleYaml.RulesRoundTripExact | internal/provider/check_rule.go:81-105 | a document without nil maps survives encoding and decoding exactly |
| CheckRuleYaml.NullElementDropped | internal/provider/check_rule.go:89-95 | a null in front of a `groups` or `rules` list changes nothing in what the list decodes to |
| CheckRuleYaml.NullRulesAreNone | internal/provider/check_rule.go:95 | `rules: [~]` decodes to no rules |
| CheckRuleYaml.NullGroupSkipped | internal/provider/check_rule.go:88-89 | `groups: [~, g]` decodes to the one group `g` |
| CheckRuleConverter.SplitName | internal/converter/check_rule.go:19-28 | with a `" - "` the parts join back to the name and the group part holds none; without, both parts are the name |
| CheckRuleConverter.Without | internal/converter/check_rule.go:109-131 | deleting keys from annotations removes exactly those keys, keeps the other values, and keeps a nil map nil |
| CheckRuleConverter.TextOf | internal/converter/check_rule.go:103-108 | summary and description are the annotation's text, or "" when absent |
| CheckRuleConverter.ReadThreshold | internal/converter/check_rule.go:109-124 | an absent threshold is 0; a present one is its `Atoi` value, or an error naming the annotation and saying `value out of range` or `invalid syntax` as `Atoi` does |
| Text.ScanRange | internal/converter/check_rule.go:110 | `strconv`'s digit loop stops on a range error exactly when the leading digits exceed 2^64-1, whatever follows them |
| Text.ScanDigits | internal/converter/check_rule.go:110 | a digit string is read to its value when that fits in 64 bits, and is a range error otherwise |
| CheckRuleRoundTrip.AtoiOutOfRangeExactly | internal/converter/check_rule.go:109-124 | a failed `Atoi` reports `value out of range` iff the unsigned text is all digits, or its leading digits already exceed 64 bits |
| CheckRuleRoundTrip.OverflowBeforeRest | internal/converter/check_rule.go:109-124 | leading digits worth more than 64 bits make the error a range error, whatever follows them |
| CheckRuleRoundTrip.LongDigitsBeforeLetter | internal/converter/check_rule.go:109-124 | `99999999999999999999x` is `value out of range`, not `invalid syntax` |
| CheckRuleConverter.ReadEnabled | internal/converter/check_rule.go:125-136 | an absent `dash0-enabled` is true; a present one is its `ParseBool` value, or an error |
| GoQuote.Quote | internal/converter/check_rule.go:110-130 | the text in the `Atoi` and `ParseBool` errors: wrapped in double quotes, never shorter than the text plus two |
| GoQuote.UnescapeEscape | internal/converter/check_rule.go:110-130 | the body of `strconv.Quote` reads back as the text, for every text: quoting loses nothing |
| GoQuote.QuotePlain | internal/converter/check_rule.go:110-130 | text with no `"`, `\` or control character is only wrapped in quotes |
| GoQuote.TimeQuote | internal/provider/check_rule.go:45-47 | the text in `ParseDuration`'s errors: wrapped in double quotes |
| GoQuote.UnescapeTimeEscape | internal/provider/check_rule.go:45-47 | for ASCII text, the body of the time package's quote reads back as the text |
| GoQuote.TimeQuoteIsQuoteOnAscii | internal/provider/check_rule.go:45-47 | on printable ASCII the two quotings agree |
| GoQuote.NewlineQuotedTwoWays | internal/provider/check_rule.go:45-47 | they differ on control characters: a newline is `\n` to strconv and `\x0a` to time |
| CheckRuleConverter.FromRules | internal/converter/check_rule.go:80-138 | one group and one rule are required, in that order; then the critical, degraded and enabled errors, in that order; it succeeds iff all three annotations read |
| CheckRuleConverter.ToDash0CheckRule | internal/converter/check_rule.go:74-79 | text that is not YAML, or a document that does not decode, is an error; otherwise it is the conversion of the decoded document |
| CheckRuleConverter.AddEmittedAt | internal/converter/check_rule.go:39-55 | each written annotation overrides the record's value under its key, and every other key is kept |
| CheckRuleConverter.ToRules | internal/converter/check_rule.go:19-71 | fixed apiVersion and kind, empty metadata, one group with one rule, the record's interval, a name split at the first `" - "`; annotations nil iff the record's are |
| CheckRuleConverter.ToPrometheusRules | internal/converter/check_rule.go:13-17 | JSON that does not decode is an error; otherwise the converted document |
| LegacyCheckRuleConverter.LegacyFromRules | internal/provider/check_rule_converter.go:68-122 | the same group and rule checks; it succeeds iff both thresholds read; the record is always enabled |
| LegacyCheckRuleConverter.LegacyToDash0CheckRule | internal/provider/check_rule_converter.go:68-73 | text that is not YAML, or a document that does not decode, is an error |
| LegacyCheckRuleConverter.LegacyAddEmittedAt | internal/provider/check_rule_converter.go:38-49 | summary, description and thresholds override their keys; `dash0-enabled` is never written |
| LegacyCheckRuleConverter.LegacyToRules | internal/provider/check_rule_converter.go:12-66 | fixed apiVersion and kind, empty metadata, one group with one rule |
| LegacyCheckRuleConverter.LegacyToPrometheusRules | internal/provider/check_rule_converter.go:12-16 | JSON that does not decode is an error; otherwise the converted document |
| CheckRuleRoundTrip.SplitJoin | internal/converter/check_rule.go:19-28 | `split(join(g, a)) == (g, a)` when `g` holds no `" - "` and does not end in `" -"` |
| CheckRuleRoundTrip.SplitJoinTrailingDash | internal/converter/check_rule.go:19-28 | group `"x -"` and alert `"y"` come back as `"x"` and `"- y"` |
| CheckRuleRoundTrip.NameWithoutSeparatorDoubles | internal/converter/check_rule.go:25-28 | a name without `" - "` comes back as `name - name` |
| CheckRuleRoundTrip.ThresholdBack | internal/converter/check_rule.go:50-54 | a threshold written by the reverse reads back as itself, and an omitted one as 0 |
| CheckRuleRoundTrip.FractionalThresholdRejected | internal/converter/check_rule.go:109-115 | a critical threshold of `"99.99"` makes the forward conversion fail with `invalid value for dash0-threshold-critical: strconv.Atoi: parsing "99.99": invalid syntax` |
| CheckRuleRoundTrip.FromRulesIgnoresDefaults | internal/converter/check_rule.go:109-136 | the forward conversion gives the same result when the default annotations (`"0"` thresholds, `"true"` enabled) are removed first |
| CheckRuleRoundTrip.LooseRulesRoundTrip | internal/converter/check_rule.go:13-139 | a single-rule document with a splittable group name, thresholds as `Itoa` writes them or `"0"`, and enabled as `"true"`, `"false"` or absent, converts back to itself without its default annotations, under the fixed header |
| CheckRuleRoundTrip.WrittenAt | internal/converter/check_rule.go:39-55 | under a key the record does not carry, the reverse writes exactly the emitted value |
| CheckRuleRoundTrip.Dash0RoundTrip | internal/converter/check_rule.go:13-139 | record to document and back gives the same record without its id, with summary and description added to the annotations |
| CheckRuleRoundTrip.AnnotationsRestored | internal/converter/check_rule.go:39-55 | canonical annotations stripped by the forward conversion are written back exactly by the reverse |
| CheckRuleRoundTrip.RulesRoundTrip | internal/converter/check_rule.go:13-139 | a single-rule document with a splittable group name and canonical annotations converts back to itself under the fixed header |
| CheckRuleRoundTrip.EnabledTrueDropped | internal/converter/check_rule.go:39-42 | `dash0-enabled: "true"` is read as enabled and not written back |
| CheckRuleRoundTrip.LegacyKeepsEnabledAnnotation | internal/provider/check_rule_converter.go:94-119 | the legacy record is always enabled and leaves `dash0-enabled` in the annotations |
| CheckRuleRoundTrip.LegacyAgreesWithoutEnabledKey | internal/provider/check_rule_converter.go:68-122 | without `dash0-enabled` both forward conversions give the same result |
| CheckRuleRoundTrip.LegacyAgreesWhenEnabled | internal/provider/check_rule_converter.go:12-66 | for an enabled record both reverse conversions write the same document |
| CheckRuleRoundTrip.LegacyLosesDisabled | internal/provider/check_rule_converter.go:94 | a disabled record comes back enabled through the legacy pair and disabled through the current one |
| CheckRuleEquivalence.UserDocumentRoundTrip | internal/converter/check_rule.go:13-139 | a user document of one group of one rule (durations as text, `for` and `interval` given, annotation and label values quoted strings, only ignored metadata) with a splittable group name and thresholds as `Itoa` writes them converts to a record, and that record converted back and written as YAML is `ResourceYAMLEquivalent` to the user's document |
| CheckRuleEquivalence.DecodeUserDocument | internal/provider/check_rule.go:81-105 | such a document decodes to exactly its one group with its one rule, the texts and parsed durations of its fields |
| CheckRuleEquivalence.RuleAlike | internal/converter/normalizer.go:95-155 | the user's rule and the rule written back clean to mappings that compare equal: `for` by duration, a zero `keep_firing_for` dropped, default annotations dropped, quoted annotation and label values as the same texts |
| CheckRuleEquivalence.GroupAlike | internal/converter/normalizer.go:95-155 | the user's group and the group written back clean to mappings that compare equal |
| CheckRuleEquivalence.AnnotationsAlike | internal/converter/normalizer.go:77-123 | the user's quoted annotation values and the same texts written back, defaults removed, clean alike |
| CheckRuleEquivalence.LabelsAlike | internal/converter/normalizer.go:117-123 | the user's quoted label values and the same texts written back clean alike |
| CheckRuleEquivalence.CleanupAlike | internal/converter/normalizer.go:95-155 | mappings whose entries clean alike key by key clean to mappings that compare equal |
| CheckRuleEquivalence.MapEntryAlike | internal/converter/normalizer.go:124-141 | a nested mapping other than annotations and labels is dropped or kept together with one whose contents clean alike |
| CheckRuleEquivalence.MetadataCleansAway | internal/converter/normalizer.go:14-24 | metadata holding only ignored fields, and the empty metadata written back, are both dropped |
| PlanModifier.PlanModifyString | internal/provider/planmodifier/yaml_semantic_equal.go:27-52 | null or unknown config, null state or a comparison error keep the plan; equivalent YAMLs give exactly the state; the result is always the plan or the state |
| PlanModifier.PlanModifyIdempotent | internal/provider/planmodifier/yaml_semantic_equal.go:48-51 | running the modifier on its own output changes nothing |
| PlanModifier.SameTextKeepsState | internal/provider/planmodifier/yaml_semantic_equal.go:38-51 | a config with the state's own text keeps the state whenever the text normalises |
| PlanModifier.InvalidConfigKeepsPlan | internal/provider/planmodifier/yaml_semantic_equal.go:42-46 | a config that is not YAML keeps the plan |
| PlanModifier.TopLevelEditKeepsState | internal/provider/planmodifier/yaml_semantic_equal.go:38-51 | a config differing from the state only in `apiVersion` or `kind` keeps the state |
| PlanModifier.MetadataEditKeepsState | internal/provider/planmodifier/yaml_semantic_equal.go:38-51 | a config differing only in an ignored `metadata` field keeps the state |
| PlanModifier.DecisionSymmetric | internal/provider/planmodifier/yaml_semantic_equal.go:42-51 | swapping config and state texts does not change whether the state is kept |
| SyntheticCheckResource.RefreshYaml | internal/provider/synthetic_check_resource.go:140-160 | an empty state adopts the API text; equivalent texts keep the state; otherwise the API text, with a warning iff the comparison failed |
| SyntheticCheckResource.Read | internal/provider/synthetic_check_resource.go:120-165 | one get for the state's dataset and origin; a client error gives one error and no state; otherwise origin and dataset kept, only warnings, YAML either the state's or the API's |
| SyntheticCheckResource.RefreshIdempotent | internal/provider/synthetic_check_resource.go:140-160 | refreshing again against the same API text changes nothing |
| SyntheticCheckResource.ReadIdempotent | internal/provider/synthetic_check_resource.go:129-163 | a second Read against an unchanged API writes the same state |
| SyntheticCheckResource.ReadKeepsOnTopLevelChange | internal/provider/synthetic_check_resource.go:141-156 | an API answer differing only in `apiVersion` or `kind` keeps the state byte for byte |
| SyntheticCheckResource.ReadKeepsOnMetadataChange | internal/provider/synthetic_check_resource.go:141-156 | an API answer differing only in timestamps, version or another ignored `metadata` field keeps the state byte for byte |
| SyntheticCheckResource.SplitOnTwo | internal/provider/synthetic_check_resource.go:250-261 | an ID that splits into two parts is the two parts joined by its only comma |
| SyntheticCheckResource.SplitOnJoin | internal/provider/synthetic_check_resource.go:250-261 | two comma-free parts joined by a comma split back into those parts |
| SyntheticCheckResource.ImportState | internal/provider/synthetic_check_resource.go:248-276 | an ID is accepted iff it holds exactly one comma, and then the text before and after it name the dataset and origin fetched; any other ID gives one error and no call; the state is what the API returned |
| SyntheticCheckResource.ImportIdRoundTrip | internal/provider/synthetic_check_resource.go:250-263 | `dataset + "," + origin` imports exactly that check when neither part holds a comma |
| SyntheticCheckResource.Create | internal/provider/synthetic_check_resource.go:86-118 | text that is not YAML is refused with no call; otherwise one create under origin `"tf_" + uuid`, with state written iff it succeeds |
| SyntheticCheckResource.Update | internal/provider/synthetic_check_resource.go:167-227 | text that is not YAML is refused with no call; a changed dataset deletes (old origin, old dataset) and then creates, otherwise one update; the first failing call ends it with one error; on success the state is the plan under the old origin |
| SyntheticCheckResource.CreateThenUpdateKeepsOrigin | internal/provider/synthetic_check_resource.go:206-214 | the generated origin survives a successful update |
| SyntheticCheckResource.UpdateThenReadKeeps | internal/provider/synthetic_check_resource.go:140-156 | a Read that gets back what Update wrote keeps it unchanged |

## Left out

- YAML and JSON text. Documents are decoded trees, and the decoder (`Decoder`) is a parameter of the plan modifier and the resource. Encoding a normalised tree and decoding it again is modelled by `Normalizer.Reparse`: an integral float of magnitude below 10^6 comes back as an int, and everything else comes back unchanged. The 2-space indent and the newline trimming are not modelled.
- Floating point. A float64 is the exact decimal it was written as. `%v` of a float is its shortest decimal text, and rounding of long decimals is not modelled.
- Non-finite floats. yaml.v3 decodes `.nan`, `.inf` and `-.inf` to NaN, +Inf and -Inf. `Values.Float` holds finite decimals only, so documents holding them are not represented. go-cmp and `reflect.DeepEqual` compare float64 with `==`, so in Go both comparisons are not reflexive on a document holding `.nan`: `ResourceYAMLEquivalent` of `a: .nan` against itself is `Ok(false)`.
- Compare.EqualReflexive: holds for the finite values `Values.Value` can hold; Go's comparison is not reflexive on NaN.
- NormalizerLemmas.EquivalentReflexive: holds for NaN-free documents only; a document holding `.nan` is not equivalent to itself in Go.
- PlanModifier.SameTextKeepsState: holds for NaN-free documents only; with `.nan` in the text Go keeps the plan, not the state.
- Normalizer.NormalizeNumeric: Go's `float64(v)` rounds an int64 beyond 2^53 to the nearest float64, so 9007199254740993 and 9007199254740992 compare equal in Go; the model converts exactly and keeps them apart.
- Mappings with keys that are not strings. yaml.v3 decodes a nested mapping such as `labels: {1: a}` to `map[interface{}]interface{}`, which the Go cleanup neither cleans nor stringifies, `isEmpty` counts as non-empty, `normalizeNumericTypes` does not enter, and the older `removeField` walks. `Values.Value` has string keys only, so such documents are not represented.
- CheckRuleTypes.DecodeString: a non-string scalar decoded into a Go string field takes its `%v` text, where yaml.v3 takes the scalar's source text (`1.50` would be `1.5` here).
- CheckRuleTypes.UnmarshalValue: an integer beyond int64 and a float take Go's float64 conversion to `time.Duration` on amd64 (truncation, and the minimum int64 when out of range), without float64 rounding. An integer in (2^63-1, 2^64-1] is the "invalid duration type: uint64" error, as yaml.v3 decodes it as uint64; yaml.v3 decodes a larger integer as a float64, so the model's `Int` above 2^64-1 stands for that float64.
- CheckRuleConverter.ToRules: the Go reverse conversion writes into the record's annotations map and panics when the JSON had none. The model requires annotations to be present whenever something would be written, instead of modelling the panic. The same holds for `CheckRuleConverter.ToPrometheusRules`.
- LegacyCheckRuleConverter.LegacyToRules: the legacy reverse conversion (`internal/provider/check_rule_converter.go:38-49`) also writes into the record's annotations map and panics when it is nil. `LegacyToRules` and `LegacyToPrometheusRules` require annotations to be present whenever something would be written, instead of modelling the panic.
- CheckRuleConverter.FromRules: the Go record shares its annotations map with the decoded rule. The model returns a copy without the parsed keys, which is what a caller observes.
- Error texts are kept for the check-rule conversions and the resource's diagnostics, with `strconv.Quote`'s escaping (`GoQuote.Quote`). Underlying yaml.v3 and JSON error texts are abbreviated to a fixed message.
- CheckRuleTypes.UnmarshalValue: every rejected duration string gives `time: invalid duration` with the text in the time package's quotes. `time.ParseDuration` has two more texts that are not modelled: `time: missing unit in duration "5"` and `time: unknown unit "x" in duration "5x"`.
- GoQuote.Quote: every character from U+0080 up counts as printable. `strconv.Quote` escapes the ones Unicode's tables call non-printable, such as the C1 control U+0085 (`\u0085`); those tables are not modelled.
- CheckRuleConverter.ReadThreshold: `GoQuote.Quote` treats every character from U+0080 up as printable. `strconv.Quote` consults Unicode's printable tables and writes `\u` or `\U` escapes for the rest; those tables are not modelled.
- The numeric kinds int32, float32 and uint64 of `normalizeNumericTypes` never come out of yaml.v3's untyped decoding, except uint64 for integers in (2^63-1, 2^64-1]. Those stay integers, as in the Go switch. yaml.v3 decodes an integer above 2^64-1 as a float64; the model's `Int` above 2^64-1 stays an `Int`, where Go would hold it as a float64 that compares equal to the same value written as a float.
- Duration.Parse: the fraction of a unit is computed exactly, where Go's `time.ParseDuration` scales it in float64. The two can differ by a nanosecond on long fractions: `0.00000000000750h` is 26ns in Go and 27ns here.
- Compare.ListOrderIgnored: order independence is proved for lists whose elements print differently. When two unequal elements print alike, the sort keeps their order (`Compare.SameTextKeepsOrder`).
- CheckRuleEquivalence.UserDocumentRoundTrip: proved for documents of the shape the conversion can carry. A rule without `for` or a group without `interval` comes back with `0s`, which the cleanup keeps. A duration written as a number comes back as text. Rule fields the typed rule lacks are not written back. An unquoted scalar annotation or label value (`1.50`, `True`, `0x10`) reaches Go as its source text, and the cleanup compares it with its `%v` text (`1.5`, `true`, `16`), so only quoted values are covered. None of these other shapes is covered.
- CheckRuleEquivalence.RuleAlike: covers quoted annotation and label values only, for the reason given for `UserDocumentRoundTrip`.
- CheckRuleEquivalence.AnnotationsAlike: covers quoted annotation values only, as above.
- CheckRuleEquivalence.LabelsAlike: covers quoted label values only, as above.
- Delete of the synthetic-check resource is not modelled as an operation. It is one client call, and it appears as the first call of a dataset-changing Update.
- The Terraform framework plumbing is not modelled: reading plan and state into structs, `Configure`, `Metadata`, `Schema` and logging. Neither are the API client, its transport or its concurrency limit. The client's answers are parameters (`Fetcher`, `Sender`), and the random uuid of a new origin is a parameter of `Create`.
- The dashboard, view and check-rule resources, and the copies of the legacy normaliser in `dashboard_normalizer.go` and `synthetic_check_normalizer.go`, are not part of this model. The copies do what `LegacyNormalizer` does.

## Notes on behaviour

- Thresholds are integers. The tests in `internal/converter/check_rule_test.go` (from line 39) expect `"99.99"` to read as 99.99, but the code uses `strconv.Atoi` and `strconv.Itoa`. The model follows the code: `CheckRuleRoundTrip.FractionalThresholdRejected` gives the error that `"99.99"` produces.
- The types package's own test (`internal/types/check_rule_test.go:19-31`) marshals `Dash0CheckRuleThresholds{Degraded: 35.5, Failed: 40.75}`, so there the thresholds are floats. The types package itself is not part of this model. The current converter stores `strconv.Atoi` results in them and writes them with `strconv.Itoa` (`internal/converter/check_rule.go:50-54`, 110-124), which needs whole numbers, so the model follows the converter and `internal/provider/check_rule.go:76-79`: `Thresholds` holds `Int64`s.
- The forward conversion copies `summary` and `description` into the record and also leaves them in the annotations (`internal/converter/check_rule.go:94`, 103-108). `CheckRuleRoundTrip.Dash0RoundTrip` therefore returns a record whose annotations gain those two keys.
- `split(join(g, a)) == (g, a)` needs more than a group name free of `" - "`. A group ending in `" -"` is mis-split: `CheckRuleRoundTrip.SplitJoinTrailingDash` shows `"x -"` and `"y"` coming back as `"x"` and `"- y"`.
- The cleanup is not idempotent in general. It stringifies `labels` and `annotations` values only after it has cleaned inside them, so a numeric `keep_firing_for: 0` there is dropped only on a second pass (`NormalizerFixpoint.NotIdempotentWithNumericKeepFiring`). It is idempotent when every `keep_firing_for` is a string (`NormalizerFixpoint.CleanupIdempotent`).
- `SortSlices` sorts by `fmt.Sprint` text before the duration comparer sees the elements. `["120s", "1x"]` and `["2m", "1x"]` therefore differ although `"120s"` and `"2m"` are equal: the second list sorts to `["1x", "2m"]` (`Compare.SortingPrecedesDurations`).
- The older comparison equates `i` and `float64(i)` only when abs(i) < 10^6, because only then does the float come back from YAML as an int (`LegacyNormalizerLemmas.IntAndFloatOnlyBelowMillion`).
