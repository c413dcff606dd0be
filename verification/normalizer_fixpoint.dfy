/**
 * When cleaning a mapping a second time changes nothing. It does not in
 * general: a `keep_firing_for` number inside `annotations` or `labels` is
 * turned into text by the first pass and, when that text is a zero
 * duration, deleted by the second. Without such an entry the cleanup is
 * idempotent.
 */
module NormalizerFixpoint {
  import opened Wrappers
  import opened Text
  import opened Duration
  import opened Values
  import opened Normalizer
  import DurationFacts

  // ------------------------------------------------------------ the condition

  /**
   * Every `annotations` / `labels` mapping, at any depth, holds its
   * `keep_firing_for` (if any) as a string.
   */
  predicate StringKeepFiring(m: map<string, Value>)
    decreases Map(m), 0
  {
    forall k | k in m :: StringKeepFiringAt(k, m[k])
  }

  predicate StringKeepFiringAt(k: string, v: Value)
    decreases v, 1
  {
    (IsLabelsKey(k) && v.Map? && KeepFiringFor in v.entries ==> v.entries[KeepFiringFor].Str?) &&
    match v
    case Map(n) => StringKeepFiring(n)
    case List(a) => forall i | 0 <= i < |a| :: a[i].Map? ==> StringKeepFiring(a[i].entries)
    case _ => true
  }

  // ------------------------------------------------- what a pass leaves behind

  /**
   * Nothing left for the paths to remove and no zero `keep_firing_for`
   * string, at any depth (maps in sequences are cleaned with no paths).
   */
  predicate Fixed(m: map<string, Value>, paths: seq<string>)
    decreases Map(m), 0
  {
    forall k | k in m :: !RemovedHere(paths, k) && FixedAt(k, m[k], paths)
  }

  predicate FixedAt(k: string, v: Value, paths: seq<string>)
    decreases v, 1
  {
    !(k == KeepFiringFor && v.Str? && ZeroDuration(v.s)) &&
    match v
    case Map(n) => Fixed(n, Nested(paths, k))
    case List(a) => forall i | 0 <= i < |a| :: a[i].Map? ==> Fixed(a[i].entries, [])
    case _ => true
  }

  /** One pass leaves a fixed mapping when the condition holds. */
  lemma {:induction false} CleanupLeavesFixed(m: map<string, Value>, paths: seq<string>)
    requires StringKeepFiring(m)
    ensures Fixed(CleanupMap(m, paths), paths)
    decreases Map(m), 0
  {
    var r := CleanupMap(m, paths);
    forall k | k in r ensures !RemovedHere(paths, k) && FixedAt(k, r[k], paths) {
      CleanEntryLeavesFixed(k, m[k], paths);
    }
  }

  lemma {:induction false} CleanEntryLeavesFixed(key: string, v: Value, paths: seq<string>)
    requires StringKeepFiringAt(key, v)
    requires CleanEntry(key, v, paths).Some?
    ensures FixedAt(key, CleanEntry(key, v, paths).value, paths)
    decreases v, 1
  {
    match v
    case Map(n) =>
      var q := Nested(paths, key);
      var c := CleanupMap(n, q);
      CleanupLeavesFixed(n, q);
      var s := if IsLabelsKey(key) then Stringify(c) else c;
      assert Fixed(s, q) by {
        if IsLabelsKey(key) {
          StringifyStaysFixed(n, c, q);
        }
      }
      var d := if key == Annotations then RemoveDefaults(s) else s;
      assert CleanEntry(key, v, paths).value == Map(d);
    case List(a) =>
      var r := CleanEntry(key, v, paths).value;
      forall i | 0 <= i < |a| && a[i].Map? ensures Fixed(r.items[i].entries, []) {
        CleanupLeavesFixed(a[i].entries, []);
      }
    case _ =>
  }

  /**
   * Stringifying the cleaned contents of an `annotations` / `labels` map
   * keeps them fixed: its `keep_firing_for` was already a string, and the
   * strings the first pass kept are not zero durations.
   */
  lemma StringifyStaysFixed(n: map<string, Value>, c: map<string, Value>, q: seq<string>)
    requires c == CleanupMap(n, q) && Fixed(c, q)
    requires KeepFiringFor in n ==> n[KeepFiringFor].Str?
    ensures Fixed(Stringify(c), q)
  {
    var s := Stringify(c);
    forall k | k in s ensures !RemovedHere(q, k) && FixedAt(k, s[k], q) {
      if k == KeepFiringFor {
        assert s[k] == c[k];
      }
    }
  }

  // ------------------------------------------------------------ fixed points

  /** A clean, fixed mapping is its own cleanup. */
  lemma {:induction false} CleanupIdentity(c: map<string, Value>, paths: seq<string>)
    requires CleanMap(c) && Fixed(c, paths)
    ensures CleanupMap(c, paths) == c
    decreases Map(c), 0
  {
    var r := CleanupMap(c, paths);
    forall k | k in c ensures CleanEntry(k, c[k], paths) == Some(c[k]) {
      CleanEntryIdentity(k, c[k], paths);
    }
    assert r.Keys == c.Keys;
  }

  lemma {:induction false} CleanEntryIdentity(key: string, v: Value, paths: seq<string>)
    requires Settled(key, v) && FixedAt(key, v, paths)
    ensures CleanEntry(key, v, paths) == Some(v)
    decreases v, 1
  {
    match v
    case Map(n) =>
      CleanupIdentity(n, Nested(paths, key));
      if IsLabelsKey(key) {
        assert Stringify(n) == n;
      }
      if key == Annotations {
        assert RemoveDefaults(n) == n;
      }
    case List(a) =>
      var r := CleanEntry(key, v, paths).value;
      forall i | 0 <= i < |a| ensures r.items[i] == a[i] {
        if a[i].Map? {
          CleanupIdentity(a[i].entries, []);
        }
      }
      assert r.items == a;
    case _ =>
  }

  /**
   * Cleaning is idempotent for every mapping whose `annotations` and
   * `labels` hold `keep_firing_for` only as a string.
   */
  lemma CleanupIdempotent(m: map<string, Value>, paths: seq<string>)
    requires StringKeepFiring(m)
    ensures CleanupMap(CleanupMap(m, paths), paths) == CleanupMap(m, paths)
  {
    CleanupLeavesFixed(m, paths);
    CleanupIdentity(CleanupMap(m, paths), paths);
  }

  /**
   * NormalizeYAML of its own output is that output. The Go function
   * returns text, so the second pass sees the first result re-decoded
   * (Reparse), and returns that same tree.
   */
  lemma NormalizeYAMLIdempotent(m: map<string, Value>)
    requires StringKeepFiring(m)
    ensures var n := NormalizeYAML(Some(Map(m)));
      n.Ok? && Reparse(Map(n.value)).Map? &&
      NormalizeYAML(Some(Reparse(Map(n.value)))) == Ok(Reparse(Map(n.value)).entries)
  {
    ReparsedCleanupFixed(m, IgnoredFields);
    var e := Reparse(Map(CleanupMap(m, IgnoredFields)));
    NormalizeMapping(m);
    NormalizeMapping(e.entries);
  }

  lemma NormalizeMapping(m: map<string, Value>)
    ensures NormalizeYAML(Some(Map(m))) == Ok(CleanupMap(m, IgnoredFields))
  {
  }

  /** A cleaned mapping, re-decoded, is left as it is by another cleanup under the same paths. */
  lemma ReparsedCleanupFixed(m: map<string, Value>, paths: seq<string>)
    requires StringKeepFiring(m)
    ensures var e := Reparse(Map(CleanupMap(m, paths)));
      e.Map? && CleanupMap(e.entries, paths) == e.entries
  {
    var c := CleanupMap(m, paths);
    CleanupLeavesFixed(m, paths);
    ReparseKeepsFixed(c, paths);
    CleanupIdentity(Reparse(Map(c)).entries, paths);
  }

  /**
   * Re-decoding turns integral floats into ints and touches nothing else,
   * so a clean, fixed mapping stays clean and fixed.
   */
  lemma {:induction false} ReparseKeepsFixed(c: map<string, Value>, paths: seq<string>)
    requires CleanMap(c) && Fixed(c, paths)
    ensures Reparse(Map(c)).Map?
    ensures CleanMap(Reparse(Map(c)).entries) && Fixed(Reparse(Map(c)).entries, paths)
    decreases Map(c), 0
  {
    var r := Reparse(Map(c)).entries;
    forall k | k in r ensures Settled(k, r[k]) && !RemovedHere(paths, k) && FixedAt(k, r[k], paths) {
      ReparseKeepsFixedAt(k, c[k], paths);
    }
  }

  lemma {:induction false} ReparseKeepsFixedAt(k: string, v: Value, paths: seq<string>)
    requires Settled(k, v) && FixedAt(k, v, paths)
    ensures Settled(k, Reparse(v)) && FixedAt(k, Reparse(v), paths)
    decreases v, 1
  {
    match v
    case Map(n) =>
      ReparseKeepsFixed(n, Nested(paths, k));
      ReparseKeepsBlank(v);
      var r := Reparse(v).entries;
      assert forall j | j in r :: r[j].Str? == n[j].Str? && (n[j].Str? ==> r[j] == n[j]);
    case List(a) =>
      var r := Reparse(v).items;
      forall i | 0 <= i < |r| && r[i].Map?
        ensures CleanMap(r[i].entries) && Fixed(r[i].entries, [])
      {
        assert r[i] == Reparse(a[i]);
        assert a[i].Map?;
        ReparseKeepsFixed(a[i].entries, []);
      }
    case _ =>
  }

  /** Re-decoding neither blanks a value nor fills a blank one. */
  lemma {:induction false} ReparseKeepsBlank(v: Value)
    ensures Blank(Reparse(v)) == Blank(v)
    decreases v
  {
    match v
    case Map(n) =>
      var r := Reparse(v).entries;
      forall j | j in n ensures Blank(r[j]) == Blank(n[j]) {
        ReparseKeepsBlank(n[j]);
      }
    case _ =>
  }

  /**
   * Without the condition it fails: `labels: {keep_firing_for: 0}` becomes
   * `labels: {keep_firing_for: "0"}`, which a second pass deletes.
   */
  lemma NotIdempotentWithNumericKeepFiring()
    ensures var m := map[Labels := Map(map[KeepFiringFor := Int(0)])];
      CleanupMap(m, []) == map[Labels := Map(map[KeepFiringFor := Str("0")])] &&
      CleanupMap(CleanupMap(m, []), []) == map[]
  {
    var m := map[Labels := Map(map[KeepFiringFor := Int(0)])];
    var text := map[KeepFiringFor := Str("0")];
    assert Nested([], Labels) == [];
    NumericLabelStringified();
    assert CleanupMap(m, []) == map[Labels := Map(text)];
    TextLabelDropped();
  }

  /** The first pass keeps the number 0 and turns it into the text "0". */
  lemma NumericLabelStringified()
    ensures CleanEntry(Labels, Map(map[KeepFiringFor := Int(0)]), []) ==
      Some(Map(map[KeepFiringFor := Str("0")]))
  {
    var inner := map[KeepFiringFor := Int(0)];
    var text := map[KeepFiringFor := Str("0")];
    assert Nested([], Labels) == [];
    assert CleanupMap(inner, []) == inner by {
      assert CleanEntry(KeepFiringFor, Int(0), []) == Some(Int(0));
    }
    assert Render(Int(0)) == "0";
    assert Stringify(inner) == text;
    assert !IsEmpty(text) by {
      assert !Blank(text[KeepFiringFor]);
    }
  }

  /** The second pass drops the text "0" as a zero duration, and then the emptied labels. */
  lemma TextLabelDropped()
    ensures CleanupMap(map[Labels := Map(map[KeepFiringFor := Str("0")])], []) == map[]
  {
    var text := map[KeepFiringFor := Str("0")];
    assert Nested([], Labels) == [];
    assert CleanupMap(text, []) == map[] by {
      DurationFacts.ParseZeroText();
      assert CleanEntry(KeepFiringFor, Str("0"), []) == None;
    }
    assert CleanEntry(Labels, Map(text), []) == None by {
      assert Stringify(map[]) == map[];
    }
  }
}
