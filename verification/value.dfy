/**
 * The untyped tree that gopkg.in/yaml.v3 produces when a resource YAML is
 * decoded into `interface{}` / `map[string]interface{}`, and Go's `%v`
 * text of such a tree (fmt.Sprint / fmt.Sprintf("%v", ...)).
 */
module Values {
  import opened Text

  /**
   * A float64 as the exact decimal it was written as: mantissa / 10^scale.
   * Canonical means the scale carries no trailing zero of the mantissa, so
   * two canonical decimals are equal exactly when their values are.
   */
  datatype DecimalRep = DecimalRep(mantissa: int, scale: nat)

  type Decimal = d: DecimalRep | d.scale == 0 || d.mantissa % 10 != 0
    witness DecimalRep(0, 0)

  /** An integer as a float64 (Go's `float64(i)`), exact in this model. */
  function IntDecimal(i: int): (d: Decimal)
    ensures d.mantissa == i && d.scale == 0
  {
    DecimalRep(i, 0)
  }

  /** A decoded YAML node: scalars, sequences and string-keyed mappings. */
  datatype Value =
    | Null
    | Bool(b: bool)
    | Int(i: int)
    | Float(d: Decimal)
    | Str(s: string)
    | List(items: seq<Value>)
    | Map(entries: map<string, Value>)

  // --------------------------------------------------------- sorted keys

  /** Every pair of distinct strings is ordered one way or the other. */
  lemma LessTotalAll()
    ensures forall a: string, b: string :: a == b || Less(a, b) || Less(b, a)
  {
    forall a: string, b: string ensures a == b || Less(a, b) || Less(b, a) {
      LessTotal(a, b);
    }
  }

  /** A finite non-empty set of strings has a least element. */
  lemma {:induction false} MinimumExists(keys: set<string>)
    requires keys != {}
    ensures exists k :: k in keys && forall j | j in keys :: !Less(j, k)
    decreases |keys|
  {
    var x :| x in keys;
    if keys == {x} {
      LessIrreflexive(x);
    } else {
      MinimumExists(keys - {x});
      var m :| m in keys - {x} && forall j | j in keys - {x} :: !Less(j, m);
      if Less(x, m) {
        forall j | j in keys ensures !Less(j, x) {
          if j == x {
            LessIrreflexive(x);
          } else if Less(j, x) {
            LessTransitive(j, x, m);
          }
        }
      } else {
        LessIrreflexive(m);
      }
    }
  }

  /** The least key of a set under Go's string order. */
  function MinKey(keys: set<string>): (k: string)
    requires keys != {}
    ensures k in keys
    ensures forall j | j in keys && j != k :: Less(k, j)
  {
    MinimumExists(keys);
    LessTotalAll();
    var k :| k in keys && forall j | j in keys :: !Less(j, k);
    k
  }

  /** The keys of a map in ascending order: the order fmt prints a map in. */
  function SortedKeys(keys: set<string>): (ks: seq<string>)
    ensures |ks| == |keys|
    ensures forall i | 0 <= i < |ks| :: ks[i] in keys
    ensures forall k | k in keys :: k in ks
    ensures forall i, j | 0 <= i < j < |ks| :: Less(ks[i], ks[j])
    decreases |keys|
  {
    if keys == {} then []
    else
      var k := MinKey(keys);
      [k] + SortedKeys(keys - {k})
  }

  // ------------------------------------------------------------ %v of floats

  /** A positive integer split into its digits without trailing zeros and their count. */
  function StripZeros(n: nat): (r: (nat, nat))
    decreases n
  {
    if n > 0 && n % 10 == 0 then
      var (m, t) := StripZeros(n / 10);
      (m, t + 1)
    else (n, 0)
  }

  function Zeros(k: nat): (s: string)
    ensures |s| == k && forall i | 0 <= i < k :: s[i] == '0'
  {
    if k == 0 then "" else "0" + Zeros(k - 1)
  }

  /** Two-digit-minimum exponent, as strconv prints it ("e+06", "e-05", "e+123"). */
  function ExponentText(x: int): string {
    var sign := if x < 0 then "-" else "+";
    var a: nat := if x < 0 then -x else x;
    "e" + sign + (if a < 10 then "0" + NatToString(a) else NatToString(a))
  }

  /**
   * Shortest `%v` text of a non-negative float64 whose significant digits
   * are `digits` (no trailing zero) with the decimal point after `point`
   * digits: exponent form when the exponent is below -4 or at least 6
   * (strconv 'g' with precision -1), plain form otherwise.
   */
  function PlaceDigits(digits: string, point: int): string
    requires |digits| > 0
  {
    var x := point - 1;
    if x < -4 || x >= 6 then
      [digits[0]] + (if |digits| > 1 then "." + digits[1..] else "") + ExponentText(x)
    else if point <= 0 then
      "0." + Zeros(-point) + digits
    else if point >= |digits| then
      digits + Zeros(point - |digits|)
    else
      digits[..point] + "." + digits[point..]
  }

  /** fmt's `%v` of a float64 (strconv.FormatFloat(f, 'g', -1, 64)). */
  function RenderFloat(d: Decimal): string {
    var a: nat := if d.mantissa < 0 then -d.mantissa else d.mantissa;
    var sign := if d.mantissa < 0 then "-" else "";
    if a == 0 then "0"
    else
      var (m, t) := StripZeros(a);
      var digits := NatToString(m);
      sign + PlaceDigits(digits, |digits| + t - d.scale)
  }

  // ---------------------------------------------------------------- %v

  /** Elements separated by single spaces, as fmt prints slices and maps. */
  function JoinSpace(parts: seq<string>): string {
    if |parts| == 0 then ""
    else if |parts| == 1 then parts[0]
    else parts[0] + " " + JoinSpace(parts[1..])
  }

  /**
   * fmt.Sprint of a decoded value: `<nil>`, `true`, decimal integers,
   * shortest floats, strings as they are, `[a b]` for sequences and
   * `map[k1:v1 k2:v2]` with keys in ascending order for mappings.
   */
  function Render(v: Value): string
    decreases v
  {
    match v
    case Null => "<nil>"
    case Bool(b) => FormatBool(b)
    case Int(i) => IntToString(i)
    case Float(d) => RenderFloat(d)
    case Str(s) => s
    case List(items) =>
      "[" + JoinSpace(seq(|items|, i requires 0 <= i < |items| => Render(items[i]))) + "]"
    case Map(m) =>
      var ks := SortedKeys(m.Keys);
      "map[" + JoinSpace(seq(|ks|, i requires 0 <= i < |ks| => ks[i] + ":" + Render(m[ks[i]]))) + "]"
  }
}
