/**
 * Go's duration text, over nanosecond counts: the parser
 * time.ParseDuration and the printer time.Duration.String. The drift
 * comparator, the cleanup of `keep_firing_for` and the rule record's
 * Duration fields all go through these two functions.
 */
module Duration {
  import opened Wrappers
  import opened Text

  const Microsecond: nat := 1000
  const Millisecond: nat := 1_000_000
  const Second: nat := 1_000_000_000
  const Minute: nat := 60_000_000_000
  const Hour: nat := 3_600_000_000_000

  /** 1 << 63: the largest magnitude the parser accepts (reached only by the minimum). */
  const Limit: nat := 0x8000_0000_0000_0000

  /** The microsecond suffix Go prints, with U+00B5 MICRO SIGN. */
  const MicroSuffix: string := "\U{00B5}s"

  predicate InRange(d: int) {
    -(Limit as int) <= d < Limit
  }

  /**
   * Go's unitMap: "ns", "us", "\u00b5s", "\u03bcs", "ms", "s", "m", "h".
   * The lookup is written character by character.
   */
  function UnitValue(u: string): (r: Option<nat>)
    ensures r.Some? ==> r.value >= 1
  {
    if |u| == 1 then
      if u[0] == 's' then Some(Second)
      else if u[0] == 'm' then Some(Minute)
      else if u[0] == 'h' then Some(Hour)
      else None
    else if |u| == 2 && u[1] == 's' then
      if u[0] == 'n' then Some(1)
      else if u[0] == 'u' || u[0] == '\U{00B5}' || u[0] == '\U{03BC}' then Some(Microsecond)
      else if u[0] == 'm' then Some(Millisecond)
      else None
    else None
  }

  // ----------------------------------------------------------------- parser

  /** Length of the run of decimal digits at the start of `s`. */
  function DigitRun(s: string): (n: nat)
    ensures n <= |s| && AllDigits(s[..n])
    ensures n < |s| ==> !IsDigit(s[n])
  {
    if |s| > 0 && IsDigit(s[0]) then
      var k := DigitRun(s[1..]);
      assert s[..1 + k] == [s[0]] + s[1..][..k];
      1 + k
    else 0
  }

  /** A character that can belong to a unit name: anything but a digit or '.'. */
  predicate IsUnitChar(c: char) {
    c != '.' && !IsDigit(c)
  }

  /** Length of the unit name at the start of `s`. */
  function UnitRun(s: string): (n: nat)
    ensures n <= |s|
    ensures forall i | 0 <= i < n :: IsUnitChar(s[i])
    ensures n < |s| ==> !IsUnitChar(s[n])
  {
    if |s| > 0 && IsUnitChar(s[0]) then 1 + UnitRun(s[1..]) else 0
  }

  /**
   * Go's leadingFraction over the digits after a '.': the value of the
   * digits and the matching power of ten, ignoring the digits that would
   * overflow.
   */
  function LeadingFraction(digits: string, x: nat, scale: nat, overflow: bool): (r: (nat, nat))
    requires AllDigits(digits) && scale >= 1
    ensures r.1 >= 1
    decreases |digits|
  {
    if |digits| == 0 then (x, scale)
    else if overflow || x > (Limit - 1) / 10 then LeadingFraction(digits[1..], x, scale, true)
    else
      var y := x * 10 + DigitVal(digits[0]);
      if y > Limit then LeadingFraction(digits[1..], x, scale, true)
      else LeadingFraction(digits[1..], y, scale * 10, false)
  }

  /**
   * One component as written: the digits before the '.', the digits after
   * it, and the value of the unit name that follows.
   */
  datatype Component = Component(whole: string, frac: string, unit: nat)

  predicate WellFormed(c: Component) {
    AllDigits(c.whole) && AllDigits(c.frac) && c.unit >= 1
  }

  /**
   * The "[0-9]*(\.[0-9]*)?unit" component at the start of `s` and the text
   * after it, or None where Go reports a malformed component (no digits on
   * either side of the '.', a missing unit, an unknown unit).
   */
  function NextComponent(s: string): (r: Option<(Component, string)>)
    requires |s| > 0
    ensures r.Some? ==> WellFormed(r.value.0) && |r.value.1| < |s|
  {
    if !(s[0] == '.' || IsDigit(s[0])) then None
    else
      var n := DigitRun(s);
      var rest := s[n..];
      var hasDot := |rest| > 0 && rest[0] == '.';
      var afterDot := if hasDot then rest[1..] else rest;
      var m := if hasDot then DigitRun(afterDot) else 0;
      if n == 0 && m == 0 then None
      else
        var tail := afterDot[m..];
        var k := UnitRun(tail);
        if k == 0 then None
        else
          match UnitValue(tail[..k])
          case None => None
          case Some(unit) => Some((Component(s[..n], afterDot[..m], unit), tail[k..]))
  }

  /** Every component of `s`, in order, or None if one is malformed. */
  function Components(s: string): (r: Option<seq<Component>>)
    ensures r.Some? ==> forall i | 0 <= i < |r.value| :: WellFormed(r.value[i])
    decreases |s|
  {
    if |s| == 0 then Some([])
    else
      var next := NextComponent(s);
      if next.None? then None
      else
        var tail := Components(next.value.1);
        if tail.None? then None else Some([next.value.0] + tail.value)
  }

  /** The nanoseconds of "v.f" (f over scale) in a unit; the fraction truncates. */
  function Scaled(v: nat, f: nat, scale: nat, unit: nat): nat
    requires scale >= 1
  {
    v * unit + (if f > 0 then f * unit / scale else 0)
  }

  /**
   * The nanoseconds of one component, or None where Go reports an
   * overflow: the whole part beyond 1<<63, or the scaled value beyond it.
   */
  function Nanos(c: Component): (r: Option<nat>)
    requires WellFormed(c)
    ensures r.Some? ==> r.value <= Limit
  {
    var v := DigitsValue(c.whole);
    if v > Limit then None
    else
      var fs := LeadingFraction(c.frac, 0, 1, false);
      if v > Limit / c.unit then None
      else
        var w := Scaled(v, fs.0, fs.1, c.unit);
        if w > Limit then None else Some(w)
  }

  /** Go's accumulation over the components, failing once the sum passes 1<<63. */
  function Total(cs: seq<Component>, acc: nat): (r: Option<nat>)
    requires acc <= Limit
    requires forall i | 0 <= i < |cs| :: WellFormed(cs[i])
    ensures r.Some? ==> acc <= r.value <= Limit
  {
    if |cs| == 0 then Some(acc)
    else
      match Nanos(cs[0])
      case None => None
      case Some(w) => if acc + w > Limit then None else Total(cs[1..], acc + w)
  }

  /**
   * The unsigned part of time.ParseDuration: the special case "0", then
   * one or more components summed. Go checks each component's syntax and
   * overflow as it goes; both kinds of failure give the same error here,
   * so the model reads all components first and sums them afterwards.
   */
  function Magnitude(body: string): (r: Option<nat>)
    ensures r.Some? ==> r.value <= Limit
  {
    if |body| == 1 && body[0] == '0' then Some(0)
    else if |body| == 0 then None
    else
      match Components(body)
      case None => None
      case Some(cs) => Total(cs, 0)
  }

  /** The optional leading sign: whether it is '-', and the text after it. */
  function SplitSign(s: string): (r: (bool, string))
    ensures |r.1| <= |s|
  {
    if |s| > 0 && (s[0] == '-' || s[0] == '+') then (s[0] == '-', s[1..]) else (false, s)
  }

  /**
   * time.ParseDuration: an optional sign, then the magnitude; the result is
   * a nanosecond count in int64 range, so only a negative duration may
   * reach 1<<63.
   */
  function Parse(s: string): (r: Option<int>)
    ensures r.Some? ==> InRange(r.value)
  {
    var (negative, body) := SplitSign(s);
    match Magnitude(body)
    case None => None
    case Some(d) =>
      if negative then Some(-(d as int))
      else if d >= Limit then None
      else Some(d)
  }

  // ---------------------------------------------------------------- printer

  /** The `k` low-order decimal digits of `v`, zero-padded. */
  function FixedDigits(v: nat, k: nat): (s: string)
    ensures |s| == k && AllDigits(s)
  {
    if k == 0 then "" else FixedDigits(v / 10, k - 1) + [DigitChar(v % 10)]
  }

  /** `s` without its trailing '0' characters. */
  function TrimZeros(s: string): (t: string)
    ensures |t| <= |s| && t == s[..|t|]
    ensures |t| > 0 ==> t[|t| - 1] != '0'
    ensures forall i | |t| <= i < |s| :: s[i] == '0'
  {
    if |s| > 0 && s[|s| - 1] == '0' then TrimZeros(s[..|s| - 1]) else s
  }

  /** Go's fmtFrac: ".ddd" for the low `prec` digits of `v`, trailing zeros dropped, "" if all are zero. */
  function FracText(v: nat, prec: nat): string {
    var t := TrimZeros(FixedDigits(v, prec));
    if |t| == 0 then "" else "." + t
  }

  /** Duration.String for a non-negative magnitude. */
  function FormatMagnitude(u: nat): string {
    if u == 0 then "0s"
    else if u < Microsecond then NatToString(u) + "ns"
    else if u < Millisecond then NatToString(u / Microsecond) + FracText(u % Microsecond, 3) + MicroSuffix
    else if u < Second then NatToString(u / Millisecond) + FracText(u % Millisecond, 6) + "ms"
    else
      var secs := u / Second;
      var sec := NatToString(secs % 60) + FracText(u % Second, 9) + "s";
      var mins := secs / 60;
      if mins == 0 then sec
      else
        var hours := mins / 60;
        var min := NatToString(mins % 60) + "m";
        if hours == 0 then min + sec else NatToString(hours) + "h" + min + sec
  }

  /** time.Duration.String. */
  function Format(d: int): string
    requires InRange(d)
  {
    if d < 0 then "-" + FormatMagnitude(-d) else FormatMagnitude(d)
  }
}
