/**
 * The two ways Go quotes text inside error messages: strconv.Quote (used
 * by strconv's *NumError) and the time package's own quote (used by
 * time.ParseDuration's errors). Both wrap the text in double quotes and
 * escape `"` and `\`; they differ on control and non-ASCII characters.
 */
module GoQuote {
  import opened Wrappers

  // ------------------------------------------------------------- hex digits

  /** The lower-case hex digit of a nibble. */
  function HexDigit(n: nat): (r: char)
    requires n < 16
    ensures IsHex(r) && HexValue(r) == n
  {
    if n < 10 then ('0' as int + n) as char else ('a' as int + n - 10) as char
  }

  predicate IsHex(c: char) {
    '0' <= c <= '9' || 'a' <= c <= 'f'
  }

  function HexValue(c: char): (r: nat)
    requires IsHex(c)
    ensures r < 16
  {
    if c <= '9' then c as int - '0' as int else c as int - 'a' as int + 10
  }

  /** `\x` and the two hex digits of a byte. */
  function HexEscape(b: nat): (r: string)
    requires b < 256
    ensures |r| == 4 && r[0] == '\\' && r[1] == 'x' && IsHex(r[2]) && IsHex(r[3])
    ensures HexValue(r[2]) * 16 + HexValue(r[3]) == b
  {
    ['\\', 'x', HexDigit(b / 16), HexDigit(b % 16)]
  }

  // ---------------------------------------------------------- strconv.Quote

  /** The single-letter escapes of Go string literals, by character code. */
  function NamedEscape(c: char): Option<char> {
    if c == '\U{7}' then Some('a')
    else if c == '\U{8}' then Some('b')
    else if c == '\U{C}' then Some('f')
    else if c == '\n' then Some('n')
    else if c == '\r' then Some('r')
    else if c == '\t' then Some('t')
    else if c == '\U{B}' then Some('v')
    else None
  }

  /** The character a single-letter escape stands for. */
  function NamedChar(e: char): Option<char> {
    if e == 'a' then Some('\U{7}')
    else if e == 'b' then Some('\U{8}')
    else if e == 'f' then Some('\U{C}')
    else if e == 'n' then Some('\n')
    else if e == 'r' then Some('\r')
    else if e == 't' then Some('\t')
    else if e == 'v' then Some('\U{B}')
    else None
  }

  /**
   * strconv's appendEscapedRune with `"` as the quote: a backslash before
   * `"` and `\`; printable characters as they are; the seven named escapes;
   * other control characters and DEL as `\x` with two hex digits.
   */
  function EscapeRune(c: char): (r: string)
    ensures |r| > 0
  {
    if c == '"' || c == '\\' then ['\\', c]
    else if ' ' <= c && c != '\U{7F}' then [c]
    else if NamedEscape(c).Some? then ['\\', NamedEscape(c).value]
    else HexEscape(c as int)
  }

  function Escape(s: string): string {
    if |s| == 0 then "" else EscapeRune(s[0]) + Escape(s[1..])
  }

  /** strconv.Quote. */
  function Quote(s: string): (r: string)
    ensures |r| >= |s| + 2 && r[0] == '"' && r[|r| - 1] == '"'
  {
    EscapeLength(s);
    "\"" + Escape(s) + "\""
  }

  lemma {:induction false} EscapeLength(s: string)
    ensures |Escape(s)| >= |s|
  {
    if |s| > 0 {
      EscapeLength(s[1..]);
    }
  }

  // --------------------------------------------------------- reading it back

  /**
   * The body of a Go interpreted string literal: the escapes above read
   * back, a bare `"` or a dangling `\` rejected.
   */
  function Unescape(t: string): (r: Option<string>)
    decreases |t|
  {
    if |t| == 0 then Some("")
    else if t[0] == '"' then None
    else if t[0] != '\\' then Prepend(t[0], Unescape(t[1..]))
    else if |t| < 2 then None
    else if t[1] == '"' || t[1] == '\\' then Prepend(t[1], Unescape(t[2..]))
    else if NamedChar(t[1]).Some? then Prepend(NamedChar(t[1]).value, Unescape(t[2..]))
    else if t[1] == 'x' && |t| >= 4 && IsHex(t[2]) && IsHex(t[3]) then
      Prepend((HexValue(t[2]) * 16 + HexValue(t[3])) as char, Unescape(t[4..]))
    else None
  }

  function Prepend(c: char, o: Option<string>): Option<string> {
    if o.Some? then Some([c] + o.value) else None
  }

  /** One escaped character reads back as itself, whatever follows it. */
  lemma EscapeRuneBack(c: char, rest: string)
    ensures Unescape(EscapeRune(c) + rest) == Prepend(c, Unescape(rest))
  {
    var t := EscapeRune(c) + rest;
    if c == '"' || c == '\\' {
      assert t[2..] == rest;
    } else if ' ' <= c && c != '\U{7F}' {
      assert t[1..] == rest;
    } else if NamedEscape(c).Some? {
      assert t[2..] == rest;
    } else {
      assert t[4..] == rest;
    }
  }

  /** strconv.Quote loses nothing: its body reads back as the text. */
  lemma {:induction false} UnescapeEscape(s: string)
    ensures Unescape(Escape(s)) == Some(s)
  {
    if |s| > 0 {
      UnescapeEscape(s[1..]);
      EscapeRuneBack(s[0], Escape(s[1..]));
      assert [s[0]] + s[1..] == s;
    }
  }

  /** Text with no quote, backslash or control character is only wrapped. */
  lemma {:induction false} QuotePlain(s: string)
    requires forall i | 0 <= i < |s| :: PlainAscii(s[i]) || s[i] >= '\U{80}'
    ensures Quote(s) == "\"" + s + "\""
  {
    EscapePlain(s);
  }

  lemma {:induction false} EscapePlain(s: string)
    requires forall i | 0 <= i < |s| :: PlainAscii(s[i]) || s[i] >= '\U{80}'
    ensures Escape(s) == s
  {
    if |s| > 0 {
      EscapePlain(s[1..]);
      assert [s[0]] + s[1..] == s;
    }
  }

  /** A printable ASCII character other than `"` and `\`. */
  predicate PlainAscii(c: char) {
    ' ' <= c <= '~' && c != '"' && c != '\\'
  }

  // ------------------------------------------------------- the time package

  /**
   * The UTF-8 bytes of a character: one below 0x80, two below 0x800,
   * three below 0x10000, four above.
   */
  function Utf8(c: char): (r: seq<nat>)
    ensures 1 <= |r| <= 4 && forall i | 0 <= i < |r| :: r[i] < 256
    ensures |r| == 1 <==> c < '\U{80}'
  {
    var n := c as int;
    if n < 0x80 then [n]
    else if n < 0x800 then [0xC0 + n / 0x40, 0x80 + n % 0x40]
    else if n < 0x1_0000 then [0xE0 + n / 0x1000, 0x80 + n / 0x40 % 0x40, 0x80 + n % 0x40]
    else [0xF0 + n / 0x4_0000, 0x80 + n / 0x1000 % 0x40, 0x80 + n / 0x40 % 0x40, 0x80 + n % 0x40]
  }

  function HexBytes(b: seq<nat>): string
    requires forall i | 0 <= i < |b| :: b[i] < 256
  {
    if |b| == 0 then "" else HexEscape(b[0]) + HexBytes(b[1..])
  }

  /**
   * The time package's escape of one character: every byte of a control
   * or non-ASCII character as `\x` and two hex digits, a backslash before
   * `"` and `\`, anything else as it is (DEL included).
   */
  function TimeEscapeRune(c: char): (r: string)
    ensures |r| > 0
  {
    if c >= '\U{80}' || c < ' ' then HexBytes(Utf8(c))
    else if c == '"' || c == '\\' then ['\\', c]
    else [c]
  }

  function TimeEscape(s: string): string {
    if |s| == 0 then "" else TimeEscapeRune(s[0]) + TimeEscape(s[1..])
  }

  /** The time package's quote. */
  function TimeQuote(s: string): (r: string)
    ensures |r| >= 2 && r[0] == '"' && r[|r| - 1] == '"'
  {
    "\"" + TimeEscape(s) + "\""
  }

  /** On printable ASCII the two quotings agree. */
  lemma {:induction false} TimeQuoteIsQuoteOnAscii(s: string)
    requires forall i | 0 <= i < |s| :: ' ' <= s[i] <= '~'
    ensures TimeQuote(s) == Quote(s)
  {
    TimeEscapeIsEscape(s);
  }

  lemma {:induction false} TimeEscapeIsEscape(s: string)
    requires forall i | 0 <= i < |s| :: ' ' <= s[i] <= '~'
    ensures TimeEscape(s) == Escape(s)
  {
    if |s| > 0 {
      TimeEscapeIsEscape(s[1..]);
    }
  }

  /** The time package's quote of ASCII text reads back as the text. */
  lemma {:induction false} UnescapeTimeEscape(s: string)
    requires forall i | 0 <= i < |s| :: s[i] < '\U{80}'
    ensures Unescape(TimeEscape(s)) == Some(s)
  {
    if |s| > 0 {
      var c := s[0];
      var rest := TimeEscape(s[1..]);
      UnescapeTimeEscape(s[1..]);
      if c < ' ' {
        assert HexBytes(Utf8(c)) == HexEscape(c as int) + HexBytes([]);
        var t := TimeEscapeRune(c) + rest;
        assert t[4..] == rest;
      } else if c == '\U{7F}' {
        var t := TimeEscapeRune(c) + rest;
        assert t[1..] == rest;
      } else {
        assert TimeEscapeRune(c) == EscapeRune(c);
        EscapeRuneBack(c, rest);
      }
      assert [c] + s[1..] == s;
    }
  }

  /** Where they differ: a newline is `\n` to strconv, `\x0a` to time. */
  lemma NewlineQuotedTwoWays()
    ensures Quote("a\nb") == "\"a\\nb\""
    ensures TimeQuote("a\nb") == "\"a\\x0ab\""
  {
    assert Escape("a\nb") == "a\\nb" by {
      assert Escape("b") == "b";
      assert "a\nb"[1..] == "\nb";
      assert "\nb"[1..] == "b";
    }
    assert TimeEscape("a\nb") == "a\\x0ab" by {
      assert TimeEscape("b") == "b";
      assert "a\nb"[1..] == "\nb";
      assert "\nb"[1..] == "b";
      assert HexBytes(Utf8('\n')) == "\\x0a";
    }
  }
}
