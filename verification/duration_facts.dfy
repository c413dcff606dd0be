/**
 * What time.ParseDuration rejects and accepts among short texts: the facts
 * the cleanup of `keep_firing_for` and the drift comparator rely on.
 */
module DurationFacts {
  import opened Wrappers
  import opened Text
  import opened Duration

  /** A text that starts with neither a sign, a digit nor a '.' is no duration. */
  lemma ParseNonNumericStart(s: string)
    requires |s| > 0 && s[0] != '+' && s[0] != '-' && s[0] != '.' && !IsDigit(s[0])
    ensures Parse(s) == None
  {
    assert SplitSign(s) == (false, s);
    assert NextComponent(s) == None;
  }

  /** Digits with no unit are no duration, except the lone "0". */
  lemma ParseBareDigits(s: string)
    requires AllDigits(s) && s != "0"
    ensures Parse(s) == None
  {
    if |s| > 0 {
      assert SplitSign(s) == (false, s);
      var n := DigitRun(s);
      assert n == |s|;
      assert s[n..] == "";
      assert UnitRun("") == 0;
      assert NextComponent(s) == None;
    }
  }

  /** The lone "0" is the zero duration. */
  lemma ParseZeroText()
    ensures Parse("0") == Some(0)
  {
    assert SplitSign("0") == (false, "0");
  }

  /** The empty text is no duration. */
  lemma ParseEmptyText()
    ensures Parse("") == None
  {
    assert SplitSign("") == (false, "");
  }
}
