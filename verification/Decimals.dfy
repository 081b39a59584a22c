/** Decimal numerals: printing without and with leading zeros, and reading. */
module Decimals {
  predicate IsDigit(c: char) {
    '0' <= c <= '9'
  }

  predicate AllDigits(s: string) {
    forall c | c in s :: IsDigit(c)
  }

  function DigitValue(c: char): (d: nat)
    requires IsDigit(c)
    ensures d < 10
  {
    c as int - '0' as int
  }

  function DigitChar(d: nat): (c: char)
    requires d < 10
    ensures IsDigit(c) && DigitValue(c) == d
  {
    '0' + d as char
  }

  /** The number a digit string stands for; leading zeros do not matter. */
  function Value(s: string): nat
    requires AllDigits(s)
  {
    if s == "" then 0
    else
      assert s[|s| - 1] in s;
      10 * Value(s[..|s| - 1]) + DigitValue(s[|s| - 1])
  }

  function Text(n: nat): (s: string)
    ensures s != "" && AllDigits(s)
  {
    if n < 10 then [DigitChar(n)] else Text(n / 10) + [DigitChar(n % 10)]
  }

  /** padStart with zeros: a longer text is left alone. */
  function ZeroPadded(s: string, width: nat): (r: string)
    ensures |r| == if |s| < width then width else |s|
    ensures AllDigits(s) ==> AllDigits(r)
    decreases width - |s|
  {
    if |s| < width then ZeroPadded("0" + s, width) else s
  }

  lemma {:induction false} ValueOfText(n: nat)
    ensures Value(Text(n)) == n
  {
    if 10 <= n {
      ValueOfText(n / 10);
      var s := Text(n);
      assert s[..|s| - 1] == Text(n / 10);
    } else {
      assert Text(n)[..0] == "";
    }
  }

  lemma {:induction false} LeadingZero(s: string)
    requires AllDigits(s)
    ensures Value("0" + s) == Value(s)
  {
    var z := "0" + s;
    if s == "" {
      assert z[..0] == "";
    } else {
      LeadingZero(s[..|s| - 1]);
      assert z[..|z| - 1] == "0" + s[..|s| - 1];
    }
  }

  /** Padding a numeral never changes the number read back, however many digits it has. */
  lemma {:induction false} ValueOfPadded(s: string, width: nat)
    requires AllDigits(s)
    ensures Value(ZeroPadded(s, width)) == Value(s)
    decreases width - |s|
  {
    if |s| < width {
      LeadingZero(s);
      ValueOfPadded("0" + s, width);
    }
  }

  lemma {:induction false} SameLengthSameValue(s: string, t: string)
    requires AllDigits(s) && AllDigits(t) && |s| == |t| && Value(s) == Value(t)
    ensures s == t
  {
    if s != "" {
      assert s[|s| - 1] in s && t[|t| - 1] in t;
      SameLengthSameValue(s[..|s| - 1], t[..|t| - 1]);
      assert s == s[..|s| - 1] + [s[|s| - 1]] && t == t[..|t| - 1] + [t[|t| - 1]];
    }
  }

  lemma {:induction false} TextIsShortest(s: string)
    requires AllDigits(s) && s != ""
    ensures |Text(Value(s))| <= |s|
  {
    if 10 <= Value(s) {
      var init := s[..|s| - 1];
      assert s[|s| - 1] in s;
      assert Value(s) / 10 == Value(init);
      if init != "" {
        TextIsShortest(init);
      }
    }
  }

  /** A digit string is what its number prints as, padded to its own length. */
  lemma PaddedTextOfValue(s: string)
    requires AllDigits(s) && s != ""
    ensures ZeroPadded(Text(Value(s)), |s|) == s
  {
    TextIsShortest(s);
    ValueOfText(Value(s));
    ValueOfPadded(Text(Value(s)), |s|);
    SameLengthSameValue(ZeroPadded(Text(Value(s)), |s|), s);
  }
}
