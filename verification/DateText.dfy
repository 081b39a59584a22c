/** The date validator: a text is refused when reading it as a date and printing that date changes it. */
module DateText {
  import opened Calendar
  import opened Decimals

  /** Four digits, a dash, two digits, a dash, two digits; anything may follow. */
  predicate DatePrefix(v: string) {
    && 10 <= |v|
    && AllDigits(v[..4]) && v[4] == '-' && AllDigits(v[5..7]) && v[7] == '-' && AllDigits(v[8..10])
  }

  /** The date that the first ten characters name; its month and day may be out of range. */
  function Named(v: string): Civil
    requires DatePrefix(v)
  {
    Civil(Value(v[..4]), Value(v[5..7]) - 1, Value(v[8..10]))
  }

  /** The first ten characters of toISOString: years beyond four digits are printed with a sign and six. */
  function IsoDate(ms: int): string {
    var c := CivilFromDay(DayOf(ms));
    CivilIsReal(DayOf(ms));
    if 0 <= c.year <= 9999 then
      ZeroPadded(Text(c.year), 4) + "-" + ZeroPadded(Text(c.month + 1), 2) + "-" + ZeroPadded(Text(c.day), 2)
    else
      (if c.year < 0 then "-" else "+") + ZeroPadded(Text(if c.year < 0 then -c.year else c.year), 6) + "-"
      + ZeroPadded(Text(c.month + 1), 2)
  }

  /** `parse` stands for Date.parse. */
  predicate ValidDate(v: string, parse: string -> Instant) {
    DatePrefix(v) && var t := parse(v); t.At? && IsoDate(t.ms) == v[..10]
  }

  /**
   * What Date.parse does with ten characters of date: midnight of a real date; for a day up to 31
   * that its month does not have, NaN or the day it rolls over to; otherwise NaN.
   */
  ghost predicate ParsesDates(parse: string -> Instant) {
    forall v | |v| == 10 && DatePrefix(v) ::
      var c := Named(v);
      if RealDate(c) then parse(v) == At(MakeDay(c.year, c.month, c.day) * MS_PER_DAY)
      else if 0 <= c.month < 12 && 1 <= c.day <= 31 then
        parse(v) == Invalid || parse(v) == At(MakeDay(c.year, c.month, c.day) * MS_PER_DAY)
      else parse(v) == Invalid
  }

  lemma PartsRoundTrip(v: string)
    requires DatePrefix(v)
    ensures Value(v[..4]) <= 9999 && Value(v[5..7]) <= 99 && Value(v[8..10]) <= 99
    ensures v[..10] == ZeroPadded(Text(Value(v[..4])), 4) + "-" + ZeroPadded(Text(Value(v[5..7])), 2) + "-"
                       + ZeroPadded(Text(Value(v[8..10])), 2)
  {
    PaddedTextOfValue(v[..4]);
    PaddedTextOfValue(v[5..7]);
    PaddedTextOfValue(v[8..10]);
    ShortValues(v[..4]);
    ShortValues(v[5..7]);
    ShortValues(v[8..10]);
    assert v[..10] == v[..4] + "-" + v[5..7] + "-" + v[8..10];
  }

  lemma ShortValues(s: string)
    requires AllDigits(s)
    ensures |s| == 2 ==> Value(s) <= 99
    ensures |s| == 4 ==> Value(s) <= 9999
  {
    assert forall i | 0 <= i < |s| :: s[i] in s;
    if |s| == 4 {
      assert s[..3][..2] == s[..2];
      ShortValues(s[..2]);
      assert Value(s[..3]) <= 999;
    } else if |s| == 2 {
      assert s[..1][..0] == "";
      assert Value(s[..1]) <= 9;
    }
  }

  lemma IsoDateNames(ms: int, v: string)
    requires DatePrefix(v)
    ensures IsoDate(ms) == v[..10] <==> CivilFromDay(DayOf(ms)) == Named(v)
  {
    var c := CivilFromDay(DayOf(ms));
    PartsRoundTrip(v);
    CivilIsReal(DayOf(ms));
    if 0 <= c.year <= 9999 {
      SplitDates(c, v);
    } else {
      assert IsoDate(ms)[0] == '-' || IsoDate(ms)[0] == '+';
      assert v[0] in v[..4];
    }
  }

  lemma NarrowText(n: nat, width: nat)
    requires (width == 2 && n <= 99) || (width == 4 && n <= 9999)
    ensures |ZeroPadded(Text(n), width)| == width && AllDigits(ZeroPadded(Text(n), width))
    ensures Value(ZeroPadded(Text(n), width)) == n
  {
    assert |Text(n / 100)| <= 2;
    assert n >= 100 ==> |Text(n)| == |Text(n / 100)| + 2 by {
      assert n / 10 / 10 == n / 100;
    }
    ValueOfText(n);
    ValueOfPadded(Text(n), width);
  }

  lemma ThreeParts(y: string, m: string, d: string)
    requires |y| == 4 && |m| == 2 && |d| == 2
    ensures var s := y + "-" + m + "-" + d; |s| == 10 && s[..4] == y && s[5..7] == m && s[8..10] == d
  {
  }

  lemma SplitDates(c: Civil, v: string)
    requires DatePrefix(v) && RealDate(c) && 0 <= c.year <= 9999
    ensures ZeroPadded(Text(c.year), 4) + "-" + ZeroPadded(Text(c.month + 1), 2) + "-" + ZeroPadded(Text(c.day), 2)
            == v[..10]
            <==> c == Named(v)
  {
    PartsRoundTrip(v);
    SplitNumbers(c.year, c.month + 1, c.day, v);
  }

  lemma SplitNumbers(year: nat, month: nat, day: nat, v: string)
    requires DatePrefix(v) && year <= 9999 && month <= 99 && day <= 99
    ensures ZeroPadded(Text(year), 4) + "-" + ZeroPadded(Text(month), 2) + "-" + ZeroPadded(Text(day), 2) == v[..10] ==>
            year == Value(v[..4]) && month == Value(v[5..7]) && day == Value(v[8..10])
  {
    var y, m, d := ZeroPadded(Text(year), 4), ZeroPadded(Text(month), 2), ZeroPadded(Text(day), 2);
    NarrowText(year, 4);
    NarrowText(month, 2);
    NarrowText(day, 2);
    ThreeParts(y, m, d);
    assert v[..10][..4] == v[..4] && v[..10][5..7] == v[5..7] && v[..10][8..10] == v[8..10];
  }

  /**
   * Whatever else a text holds and however it is read, it is accepted exactly when it is read as some
   * moment of the day it starts by naming, and that is a day of the Gregorian calendar.
   */
  lemma AcceptedDatesAreReal(v: string, parse: string -> Instant)
    ensures ValidDate(v, parse) <==>
            DatePrefix(v) && RealDate(Named(v)) && parse(v).At?
            && DayOf(parse(v).ms) == MakeDay(Named(v).year, Named(v).month, Named(v).day)
  {
    if DatePrefix(v) && parse(v).At? {
      IsoDateNames(parse(v).ms, v);
      CivilIsReal(DayOf(parse(v).ms));
      NamesDayIff(DayOf(parse(v).ms), Named(v));
    }
  }

  /** An epoch day reads as a date exactly when the date is real and falls on that day. */
  lemma NamesDayIff(n: int, c: Civil)
    ensures CivilFromDay(n) == c <==> RealDate(c) && MakeDay(c.year, c.month, c.day) == n
  {
    CivilIsReal(n);
    DayRoundTrip(n);
    if RealDate(c) {
      DateRoundTrip(c);
    }
  }

  /**
   * A date alone is accepted exactly when the calendar has it, whether the engine rejects overlong days or rolls
   * them over.
   */
  lemma DateOnlyAcceptedIffReal(v: string, parse: string -> Instant)
    requires |v| == 10 && ParsesDates(parse)
    ensures ValidDate(v, parse) <==> DatePrefix(v) && RealDate(Named(v))
  {
    AcceptedDatesAreReal(v, parse);
    if DatePrefix(v) && RealDate(Named(v)) {
      var n := MakeDay(Named(v).year, Named(v).month, Named(v).day);
      assert DayOf(n * MS_PER_DAY) == n;
    }
  }
}
