/**
 * The `YYYY/MM/DD` text of a date: `strftime('%Y/%m/%d')`, `strptime(s, '%Y/%m/%d')`
 * and `get_next_day` (crawl.py), with the fact that makes the crawl loop's string
 * test chronological: for formatted dates, string order is calendar order.
 */
module DateFormat {
  import opened Outcomes
  import opened Text
  import opened Calendar

  /** The shape of a formatted date: four digits, '/', two digits, '/', two digits. */
  predicate IsDatePath(s: string)
  {
    |s| == 10 && AllDigits(s[..4]) && s[4] == '/' && AllDigits(s[5..7]) && s[7] == '/' && AllDigits(s[8..])
  }

  /** `date.strftime('%Y/%m/%d')`. */
  function Format(d: Date): (s: string)
    requires IsValid(d)
    ensures IsDatePath(s)
  {
    assert Pow10(4) == 10000 && Pow10(2) == 100;
    Pad(d.year, 4) + "/" + Pad(d.month, 2) + "/" + Pad(d.day, 2)
  }

  /** The month directive of `_strptime`: `1[0-2]|0[1-9]|[1-9]`. */
  function MonthField(f: string): (r: Option<int>)
    ensures r.Some? ==> 1 <= r.value <= 12
  {
    if |f| == 2 && ((f[0] == '1' && '0' <= f[1] <= '2') || (f[0] == '0' && '1' <= f[1] <= '9')) then
      Some(10 * DigitValue(f[0]) + DigitValue(f[1]))
    else if |f| == 1 && '1' <= f[0] <= '9' then Some(DigitValue(f[0]))
    else None
  }

  /** The day directive of `_strptime`: `3[01]|[12]\d|0[1-9]|[1-9]| [1-9]`. */
  function DayField(f: string): (r: Option<int>)
    ensures r.Some? ==> 1 <= r.value <= 31
  {
    if |f| == 2 && ((f[0] == '3' && '0' <= f[1] <= '1') || ('1' <= f[0] <= '2' && IsDigit(f[1]))
                    || (f[0] == '0' && '1' <= f[1] <= '9')) then
      Some(10 * DigitValue(f[0]) + DigitValue(f[1]))
    else if |f| == 1 && '1' <= f[0] <= '9' then Some(DigitValue(f[0]))
    else if |f| == 2 && f[0] == ' ' && '1' <= f[1] <= '9' then Some(DigitValue(f[1]))
    else None
  }

  /**
   * `datetime.strptime(s, '%Y/%m/%d')`, None where it raises ValueError. The format
   * must match the whole string; the year takes exactly four digits, the month
   * and day one or two (the day may also be a space and a digit), and the
   * resulting date must exist (no year 0, no day past the end of its month).
   */
  function ParseStrptime(s: string): (r: Option<Date>)
    ensures r.Some? ==> IsValid(r.value)
  {
    if |s| < 5 || !AllDigits(s[..4]) || s[4] != '/' then None
    else
      var rest := s[5..];
      // The month alternatives are all digits, so the month field ends at the next '/'.
      var cut := if |rest| >= 2 && rest[1] == '/' then 1 else if |rest| >= 3 && rest[2] == '/' then 2 else 0;
      if cut == 0 then None
      else match (MonthField(rest[..cut]), DayField(rest[cut + 1..]))
        case (Some(m), Some(d)) =>
          var y := DigitsValue(s[..4]);
          if y < MIN_YEAR || d > DaysInMonth(y, m) then None else Some(Date(y, m, d))
        case _ => None
  }

  /** `s` is the formatted text of the date that it parses to. */
  predicate IsCanonical(s: string)
  {
    match ParseStrptime(s)
    case Some(d) => Format(d) == s
    case None => false
  }

  /** get_next_day (crawl.py:14-23): parse, add one day, format. */
  function NextDay(s: string): Result<string, Raised>
  {
    match ParseStrptime(s)
    case None => Err(ValueError)
    case Some(d) => if d == MAX_DATE then Err(OverflowError) else Ok(Format(Successor(d)))
  }

  /**
   * get_next_day's result is the canonical text of the day after the parsed date;
   * the call fails only for a string that is no date (ValueError) or for the last
   * representable date (OverflowError).
   */
  lemma NextDaySpec(s: string)
    ensures NextDay(s).Ok? ==> IsCanonical(NextDay(s).value) && ParseStrptime(s).Some?
    ensures NextDay(s).Ok? ==>
      Ordinal(ParseStrptime(NextDay(s).value).value) == Ordinal(ParseStrptime(s).value) + 1
    ensures NextDay(s) == Err(ValueError) <==> ParseStrptime(s).None?
    ensures NextDay(s) == Err(OverflowError) <==>
      ParseStrptime(s).Some? && Ordinal(ParseStrptime(s).value) == Ordinal(MAX_DATE)
    ensures NextDay(s).Ok? <==>
      ParseStrptime(s).Some? && Ordinal(ParseStrptime(s).value) < Ordinal(MAX_DATE)
    ensures NextDay(s).Err? ==> NextDay(s).error == ValueError || NextDay(s).error == OverflowError
  {
    if ParseStrptime(s).Some? {
      var d := ParseStrptime(s).value;
      OrdinalAtMostMax(d);
      if d != MAX_DATE {
        ParseFormat(Successor(d));
        SuccessorIsNextDay(d);
      }
    }
  }

  lemma Pad2(n: nat)
    requires n < 100
    ensures Pad(n, 2) == [DigitChar(n / 10), DigitChar(n % 10)]
  {
    assert Pad(n / 10, 1) == Pad(n / 10 / 10, 0) + [DigitChar((n / 10) % 10)];
  }

  /** Where the fields of a formatted date sit in its text. */
  lemma FormatLayout(d: Date)
    requires IsValid(d)
    ensures Pow10(4) == 10000 && Pow10(2) == 100
    ensures var s := Format(d);
      |s| == 10 && s[..4] == Pad(d.year, 4) && s[4] == '/'
      && s[5..][..2] == Pad(d.month, 2) && s[5..][2] == '/' && s[5..][3..] == Pad(d.day, 2)
  {
    var s := Format(d);
    assert Pow10(4) == 10000 && Pow10(2) == 100;
    var y, m, dd := Pad(d.year, 4), Pad(d.month, 2), Pad(d.day, 2);
    assert s == y + "/" + m + "/" + dd;
    assert s[..4] == y;
    assert s[5..] == m + "/" + dd;
  }

  /** Parsing undoes formatting. */
  lemma ParseFormat(d: Date)
    requires IsValid(d)
    ensures ParseStrptime(Format(d)) == Some(d)
  {
    FormatLayout(d);
    MonthFieldOfPad(d.month);
    DayFieldOfPad(d.day);
  }

  lemma MonthFieldOfPad(m: nat)
    requires 1 <= m <= 12
    ensures MonthField(Pad(m, 2)) == Some(m)
  {
    Pad2(m);
    assert DigitValue(DigitChar(m / 10)) == m / 10 && DigitValue(DigitChar(m % 10)) == m % 10;
  }

  lemma DayFieldOfPad(d: nat)
    requires 1 <= d <= 31
    ensures DayField(Pad(d, 2)) == Some(d)
  {
    Pad2(d);
    assert DigitValue(DigitChar(d / 10)) == d / 10 && DigitValue(DigitChar(d % 10)) == d % 10;
  }

  /** A formatted date string is the canonical text of its date. */
  lemma FormatCanonical(d: Date)
    requires IsValid(d)
    ensures IsCanonical(Format(d))
  {
    ParseFormat(d);
  }

  /** Formatting loses nothing: distinct dates have distinct texts. */
  lemma FormatInjective(a: Date, b: Date)
    requires IsValid(a) && IsValid(b)
    ensures Format(a) == Format(b) <==> a == b
  {
    ParseFormat(a);
    ParseFormat(b);
  }

  /** get_next_day on a formatted date: the formatted successor, or OverflowError on 9999/12/31. */
  lemma NextDayOfFormat(d: Date)
    requires IsValid(d)
    ensures d == MAX_DATE ==> NextDay(Format(d)) == Err(OverflowError)
    ensures d != MAX_DATE ==> NextDay(Format(d)) == Ok(Format(Successor(d)))
  {
    ParseFormat(d);
  }

  lemma FormatParts(d: Date)
    requires IsValid(d)
    ensures Pow10(4) == 10000 && Pow10(2) == 100
    ensures Format(d) == Pad(d.year, 4) + ("/" + (Pad(d.month, 2) + ("/" + Pad(d.day, 2))))
  {
    assert Pow10(4) == 10000 && Pow10(2) == 100;
  }

  /** For formatted dates, Python's string order `<` is chronological order. */
  lemma FormatOrder(a: Date, b: Date)
    requires IsValid(a) && IsValid(b)
    ensures LexLess(Format(a), Format(b)) <==> Ordinal(a) < Ordinal(b)
    ensures LexLessEq(Format(a), Format(b)) <==> Ordinal(a) <= Ordinal(b)
  {
    FormatParts(a);
    FormatParts(b);
    var ya, ma, da := Pad(a.year, 4), Pad(a.month, 2), Pad(a.day, 2);
    var yb, mb, db := Pad(b.year, 4), Pad(b.month, 2), Pad(b.day, 2);
    LexLessConcat(ya, "/" + (ma + ("/" + da)), yb, "/" + (mb + ("/" + db)));
    LexLessConcat("/", ma + ("/" + da), "/", mb + ("/" + db));
    LexLessConcat(ma, "/" + da, mb, "/" + db);
    LexLessConcat("/", da, "/", db);
    LexLessIrreflexive("/");
    PadOrder(a.year, b.year, 4);
    PadOrder(a.month, b.month, 2);
    PadOrder(a.day, b.day, 2);
    PadInjective(a.year, b.year, 4);
    PadInjective(a.month, b.month, 2);
    PadInjective(a.day, b.day, 2);
    assert LexLess(Format(a), Format(b)) <==> Before(a, b);
    OrdinalOrder(a, b);
    FormatInjective(a, b);
  }

  /** So the next day's text is always greater than a formatted date's: the loop test `current_date <= today` moves forward. */
  lemma NextDayIncreases(d: Date)
    requires IsValid(d) && d != MAX_DATE
    ensures NextDay(Format(d)).Ok? && LexLess(Format(d), NextDay(Format(d)).value)
  {
    NextDayOfFormat(d);
    SuccessorIsNextDay(d);
    FormatOrder(d, Successor(d));
  }

  /** Days from `s` through 9999/12/31 when `s` is canonical, one more than the whole range otherwise. */
  ghost function DaysLeft(s: string): nat
  {
    match ParseStrptime(s)
    case Some(d) =>
      OrdinalAtMostMax(d);
      if Format(d) == s then Ordinal(MAX_DATE) - Ordinal(d) + 1 else Ordinal(MAX_DATE) + 1
    case None => Ordinal(MAX_DATE) + 1
  }

  /** Every successful get_next_day brings the end of the representable dates closer. */
  lemma NextDayDecreases(s: string)
    requires NextDay(s).Ok?
    ensures DaysLeft(NextDay(s).value) < DaysLeft(s)
  {
    NextDaySpec(s);
    var d := ParseStrptime(s).value;
    var e := ParseStrptime(NextDay(s).value).value;
    OrdinalAtMostMax(d);
    OrdinalAtMostMax(e);
  }

  /** Month end in a common year: 2023/02/28 is followed by 2023/03/01. */
  lemma NextDayFebruaryCommonYear()
    ensures NextDay("2023/02/28") == Ok("2023/03/01")
  {
    var d := Date(2023, 2, 28);
    assert !IsLeapYear(2023) && Successor(d) == Date(2023, 3, 1);
    FormatText(d, "2023/02/28");
    FormatText(Date(2023, 3, 1), "2023/03/01");
    NextDayOfFormat(d);
  }

  /** Leap day: 2024/02/28 is followed by 2024/02/29, and that by 2024/03/01. */
  lemma NextDayFebruaryLeapYear()
    ensures NextDay("2024/02/28") == Ok("2024/02/29")
    ensures NextDay("2024/02/29") == Ok("2024/03/01")
  {
    FormatText(Date(2024, 2, 28), "2024/02/28");
    FormatText(Date(2024, 2, 29), "2024/02/29");
    FormatText(Date(2024, 3, 1), "2024/03/01");
    NextDayOfFormat(Date(2024, 2, 28));
    NextDayOfFormat(Date(2024, 2, 29));
  }

  /** Year end, and the last representable date. */
  lemma NextDayYearEnd()
    ensures NextDay("2023/12/31") == Ok("2024/01/01")
    ensures NextDay("9999/12/31") == Err(OverflowError)
  {
    FormatText(Date(2023, 12, 31), "2023/12/31");
    FormatText(Date(2024, 1, 1), "2024/01/01");
    FormatText(MAX_DATE, "9999/12/31");
    NextDayOfFormat(Date(2023, 12, 31));
    NextDayOfFormat(MAX_DATE);
  }

  /** A date that does not exist is a ValueError. */
  lemma NextDayNonexistentDate()
    ensures NextDay("2023/02/29") == Err(ValueError)
  {
    var t := "2023/02/29";
    assert t[..4] == "2023" && t[5..][..2] == "02" && t[5..][3..] == "29";
    Digits2023();
    assert t[5..][1] != '/' && t[5..][2] == '/';
    assert MonthField("02") == Some(2) && DayField("29") == Some(29);
    assert DaysInMonth(2023, 2) == 28;
    assert ParseStrptime(t) == None;
  }

  /** strptime also reads unpadded month and day fields; the next day comes out padded. */
  lemma NextDayUnpaddedInput()
    ensures NextDay("2023/3/1") == Ok("2023/03/02")
  {
    var s := "2023/3/1";
    assert s[..4] == "2023" && s[5..][..1] == "3" && s[5..][2..] == "1";
    Digits2023();
    assert MonthField("3") == Some(3) && DayField("1") == Some(1);
    assert ParseStrptime(s) == Some(Date(2023, 3, 1));
    assert Successor(Date(2023, 3, 1)) == Date(2023, 3, 2);
    FormatText(Date(2023, 3, 2), "2023/03/02");
  }

  lemma Digits2023()
    ensures AllDigits("2023") && DigitsValue("2023") == 2023
  {
    assert "2023"[..3] == "202" && "202"[..2] == "20" && "20"[..1] == "2" && "2"[..0] == "";
  }

  lemma Pad4(n: nat)
    requires n < 10000
    ensures Pow10(4) == 10000
    ensures Pad(n, 4) == [DigitChar(n / 10 / 10 / 10), DigitChar(n / 10 / 10 % 10), DigitChar(n / 10 % 10), DigitChar(n % 10)]
  {
    assert Pow10(4) == 10000 && Pow10(2) == 100;
    assert Pad(n, 4) == Pad(n / 10, 3) + [DigitChar(n % 10)];
    assert Pad(n / 10, 3) == Pad(n / 10 / 10, 2) + [DigitChar(n / 10 % 10)];
    Pad2(n / 10 / 10);
  }

  /** The text of a concrete date, character by character. */
  lemma FormatText(d: Date, s: string)
    requires IsValid(d) && |s| == 10 && s[4] == '/' && s[7] == '/'
    requires s[0] == DigitChar(d.year / 10 / 10 / 10) && s[1] == DigitChar(d.year / 10 / 10 % 10)
    requires s[2] == DigitChar(d.year / 10 % 10) && s[3] == DigitChar(d.year % 10)
    requires s[5] == DigitChar(d.month / 10) && s[6] == DigitChar(d.month % 10)
    requires s[8] == DigitChar(d.day / 10) && s[9] == DigitChar(d.day % 10)
    ensures Format(d) == s
  {
    FormatParts(d);
    Pad2(d.month);
    Pad2(d.day);
    Pad4(d.year);
    assert Format(d) == Pad(d.year, 4) + "/" + Pad(d.month, 2) + "/" + Pad(d.day, 2);
  }
}
