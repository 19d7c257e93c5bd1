/** The two `datetime` text layouts of an attribute element: `%Y/%m/%d` for
    the creation date and `%m/%d/%Y %I:%M:%S %p` for the modification time,
    written with `strftime` and read with `strptime`. */
module Calendar {
  import opened Wrappers
  import opened Decimal
  import PyText

  datatype DateTimeFields = DateTimeFields(
    year: int, month: int, day: int,
    hour: int, minute: int, second: int, microsecond: int)

  predicate IsLeapYear(y: int) {
    y % 4 == 0 && (y % 100 != 0 || y % 400 == 0)
  }

  function DaysInMonth(y: int, m: int): int
    requires 1 <= m <= 12
  {
    if m == 2 then (if IsLeapYear(y) then 29 else 28)
    else if m == 4 || m == 6 || m == 9 || m == 11 then 30
    else 31
  }

  /** A Python `datetime` (naive, no time zone). Years are restricted to four
      digits, where `%Y` has one unambiguous rendering. */
  predicate ValidFields(d: DateTimeFields) {
    && 1000 <= d.year <= 9999
    && 1 <= d.month <= 12
    && 1 <= d.day <= DaysInMonth(d.year, d.month)
    && 0 <= d.hour < 24 && 0 <= d.minute < 60 && 0 <= d.second < 60
    && 0 <= d.microsecond < 1000000
  }

  type DateTime = d: DateTimeFields | ValidFields(d)
    witness DateTimeFields(2000, 1, 1, 0, 0, 0, 0)

  /** The same date at midnight: what a date-only text keeps. */
  function StartOfDay(d: DateTime): DateTime {
    d.(hour := 0, minute := 0, second := 0, microsecond := 0)
  }

  /** The same moment without its sub-second part. */
  function WholeSeconds(d: DateTime): DateTime {
    d.(microsecond := 0)
  }

  // ---------------------------------------------------------------------
  // Fixed-width numbers

  function Pow10(w: nat): (p: nat)
    ensures p >= 1
  {
    if w == 0 then 1 else 10 * Pow10(w - 1)
  }

  /** `n` as exactly `w` digits, zero-filled on the left (`%02d`, `%04d`). */
  function FixedWidth(n: nat, w: nat): (s: string)
    requires n < Pow10(w)
    ensures |s| == w && AllDigits(s)
  {
    if w == 0 then [] else FixedWidth(n / 10, w - 1) + [DigitChar(n % 10)]
  }

  lemma {:induction false} FixedWidthValue(n: nat, w: nat)
    requires n < Pow10(w)
    ensures DigitsValue(FixedWidth(n, w)) == n
  {
    if w > 0 {
      var s := FixedWidth(n, w);
      assert s[..|s| - 1] == FixedWidth(n / 10, w - 1);
      FixedWidthValue(n / 10, w - 1);
    }
  }

  lemma {:induction false} ValueBelowPow10(t: string)
    requires AllDigits(t)
    ensures DigitsValue(t) < Pow10(|t|)
  {
    if t != [] {
      ValueBelowPow10(t[..|t| - 1]);
    }
  }

  /** A string of `w` digits is the fixed-width rendering of its value. */
  lemma {:induction false} FixedWidthOfValue(t: string)
    requires AllDigits(t)
    ensures DigitsValue(t) < Pow10(|t|)
    ensures FixedWidth(DigitsValue(t), |t|) == t
  {
    ValueBelowPow10(t);
    if t != [] {
      var init := t[..|t| - 1];
      FixedWidthOfValue(init);
      DivMod10(DigitsValue(init), DigitValue(t[|t| - 1]));
      assert t == init + [t[|t| - 1]];
    }
  }

  // ---------------------------------------------------------------------
  // strftime

  /** `d.strftime("%Y/%m/%d")`. */
  function FormatDate(d: DateTime): string {
    FixedWidth(d.year, 4) + "/" + FixedWidth(d.month, 2) + "/" + FixedWidth(d.day, 2)
  }

  /** The `%I` hour: the 24-hour clock folded onto 1..12. */
  function Hour12(h: int): int
    requires 0 <= h < 24
  {
    if h % 12 == 0 then 12 else h % 12
  }

  /** The `%p` marker in the C locale. */
  function Meridiem(h: int): string {
    if h < 12 then "AM" else "PM"
  }

  /** `d.strftime("%m/%d/%Y %I:%M:%S %p")`. */
  function FormatModifyTime(d: DateTime): string {
    FixedWidth(d.month, 2) + "/" + FixedWidth(d.day, 2) + "/" + FixedWidth(d.year, 4) + " "
    + FixedWidth(Hour12(d.hour), 2) + ":" + FixedWidth(d.minute, 2) + ":" + FixedWidth(d.second, 2)
    + " " + Meridiem(d.hour)
  }

  // ---------------------------------------------------------------------
  // strptime

  /** The text does not match the format. */
  const NoMatch := LibraryValueError

  /** The format matched a prefix only ("unconverted data remains"). */
  const Unconverted := LibraryValueError

  /** The number written in `s[i..j]`. */
  function Num(s: string, i: nat, j: nat): nat
    requires i <= j <= |s| && AllDigits(s[i..j])
  {
    DigitsValue(s[i..j])
  }

  predicate DigitsAt(s: string, i: nat, j: nat) {
    i <= j <= |s| && AllDigits(s[i..j])
  }

  /** The calendar checks `datetime(...)` makes once the text has matched. */
  function MakeDateTime(y: int, mo: int, d: int, h: int, mi: int, sec: int): Result<DateTime>
    requires 1 <= mo <= 12
  {
    if !(1000 <= y <= 9999) then Err(LibraryValueError)
    else if !(1 <= d <= DaysInMonth(y, mo)) then Err(LibraryValueError)
    else if !(0 <= h < 24 && 0 <= mi < 60 && 0 <= sec < 60) then Err(LibraryValueError)
    else Ok(DateTimeFields(y, mo, d, h, mi, sec, 0))
  }

  /** The value of two ASCII digits. */
  function Pair(a: char, b: char): nat
    requires IsDigit(a) && IsDigit(b)
  {
    10 * DigitValue(a) + DigitValue(b)
  }

  /** `strptime`'s `%m` pattern, `1[0-2]|0[1-9]|[1-9]`, where the format puts
      '/' after it: the length of the month token at `i`, or 0. Only one
      alternative can be followed by '/', so backtracking picks that one. */
  function MonthLength(s: string, i: nat): (n: nat)
    ensures n <= 2
    ensures n > 0 ==> i + n < |s| && s[i + n] == '/' && DigitsAt(s, i, i + n)
    ensures n > 0 ==> 1 <= MonthValue(s, i, n) <= 12
  {
    if i + 2 < |s| && ((s[i] == '1' && '0' <= s[i + 1] <= '2') || (s[i] == '0' && '1' <= s[i + 1] <= '9'))
       && s[i + 2] == '/' then 2
    else if i + 1 < |s| && '1' <= s[i] <= '9' && s[i + 1] == '/' then 1
    else 0
  }

  function MonthValue(s: string, i: nat, n: nat): nat
    requires 1 <= n <= 2 && DigitsAt(s, i, i + n)
  {
    assert s[i] == s[i..i + n][0];
    if n == 2 then (assert s[i + 1] == s[i..i + n][1]; Pair(s[i], s[i + 1])) else DigitValue(s[i])
  }

  /** `strptime`'s `%d` pattern, `3[01]|[12]\d|0[1-9]|[1-9]| [1-9]`, last in
      the format: the first alternative that matches at `k` wins, and its
      length is returned (0 when none matches). */
  function DayLength(s: string, k: nat): (n: nat)
    ensures n <= 2 && (n > 0 ==> k + n <= |s|)
    ensures n > 0 ==> 1 <= DayValue(s, k, n) <= 31
  {
    if k + 2 <= |s| && ((s[k] == '3' && '0' <= s[k + 1] <= '1') || ('1' <= s[k] <= '2' && IsDigit(s[k + 1]))
                        || (s[k] == '0' && '1' <= s[k + 1] <= '9')) then 2
    else if k + 1 <= |s| && '1' <= s[k] <= '9' then 1
    else if k + 2 <= |s| && s[k] == ' ' && '1' <= s[k + 1] <= '9' then 2
    else 0
  }

  /** The day a token of `DayLength` denotes; a leading space is padding. */
  function DayValue(s: string, k: nat, n: nat): nat
    requires 1 <= n <= 2 && k + n <= |s|
  {
    if n == 1 then (if IsDigit(s[k]) then DigitValue(s[k]) else 0)
    else if s[k] == ' ' then (if IsDigit(s[k + 1]) then DigitValue(s[k + 1]) else 0)
    else if IsDigit(s[k]) && IsDigit(s[k + 1]) then Pair(s[k], s[k + 1]) else 0
  }

  /** `datetime.strptime(s, "%Y/%m/%d")`: four digits, '/', a month of one or
      two digits, '/', then a day of one or two digits or a space and one
      digit; text left after the day raises. */
  function ParseDate(s: string): Result<DateTime> {
    if !(|s| > 4 && DigitsAt(s, 0, 4) && s[4] == '/') then Err(NoMatch)
    else
      var ml := MonthLength(s, 5);
      if ml == 0 then Err(NoMatch)
      else
        var k := 5 + ml + 1;
        var dl := DayLength(s, k);
        if dl == 0 then Err(NoMatch)
        else if k + dl != |s| then Err(Unconverted)
        else MakeDateTime(Num(s, 0, 4), MonthValue(s, 5, ml), DayValue(s, k, dl), 0, 0, 0)
  }

  /** The `%p` field, matched without regard to case. */
  function ReadMeridiem(t: string): Option<bool> {
    var l := PyText.Lower(t);
    if l == "am" then Some(false) else if l == "pm" then Some(true) else None
  }

  /** `datetime.strptime(s, "%m/%d/%Y %I:%M:%S %p")` on zero-padded fields
      separated by single spaces. With `%p`, hour 12 AM is 0 and a PM hour
      other than 12 gains 12. */
  function ParseModifyTime(s: string): Result<DateTime> {
    if !(ModifyTimeLayout(s)
         && DigitsAt(s, 0, 2) && DigitsAt(s, 3, 5) && DigitsAt(s, 6, 10)
         && DigitsAt(s, 11, 13) && DigitsAt(s, 14, 16) && DigitsAt(s, 17, 19)
         && ReadMeridiem(s[20..]).Some?)
    then Err(NoMatch)
    else
      var m, d, y := Num(s, 0, 2), Num(s, 3, 5), Num(s, 6, 10);
      var h12, mi, sec := Num(s, 11, 13), Num(s, 14, 16), Num(s, 17, 19);
      var pm := ReadMeridiem(s[20..]).value;
      if !(1 <= m <= 12 && 1 <= d <= 31 && 1 <= h12 <= 12 && mi <= 59 && sec <= 61) then Err(NoMatch)
      else
        MakeDateTime(y, m, d, To24(h12, pm), mi, sec)
  }

  // ---------------------------------------------------------------------
  // Round trips

  lemma FormatDateFields(d: DateTime)
    ensures var s := FormatDate(d);
            && |s| == 10 && s[4] == '/' && s[7] == '/'
            && s[0..4] == FixedWidth(d.year, 4) && s[5..7] == FixedWidth(d.month, 2)
            && s[8..10] == FixedWidth(d.day, 2)
  {
    DateShape(FixedWidth(d.year, 4), FixedWidth(d.month, 2), FixedWidth(d.day, 2));
  }

  lemma DateShape(y: string, m: string, d: string)
    requires |y| == 4 && |m| == 2 && |d| == 2
    ensures var s := y + "/" + m + "/" + d;
            && |s| == 10 && s[4] == '/' && s[7] == '/' && s[0..4] == y && s[5..7] == m && s[8..10] == d
  {
  }

  /** Reading back a written creation date gives the same day at midnight:
      the time of day is not stored. */
  lemma ParseFormatDate(d: DateTime)
    ensures ParseDate(FormatDate(d)) == Ok(StartOfDay(d))
  {
    var s := FormatDate(d);
    FormatDateFields(d);
    FixedNum(s, 0, 4, d.year, 4);
    TwoDigits(d.month);
    TwoDigits(d.day);
    DateAccepted(s, d.year, d.month, d.day);
    MakeWhole(d);
  }

  /** A fixed-width field reads back as its number. */
  lemma FixedNum(s: string, i: nat, j: nat, n: nat, w: nat)
    requires n < Pow10(w) && i <= j <= |s| && s[i..j] == FixedWidth(n, w)
    ensures DigitsAt(s, i, j) && Num(s, i, j) == n
  {
    FixedWidthValue(n, w);
  }

  /** A number below 100 written with `%02d` is its tens and units digit. */
  lemma TwoDigits(n: nat)
    requires n < 100
    ensures n < Pow10(2) && FixedWidth(n, 2) == [DigitChar(n / 10), DigitChar(n % 10)]
    ensures Pair(DigitChar(n / 10), DigitChar(n % 10)) == n
  {
    var q, u := n / 10, n % 10;
    assert n == q * 10 + u && q < 10;
    DivMod10(0, q);
    assert Pow10(2) == 100;
    assert FixedWidth(q, 1) == FixedWidth(0, 0) + [DigitChar(q)];
    assert DigitValue(DigitChar(q)) == q && DigitValue(DigitChar(u)) == u;
  }

  /** Two digits are the `%02d` rendering of the number they denote. */
  lemma PairWidth(a: char, b: char)
    requires IsDigit(a) && IsDigit(b)
    ensures Pair(a, b) < 100 && FixedWidth(Pair(a, b), 2) == [a, b]
  {
    var n := Pair(a, b);
    assert n / 10 == DigitValue(a) && n % 10 == DigitValue(b);
    TwoDigits(n);
  }

  /** A zero-padded date text is read field by field. */
  lemma DateAccepted(s: string, y: nat, m: nat, d: nat)
    requires |s| == 10 && s[4] == '/' && s[7] == '/' && DigitsAt(s, 0, 4) && Num(s, 0, 4) == y
    requires 1 <= m <= 12 && s[5] == DigitChar(m / 10) && s[6] == DigitChar(m % 10)
    requires 1 <= d <= 31 && s[8] == DigitChar(d / 10) && s[9] == DigitChar(d % 10)
    requires Pair(s[5], s[6]) == m && Pair(s[8], s[9]) == d
    ensures ParseDate(s) == MakeDateTime(y, m, d, 0, 0, 0)
  {
    assert MonthLength(s, 5) == 2;
    assert DayLength(s, 8) == 2;
  }

  /** The checks of `datetime(...)` accept the fields of a valid moment. */
  lemma MakeWhole(d: DateTime)
    ensures MakeDateTime(d.year, d.month, d.day, d.hour, d.minute, d.second) == Ok(WholeSeconds(d))
    ensures MakeDateTime(d.year, d.month, d.day, 0, 0, 0) == Ok(StartOfDay(d))
  {
  }

  /** Whatever date text the reader accepts, the written form of its date
      reads as the same date; the text is written back unchanged exactly when
      it is the zero-padded form, ten characters without a space. */
  lemma FormatParseDate(s: string)
    requires ParseDate(s).Ok?
    ensures ParseDate(FormatDate(ParseDate(s).value)) == ParseDate(s)
    ensures FormatDate(ParseDate(s).value) == s <==> |s| == 10 && s[8] != ' '
  {
    var v := ParseDate(s).value;
    assert StartOfDay(v) == v;
    ParseFormatDate(v);
    if |s| == 10 && s[8] != ' ' {
      PaddedDateRewritten(s);
    } else if FormatDate(v) == s {
      assert false;
    }
  }

  /** A zero-padded date text is written back as itself. */
  lemma PaddedDateRewritten(s: string)
    requires ParseDate(s).Ok? && |s| == 10 && s[8] != ' '
    ensures FormatDate(ParseDate(s).value) == s
  {
    PaddedDateRead(s);
    FieldsWrittenBack(ParseDate(s).value, s);
  }

  /** A date whose fields are read from a zero-padded text is written as
      that text. */
  lemma FieldsWrittenBack(v: DateTime, s: string)
    requires |s| == 10 && s[4] == '/' && s[7] == '/' && DigitsAt(s, 0, 4)
    requires IsDigit(s[5]) && IsDigit(s[6]) && IsDigit(s[8]) && IsDigit(s[9])
    requires v.year == DigitsValue(s[0..4]) && v.month == Pair(s[5], s[6]) && v.day == Pair(s[8], s[9])
    ensures FormatDate(v) == s
  {
    FixedWidthOfValue(s[0..4]);
    PairWidth(s[5], s[6]);
    PairWidth(s[8], s[9]);
    DateJoin(s);
  }

  /** A ten-character text with '/' at 4 and 7 is its three fields joined. */
  lemma DateJoin(s: string)
    requires |s| == 10 && s[4] == '/' && s[7] == '/'
    ensures s == s[0..4] + "/" + [s[5], s[6]] + "/" + [s[8], s[9]]
  {
  }

  /** The fields a zero-padded date text is read from. */
  lemma PaddedDateRead(s: string)
    requires ParseDate(s).Ok? && |s| == 10 && s[8] != ' '
    ensures s[4] == '/' && s[7] == '/' && DigitsAt(s, 0, 4)
    ensures IsDigit(s[5]) && IsDigit(s[6]) && IsDigit(s[8]) && IsDigit(s[9])
    ensures var v := ParseDate(s).value;
            v.year == DigitsValue(s[0..4]) && v.month == Pair(s[5], s[6]) && v.day == Pair(s[8], s[9])
  {
    var ml := MonthLength(s, 5);
    var dl := DayLength(s, 5 + ml + 1);
    assert ml == 2 && dl == 2;
  }

  /** 5 January 2024 at midnight. */
  const Jan5: DateTime := DateTimeFields(2024, 1, 5, 0, 0, 0, 0)

  /** `strptime` also reads one-digit and space-padded months and days, which
      `strftime` never writes. */
  lemma UnpaddedDates()
    ensures ParseDate("2024/01/05") == Ok(Jan5)
    ensures ParseDate("2024/1/5") == Ok(Jan5)
    ensures ParseDate("2024/01/ 5") == Ok(Jan5)
  {
    ZeroPaddedJan5();
    OneDigitJan5();
    SpacePaddedJan5();
  }

  lemma ZeroPaddedJan5()
    ensures ParseDate("2024/01/05") == Ok(Jan5)
  {
    var y := Year2024();
    TwoDigits(1);
    TwoDigits(5);
    assert "2024/01/05"[0..4] == y;
    DateAccepted("2024/01/05", 2024, 1, 5);
  }

  lemma OneDigitJan5()
    ensures ParseDate("2024/1/5") == Ok(Jan5)
  {
    var y := Year2024();
    assert "2024/1/5"[0..4] == y;
    OneDigitFields("2024/1/5", 2024, 1, 5);
  }

  lemma SpacePaddedJan5()
    ensures ParseDate("2024/01/ 5") == Ok(Jan5)
  {
    var y := Year2024();
    TwoDigits(1);
    assert "2024/01/ 5"[0..4] == y;
    SpacePaddedDay("2024/01/ 5", 2024, 1, 5);
  }

  /** Those texts are written back zero-padded. */
  lemma UnpaddedWrittenPadded()
    ensures FormatDate(Jan5) == "2024/01/05"
  {
    var y := Year2024();
    TwoDigits(1);
    TwoDigits(5);
  }

  /** A day of 32 matches as its first digit only, and the digit left over
      raises. */
  lemma DayOverflowRaises()
    ensures ParseDate("2024/01/32") == Err(Unconverted)
  {
    var s := "2024/01/32";
    assert s[0..4] == "2024";
    var y := Year2024();
    DayCut(s);
  }

  lemma Year2024() returns (y: string)
    ensures y == "2024" && DigitsAt(y, 0, 4) && DigitsValue(y) == 2024 && FixedWidth(2024, 4) == y
  {
    y := "2024";
    assert DigitsValue("2") == 2 by { assert "2"[..0] == ""; }
    assert DigitsValue("20") == 20 by { assert "20"[..1] == "2"; }
    assert DigitsValue("202") == 202 by { assert "202"[..2] == "20"; }
    assert DigitsValue(y) == 2024 by { assert y[..3] == "202"; }
    FixedWidthOfValue(y);
  }

  /** A one-digit month and a one-digit day are read. */
  lemma OneDigitFields(s: string, y: nat, m: nat, d: nat)
    requires |s| == 8 && s[4] == '/' && s[6] == '/' && DigitsAt(s, 0, 4) && Num(s, 0, 4) == y
    requires 1 <= m <= 9 && s[5] == DigitChar(m) && 1 <= d <= 9 && s[7] == DigitChar(d)
    ensures ParseDate(s) == MakeDateTime(y, m, d, 0, 0, 0)
  {
    assert MonthLength(s, 5) == 1;
    assert DayLength(s, 7) == 1;
  }

  /** A day written as a space and one digit is read. */
  lemma SpacePaddedDay(s: string, y: nat, m: nat, d: nat)
    requires |s| == 10 && s[4] == '/' && s[7] == '/' && DigitsAt(s, 0, 4) && Num(s, 0, 4) == y
    requires 1 <= m <= 12 && s[5] == DigitChar(m / 10) && s[6] == DigitChar(m % 10) && Pair(s[5], s[6]) == m
    requires 1 <= d <= 9 && s[8] == ' ' && s[9] == DigitChar(d)
    ensures ParseDate(s) == MakeDateTime(y, m, d, 0, 0, 0)
  {
    assert MonthLength(s, 5) == 2;
    assert DayLength(s, 8) == 2;
  }

  /** A day of 32 or more matches as its first digit only, and the digit left
      over raises. */
  lemma DayCut(s: string)
    requires |s| == 10 && s[4] == '/' && s[7] == '/' && DigitsAt(s, 0, 4) && s[5] == '0' && s[6] == '1'
    requires s[8] == '3' && '2' <= s[9] <= '9'
    ensures ParseDate(s) == Err(Unconverted)
  {
    assert MonthLength(s, 5) == 2;
    assert DayLength(s, 8) == 1;
  }

  lemma FormatModifyTimeFields(d: DateTime)
    ensures var s := FormatModifyTime(d);
            && |s| == 22 && s[2] == '/' && s[5] == '/' && s[10] == ' '
            && s[13] == ':' && s[16] == ':' && s[19] == ' '
            && s[0..2] == FixedWidth(d.month, 2) && s[3..5] == FixedWidth(d.day, 2)
            && s[6..10] == FixedWidth(d.year, 4) && s[11..13] == FixedWidth(Hour12(d.hour), 2)
            && s[14..16] == FixedWidth(d.minute, 2) && s[17..19] == FixedWidth(d.second, 2)
            && s[20..] == Meridiem(d.hour)
  {
    ModifyTimeShape(FixedWidth(d.month, 2), FixedWidth(d.day, 2), FixedWidth(d.year, 4),
                    FixedWidth(Hour12(d.hour), 2), FixedWidth(d.minute, 2), FixedWidth(d.second, 2),
                    Meridiem(d.hour));
  }

  lemma ModifyTimeShape(mo: string, da: string, yr: string, hr: string, mi: string, se: string, p: string)
    requires |mo| == 2 && |da| == 2 && |yr| == 4 && |hr| == 2 && |mi| == 2 && |se| == 2 && |p| == 2
    ensures var s := mo + "/" + da + "/" + yr + " " + hr + ":" + mi + ":" + se + " " + p;
            && ModifyTimeLayout(s)
            && s[0..2] == mo && s[3..5] == da && s[6..10] == yr && s[11..13] == hr
            && s[14..16] == mi && s[17..19] == se && s[20..] == p
  {
  }

  /** Reading back a written modification time gives the same moment without
      its microseconds. */
  lemma ParseFormatModifyTime(d: DateTime)
    ensures ParseModifyTime(FormatModifyTime(d)) == Ok(WholeSeconds(d))
  {
    var s := FormatModifyTime(d);
    FormatModifyTimeFields(d);
    ClockRoundTrip(d.hour);
    FixedNum(s, 0, 2, d.month, 2);
    FixedNum(s, 3, 5, d.day, 2);
    FixedNum(s, 6, 10, d.year, 4);
    FixedNum(s, 11, 13, Hour12(d.hour), 2);
    FixedNum(s, 14, 16, d.minute, 2);
    FixedNum(s, 17, 19, d.second, 2);
    MeridiemReads(d.hour);
    ModifyTimeAccepted(s, d.month, d.day, d.year, Hour12(d.hour), d.minute, d.second, d.hour >= 12);
    MakeWhole(d);
  }

  /** A text in the layout whose fields read as in-range numbers is
      accepted, with the calendar checks still to make. */
  lemma ModifyTimeAccepted(s: string, m: nat, d: nat, y: nat, h12: nat, mi: nat, sec: nat, pm: bool)
    requires ModifyTimeLayout(s)
    requires DigitsAt(s, 0, 2) && DigitsAt(s, 3, 5) && DigitsAt(s, 6, 10)
    requires DigitsAt(s, 11, 13) && DigitsAt(s, 14, 16) && DigitsAt(s, 17, 19)
    requires Num(s, 0, 2) == m && Num(s, 3, 5) == d && Num(s, 6, 10) == y
    requires Num(s, 11, 13) == h12 && Num(s, 14, 16) == mi && Num(s, 17, 19) == sec
    requires ReadMeridiem(s[20..]) == Some(pm)
    requires 1 <= m <= 12 && 1 <= d <= 31 && 1 <= h12 <= 12 && mi <= 59 && sec <= 61
    ensures ParseModifyTime(s) == MakeDateTime(y, m, d, To24(h12, pm), mi, sec)
  {
  }

  /** The field layout both the reader and the writer of a modification
      time use. */
  predicate ModifyTimeLayout(s: string) {
    |s| == 22 && s[2] == '/' && s[5] == '/' && s[10] == ' ' && s[13] == ':' && s[16] == ':' && s[19] == ' '
  }

  lemma SameFields(s: string, t: string)
    requires ModifyTimeLayout(s) && ModifyTimeLayout(t)
    requires s[0..2] == t[0..2] && s[3..5] == t[3..5] && s[6..10] == t[6..10]
    requires s[11..13] == t[11..13] && s[14..16] == t[14..16] && s[17..19] == t[17..19]
    ensures s[..20] == t[..20]
  {
    forall i | 0 <= i < 20 ensures s[i] == t[i] {
      if i < 2 { assert s[i] == s[0..2][i]; }
      else if 3 <= i < 5 { assert s[i] == s[3..5][i - 3]; }
      else if 6 <= i < 10 { assert s[i] == s[6..10][i - 6]; }
      else if 11 <= i < 13 { assert s[i] == s[11..13][i - 11]; }
      else if 14 <= i < 16 { assert s[i] == s[14..16][i - 14]; }
      else if 17 <= i < 19 { assert s[i] == s[17..19][i - 17]; }
    }
  }

  lemma ParsedModifyTime(s: string)
    requires ParseModifyTime(s).Ok?
    ensures ModifyTimeLayout(s)
    ensures DigitsAt(s, 0, 2) && DigitsAt(s, 3, 5) && DigitsAt(s, 6, 10)
    ensures DigitsAt(s, 11, 13) && DigitsAt(s, 14, 16) && DigitsAt(s, 17, 19)
    ensures ReadMeridiem(s[20..]).Some?
    ensures var v := ParseModifyTime(s).value;
            && v.month == Num(s, 0, 2) && v.day == Num(s, 3, 5) && v.year == Num(s, 6, 10)
            && 1 <= Num(s, 11, 13) <= 12 && v.hour == To24(Num(s, 11, 13), ReadMeridiem(s[20..]).value)
            && v.minute == Num(s, 14, 16) && v.second == Num(s, 17, 19)
  {
  }

  /** Whatever the modification-time reader accepts is written back
      unchanged, except that the `%p` marker comes out in upper case. */
  lemma FormatParseModifyTime(s: string)
    requires ParseModifyTime(s).Ok?
    ensures var t := FormatModifyTime(ParseModifyTime(s).value);
            t[..20] == s[..20] && ReadMeridiem(t[20..]) == ReadMeridiem(s[20..])
  {
    var v := ParseModifyTime(s).value;
    var t := FormatModifyTime(v);
    ParsedModifyTime(s);
    FormatModifyTimeFields(v);
    ClockRoundTrip(v.hour);
    FixedWidthOfValue(s[0..2]);
    FixedWidthOfValue(s[3..5]);
    FixedWidthOfValue(s[6..10]);
    FixedWidthOfValue(s[11..13]);
    FixedWidthOfValue(s[14..16]);
    FixedWidthOfValue(s[17..19]);
    MeridiemReads(v.hour);
    SameFields(s, t);
  }

  /** The hour `%I %p` denotes. */
  function To24(h12: int, pm: bool): int {
    if pm then (if h12 == 12 then 12 else h12 + 12) else (if h12 == 12 then 0 else h12)
  }

  lemma MeridiemReads(h: int)
    ensures ReadMeridiem(Meridiem(h)) == Some(h >= 12)
  {
    assert PyText.Lower("AM") == "am" && PyText.Lower("PM") == "pm";
  }

  /** The 12-hour clock of `%I %p`: the pair written for an hour denotes that
      hour, and every pair read denotes an hour that is written back as the
      same pair (hour 0 is 12 AM, hour 12 is 12 PM). */
  lemma ClockRoundTrip(h: int)
    requires 0 <= h < 24
    ensures 1 <= Hour12(h) <= 12 && To24(Hour12(h), h >= 12) == h
    ensures h == 0 ==> Hour12(h) == 12 && Meridiem(h) == "AM"
    ensures h == 12 ==> Hour12(h) == 12 && Meridiem(h) == "PM"
    ensures forall h12: int, pm: bool {:trigger To24(h12, pm)} :: 1 <= h12 <= 12 ==>
              var h' := To24(h12, pm); 0 <= h' < 24 && Hour12(h') == h12 && (h' >= 12 <==> pm)
  {
  }
}
