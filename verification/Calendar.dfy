/** GitHub's timestamps read into Unix seconds (crates/api/src/github.rs): hand-written
    Gregorian arithmetic in `u64`, against the calendar counted day by day. */
module Calendar {
  import opened Prelude

  datatype Fields = Fields(year: nat, month: nat, day: nat, hour: nat, minute: nat, second: nat)

  const DAY: nat := 86_400

  // ── The calendar of section 5.7 of RFC 3339, counted ──

  predicate Leap(year: nat)
  {
    year % 4 == 0 && (year % 100 != 0 || year % 400 == 0)
  }

  function YearLength(year: nat): nat { if Leap(year) then 366 else 365 }

  function MonthLength(year: nat, month: nat): nat
  {
    if month == 2 then (if Leap(year) then 29 else 28)
    else if month == 4 || month == 6 || month == 9 || month == 11 then 30 else 31
  }

  /** The days of the years from `from` up to `year`. */
  function YearsFrom(from: nat, year: nat): nat
    requires from <= year
    decreases year
  {
    if year == from then 0 else YearsFrom(from, year - 1) + YearLength(year - 1)
  }

  /** The days of a year before a month. */
  function MonthsBefore(year: nat, month: nat): nat
    requires 1 <= month
  {
    if month == 1 then 0 else MonthsBefore(year, month - 1) + MonthLength(year, month - 1)
  }

  function DayNumber(year: nat, month: nat, day: nat): int
    requires 1970 <= year && 1 <= month
  {
    YearsFrom(1970, year) + MonthsBefore(year, month) + day - 1
  }

  // ── What the code computes ──

  predicate Accepted(f: Fields)
  {
    1 <= f.month <= 12 && 1 <= f.day <= 31
  }

  /** `u64` subtraction: the model's `None` is the overflow the code does not check for. */
  function Minus(a: nat, b: nat): Option<nat> { if a >= b then Some(a - b) else None }

  /** The arithmetic step by step, refusing where a subtraction would underflow. */
  function Seconds(f: Fields): Option<nat>
    requires Accepted(f)
  {
    var adjusted := if f.month <= 2 then Minus(f.year, 1) else Some(f.year);
    if adjusted.None? then None
    else
      var era := adjusted.value / 400;
      var yearOfEra := adjusted.value - era * 400;
      var dayOfYear := (153 * (if f.month > 2 then f.month - 3 else f.month + 9) + 2) / 5 + f.day - 1;
      var dayOfEra := yearOfEra * 365 + yearOfEra / 4 - yearOfEra / 100 + dayOfYear;
      var days := Minus(era * 146_097 + dayOfEra, 719_468);
      if days.None? then None
      else Some(days.value * DAY + f.hour * 3_600 + f.minute * 60 + f.second)
  }

  // ── The arithmetic is the calendar ──

  /** The days from 1 March of year 0 to 1 March of `year`. */
  function Marches(year: nat): int { 365 * year + year / 4 - year / 100 + year / 400 }

  lemma ErasAreMarches(year: nat)
    ensures var era := year / 400;
      var yearOfEra := year - era * 400;
      era * 146_097 + yearOfEra * 365 + yearOfEra / 4 - yearOfEra / 100 == Marches(year)
  {
    var era := year / 400;
    var yearOfEra := year - era * 400;
    assert year / 4 == era * 100 + yearOfEra / 4;
    assert year / 100 == era * 4 + yearOfEra / 100;
  }

  lemma NextMarch(year: nat)
    ensures Marches(year + 1) == Marches(year) + YearLength(year + 1)
  {
    Fourths(year);
    Hundredths(year);
    FourHundredths(year);
    LeapDivides(year + 1);
  }

  lemma Fourths(n: nat)
    ensures (n + 1) / 4 == n / 4 + if (n + 1) % 4 == 0 then 1 else 0
  {
  }

  lemma Hundredths(n: nat)
    ensures (n + 1) / 100 == n / 100 + if (n + 1) % 100 == 0 then 1 else 0
  {
  }

  lemma FourHundredths(n: nat)
    ensures (n + 1) / 400 == n / 400 + if (n + 1) % 400 == 0 then 1 else 0
  {
  }

  lemma LeapDivides(year: nat)
    ensures year % 400 == 0 ==> year % 100 == 0
    ensures year % 100 == 0 ==> year % 4 == 0
  {
    if year % 400 == 0 {
      assert year == 100 * (4 * (year / 400));
    }
    if year % 100 == 0 {
      assert year == 4 * (25 * (year / 100));
    }
  }

  lemma {:induction false} YearsAreMarches(year: nat)
    requires 1970 <= year
    ensures YearsFrom(1970, year) == Marches(year - 1) + 306 - 719_468
    decreases year
  {
    if year > 1970 {
      YearsAreMarches(year - 1);
      NextMarch(year - 2);
    }
  }

  /** From March on, `(153 m + 2) / 5` counts the months gone; January and February come at
      the end of the year before. */
  lemma MonthsAreMarch(year: nat, month: nat)
    requires 1 <= month <= 12
    ensures (153 * (if month > 2 then month - 3 else month + 9) + 2) / 5
         == if month > 2 then MonthsBefore(year, month) - MonthsBefore(year, 3) else MonthsBefore(year, month) + 306
    ensures MonthsBefore(year, 3) == YearLength(year) - 306
  {
    MonthsBeforeFirst(year);
    if month > 6 {
      MonthsBeforeLast(year);
    }
  }

  lemma MonthsBeforeFirst(year: nat)
    ensures MonthsBefore(year, 1) == 0 && MonthsBefore(year, 2) == 31 && MonthsBefore(year, 3) == YearLength(year) - 306
    ensures MonthsBefore(year, 4) == MonthsBefore(year, 3) + 31 && MonthsBefore(year, 5) == MonthsBefore(year, 3) + 61
    ensures MonthsBefore(year, 6) == MonthsBefore(year, 3) + 92
  {
  }

  lemma MonthsBeforeLast(year: nat)
    ensures MonthsBefore(year, 7) == MonthsBefore(year, 3) + 122 && MonthsBefore(year, 8) == MonthsBefore(year, 3) + 153
    ensures MonthsBefore(year, 9) == MonthsBefore(year, 3) + 184 && MonthsBefore(year, 10) == MonthsBefore(year, 3) + 214
    ensures MonthsBefore(year, 11) == MonthsBefore(year, 3) + 245 && MonthsBefore(year, 12) == MonthsBefore(year, 3) + 275
  {
    MonthsBeforeFirst(year);
  }

  lemma {:induction false} MarchesRise(a: nat, b: nat)
    requires a <= b
    ensures Marches(a) <= Marches(b)
    decreases b
  {
    if a < b {
      MarchesRise(a, b - 1);
      NextMarch(b - 1);
    }
  }

  /** The code's days before its last subtraction, in the calendar's terms. */
  lemma StepsAreMarches(f: Fields, adjusted: nat)
    requires Accepted(f) && adjusted == if f.month <= 2 then f.year - 1 else f.year
    ensures var era := adjusted / 400;
      var yearOfEra := adjusted - era * 400;
      var dayOfYear := (153 * (if f.month > 2 then f.month - 3 else f.month + 9) + 2) / 5 + f.day - 1;
      era * 146_097 + (yearOfEra * 365 + yearOfEra / 4 - yearOfEra / 100 + dayOfYear)
        == Marches(adjusted) + f.day - 1 + if f.month > 2 then MonthsBefore(f.year, f.month) - MonthsBefore(f.year, 3)
             else MonthsBefore(f.year, f.month) + 306
  {
    ErasAreMarches(adjusted);
    MonthsAreMarch(f.year, f.month);
  }

  lemma {:induction false} MonthsFit(year: nat, month: nat)
    requires 1 <= month <= 12
    ensures MonthsBefore(year, month) + MonthLength(year, month) <= YearLength(year)
    ensures 3 <= month ==> MonthsBefore(year, 3) <= MonthsBefore(year, month) <= MonthsBefore(year, 3) + 275
    ensures month <= 2 ==> MonthsBefore(year, month) <= 31
  {
    MonthsBeforeFirst(year);
    if month > 6 { MonthsBeforeLast(year); }
  }

  /** The days the code is about to subtract from: at least the epoch's exactly from 1970. */
  lemma MarchesReachTheEpoch(f: Fields, adjusted: nat)
    requires Accepted(f) && adjusted == if f.month <= 2 then f.year - 1 else f.year
    ensures var days := Marches(adjusted) + f.day - 1 +
        if f.month > 2 then MonthsBefore(f.year, f.month) - MonthsBefore(f.year, 3) else MonthsBefore(f.year, f.month) + 306;
      if f.year >= 1970 then days - 719_468 == DayNumber(f.year, f.month, f.day) else days < 719_468
  {
    hide Marches, MonthsBefore, YearsFrom, MonthLength, YearLength;
    MonthsFit(f.year, f.month);
    MarchOf1969();
    if f.year >= 1970 {
      YearsAreMarches(f.year);
      if f.month > 2 {
        NextMarch(f.year - 1);
        MonthsAreMarch(f.year, f.month);
      }
    } else {
      MarchesRise(adjusted, if f.month <= 2 then 1968 else 1969);
    }
  }

  /** For every accepted field, of any year: the arithmetic underflows exactly before 1970,
      and from then on counts the days since 1 January 1970 by year and month lengths. A day
      past its month's end counts on into the next. */
  lemma SecondsCountTheCalendar(f: Fields)
    requires Accepted(f)
    ensures Seconds(f).Some? <==> f.year >= 1970
    ensures f.year >= 1970 ==>
      Seconds(f) == Some(DayNumber(f.year, f.month, f.day) * DAY + f.hour * 3_600 + f.minute * 60 + f.second)
  {
    hide Marches, MonthsBefore, DayNumber;
    if f.month > 2 || f.year > 0 {
      var adjusted := if f.month <= 2 then f.year - 1 else f.year;
      StepsAreMarches(f, adjusted);
      MarchesReachTheEpoch(f, adjusted);
    }
  }

  lemma MarchOf1969()
    ensures Marches(1969) == 719_468 - 306 && Marches(1968) == 719_468 - 306 - 365
  {
  }

  // ── Order ──

  /** The fields sections 5.6 and 5.7 allow, a leap second among them. */
  predicate Valid(f: Fields)
  {
    && 1970 <= f.year && 1 <= f.month <= 12 && 1 <= f.day <= MonthLength(f.year, f.month)
    && f.hour <= 23 && f.minute <= 59 && f.second <= 60
  }

  predicate DateBefore(f: Fields, g: Fields)
  {
    f.year < g.year || (f.year == g.year && (f.month < g.month || (f.month == g.month && f.day < g.day)))
  }

  predicate SameDate(f: Fields, g: Fields)
  {
    f.year == g.year && f.month == g.month && f.day == g.day
  }

  predicate Before(f: Fields, g: Fields)
  {
    || DateBefore(f, g)
    || (SameDate(f, g)
        && (f.hour < g.hour || (f.hour == g.hour && (f.minute < g.minute || (f.minute == g.minute && f.second < g.second)))))
  }

  lemma {:induction false} YearsRise(a: nat, b: nat)
    requires 1970 <= a < b
    ensures YearsFrom(1970, a) + YearLength(a) <= YearsFrom(1970, b)
    decreases b
  {
    if a < b - 1 {
      YearsRise(a, b - 1);
    }
  }

  lemma {:induction false} MonthsRise(year: nat, a: nat, b: nat)
    requires 1 <= a < b
    ensures MonthsBefore(year, a) + MonthLength(year, a) <= MonthsBefore(year, b)
    decreases b
  {
    if a < b - 1 {
      MonthsRise(year, a, b - 1);
    }
  }

  lemma DaysRise(f: Fields, g: Fields)
    requires Valid(f) && Valid(g) && DateBefore(f, g)
    ensures DayNumber(f.year, f.month, f.day) < DayNumber(g.year, g.month, g.day)
  {
    MonthsFit(f.year, f.month);
    if f.year < g.year {
      YearsRise(f.year, g.year);
    } else if f.month < g.month {
      MonthsRise(f.year, f.month, g.month);
    }
  }

  /** Later fields mean later seconds; only a leap second ties, with the start of the minute
      after it. */
  lemma SecondsRise(f: Fields, g: Fields)
    requires Valid(f) && Valid(g) && Before(f, g)
    ensures Seconds(f).Some? && Seconds(g).Some? && Seconds(f).value <= Seconds(g).value
    ensures Seconds(f) == Seconds(g) ==> f.second == 60 && g.second == 0
  {
    hide Seconds, YearsFrom, MonthsBefore;
    assert MonthLength(f.year, f.month) <= 31 && MonthLength(g.year, g.month) <= 31;
    SecondsCountTheCalendar(f);
    SecondsCountTheCalendar(g);
    var a, b := DayNumber(f.year, f.month, f.day), DayNumber(g.year, g.month, g.day);
    if DateBefore(f, g) {
      DaysRise(f, g);
      assert (a + 1) * DAY <= b * DAY;
    }
  }

  // ── Bytes ──

  datatype Parsed = NoTimestamp | Overflows | Timestamp(seconds: nat)

  const PLUS: byte := 43
  const DASH: byte := 45
  const ZERO: byte := 48
  const NINE: byte := 57
  const COLON: byte := 58
  const LETTER_T: byte := 84
  const LETTER_Z: byte := 90

  predicate IsDigit(b: byte) { ZERO <= b <= NINE }

  function Digits(bytes: seq<byte>): Option<nat>
  {
    if bytes == [] then Some(0)
    else
      var last := bytes[|bytes| - 1];
      var init := Digits(bytes[..|bytes| - 1]);
      if init.None? || !IsDigit(last) then None else Some(init.value * 10 + (last - ZERO))
  }

  /** `u64::from_str`, which takes one leading plus; no four digits overflow it. */
  function Number(bytes: seq<byte>): Option<nat>
  {
    if bytes == [] then None
    else if bytes[0] == PLUS && |bytes| > 1 then Digits(bytes[1..])
    else Digits(bytes)
  }

  /** `str::get` refuses a range that splits a character. */
  function Num(bytes: seq<byte>, from: nat, to: nat): Option<nat>
    requires from <= to < |bytes|
  {
    if 0x80 <= bytes[from] < 0xC0 || 0x80 <= bytes[to] < 0xC0 then None else Number(bytes[from..to])
  }

  /** `parse_rfc3339_seconds`. */
  function Parse(bytes: seq<byte>): Parsed
  {
    if |bytes| != 20 || bytes[19] != LETTER_Z then NoTimestamp
    else
      var year, month, day := Num(bytes, 0, 4), Num(bytes, 5, 7), Num(bytes, 8, 10);
      var hour, minute, second := Num(bytes, 11, 13), Num(bytes, 14, 16), Num(bytes, 17, 19);
      if year.None? || month.None? || day.None? || hour.None? || minute.None? || second.None? then NoTimestamp
      else
        var f := Fields(year.value, month.value, day.value, hour.value, minute.value, second.value);
        if !Accepted(f) then NoTimestamp
        else match Seconds(f)
          case None => Overflows
          case Some(seconds) => Timestamp(seconds)
  }

  function Two(n: nat): seq<byte>
    requires n <= 99
  {
    [ZERO + n / 10, ZERO + n % 10]
  }

  function Written(f: Fields): seq<byte>
    requires f.year <= 9999 && f.month <= 99 && f.day <= 99 && f.hour <= 99 && f.minute <= 99 && f.second <= 99
  {
    Two(f.year / 100) + Two(f.year % 100) + [DASH] + Two(f.month) + [DASH] + Two(f.day) + [LETTER_T]
      + Two(f.hour) + [COLON] + Two(f.minute) + [COLON] + Two(f.second) + [LETTER_Z]
  }

  lemma TwoReads(n: nat)
    requires n <= 99
    ensures Number(Two(n)) == Some(n)
  {
    var two := Two(n);
    assert two[..1] == [ZERO + n / 10];
    assert two[..1][..0] == [];
    assert Digits(two[..1]) == Some(n / 10);
  }

  lemma FourRead(n: nat)
    requires n <= 9999
    ensures Number(Two(n / 100) + Two(n % 100)) == Some(n)
  {
    var high, low := Two(n / 100), Two(n % 100);
    TwoReads(n / 100);
    assert (high + low)[..3] == high + low[..1];
    assert (high + low[..1])[..2] == high;
    assert Digits(high + low[..1]) == Some(n / 100 * 10 + n % 100 / 10);
  }

  lemma TwoAt(bytes: seq<byte>, i: nat, n: nat)
    requires n <= 99 && i + 2 <= |bytes| && bytes[i] == Two(n)[0] && bytes[i + 1] == Two(n)[1]
    ensures Number(bytes[i..i + 2]) == Some(n)
  {
    hide Number;
    TwoReads(n);
    assert bytes[i..i + 2] == Two(n);
  }

  /** What a valid timestamp is written as reads back as the calendar's count. */
  lemma WrittenReadsBack(f: Fields)
    requires Valid(f) && f.year <= 9999
    ensures Parse(Written(f)) ==
      Timestamp(DayNumber(f.year, f.month, f.day) * DAY + f.hour * 3_600 + f.minute * 60 + f.second)
  {
    hide Number, Digits, Seconds, DayNumber;
    var bytes := Written(f);
    FourRead(f.year);
    assert bytes[0..4] == Two(f.year / 100) + Two(f.year % 100);
    TwoAt(bytes, 5, f.month);
    TwoAt(bytes, 8, f.day);
    TwoAt(bytes, 11, f.hour);
    TwoAt(bytes, 14, f.minute);
    TwoAt(bytes, 17, f.second);
    SecondsCountTheCalendar(f);
  }
}
