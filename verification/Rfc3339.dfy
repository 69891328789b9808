/** Decimal numerals. */
module Decimal {
  import opened Wrappers

  const UINT64 := 0x1_0000_0000_0000_0000

  predicate IsDigit(c: char) { '0' <= c <= '9' }

  predicate AllDigits(s: string) { forall i | 0 <= i < |s| :: IsDigit(s[i]) }

  function Digit(n: nat): (c: char)
    requires n < 10
    ensures IsDigit(c) && c as int - '0' as int == n
  {
    '0' + n as char
  }

  /** The numeral of `n` without leading zeros. */
  function Digits(n: nat): (s: string)
    ensures s != "" && AllDigits(s)
  {
    if n < 10 then [Digit(n)] else Digits(n / 10) + [Digit(n % 10)]
  }

  /** The last `width` digits of `n`, with zeros in front where there are fewer. */
  function Fixed(n: nat, width: nat): (s: string)
    ensures |s| == width && AllDigits(s)
  {
    if width == 0 then "" else Fixed(n / 10, width - 1) + [Digit(n % 10)]
  }

  function Value(s: string): nat
    requires AllDigits(s)
  {
    if s == "" then 0
    else
      var n := |s| - 1;
      10 * Value(s[..n]) + (s[n] as int - '0' as int)
  }

  function Pow10(k: nat): (p: nat)
    ensures p > 0
  {
    if k == 0 then 1 else 10 * Pow10(k - 1)
  }

  lemma {:induction false} ValueOfDigits(n: nat)
    ensures Value(Digits(n)) == n
    decreases n
  {
    if n >= 10 {
      ValueOfDigits(n / 10);
      var s := Digits(n);
      assert s[..|s| - 1] == Digits(n / 10);
    } else {
      assert Digits(n)[..0] == "";
    }
  }

  lemma {:induction false} ValueOfFixed(n: nat, width: nat)
    requires n < Pow10(width)
    ensures Value(Fixed(n, width)) == n
    decreases width
  {
    if width > 0 {
      ValueOfFixed(n / 10, width - 1);
      var s := Fixed(n, width);
      assert s[..|s| - 1] == Fixed(n / 10, width - 1);
    }
  }

  /** Without the zeros at the end. */
  function NoZeros(s: string): (r: string)
    requires AllDigits(s)
    ensures r <= s && AllDigits(r) && (r != "" ==> r[|r| - 1] != '0')
  {
    if s != "" && s[|s| - 1] == '0' then NoZeros(s[..|s| - 1]) else s
  }

  lemma TenTimes(v: nat, p: nat)
    ensures v * (10 * p) == 10 * (v * p)
  {}

  lemma {:induction false} ValueOfNoZeros(s: string)
    requires AllDigits(s)
    ensures Value(NoZeros(s)) * Pow10(|s| - |NoZeros(s)|) == Value(s)
    ensures NoZeros(s) == "" <==> Value(s) == 0
    decreases |s|
  {
    if s != "" && s[|s| - 1] == '0' {
      var t := s[..|s| - 1];
      ValueOfNoZeros(t);
      var v, p := Value(NoZeros(t)), Pow10(|t| - |NoZeros(t)|);
      TenTimes(v, p);
      assert Pow10(|s| - |NoZeros(s)|) == 10 * p;
    } else if s != "" {
      assert Value(s) > 0;
    }
  }

  /** strconv.ParseUint(s, 10, 64). */
  function ParseUint(s: string): Option<nat> {
    if s != "" && AllDigits(s) && Value(s) < UINT64 then Some(Value(s)) else None
  }

  lemma {:induction false} DigitsGrow(n: nat, k: nat)
    requires n >= Pow10(k)
    ensures |Digits(n)| > k
    decreases k
  {
    if k > 0 { DigitsGrow(n / 10, k - 1); }
  }
}

/** The proleptic Gregorian calendar of Go's time package. Day 0 is the first day of year 0. */
module Calendar {
  predicate Leap(y: int) { y % 4 == 0 && (y % 100 != 0 || y % 400 == 0) }

  /** Days from day 0 to the first day of year `y`. */
  function YearStart(y: int): int { 365 * y + (y + 3) / 4 - (y + 99) / 100 + (y + 399) / 400 }

  function DaysIn(y: int, month: int): int {
    if month in {4, 6, 9, 11} then 30 else if month == 2 then (if Leap(y) then 29 else 28) else 31
  }

  /** Days from the first day of year `y` to the first day of its month. */
  function MonthStart(y: int, month: int): (d: int)
    requires 1 <= month <= 13
    ensures d >= 0
    decreases month
  {
    if month == 1 then 0 else MonthStart(y, month - 1) + DaysIn(y, month - 1)
  }

  lemma FourthYears(y: int)
    ensures (y + 4) / 4 - (y + 3) / 4 == if y % 4 == 0 then 1 else 0
  {}

  lemma Centuries(y: int)
    ensures (y + 100) / 100 - (y + 99) / 100 == if y % 100 == 0 then 1 else 0
  {}

  lemma Cycles(y: int)
    ensures (y + 400) / 400 - (y + 399) / 400 == if y % 400 == 0 then 1 else 0
  {}

  lemma Multiples(y: int)
    ensures (y % 400 == 0 ==> y % 100 == 0) && (y % 100 == 0 ==> y % 4 == 0)
  {}

  lemma YearDays(y: int)
    ensures YearStart(y + 1) - YearStart(y) == if Leap(y) then 366 else 365
  {
    FourthYears(y);
    Centuries(y);
    Cycles(y);
    Multiples(y);
  }

  lemma YearLength(y: int)
    ensures YearStart(y + 1) - YearStart(y) == if Leap(y) then 366 else 365
    ensures MonthStart(y, 13) == YearStart(y + 1) - YearStart(y)
  {
    YearDays(y);
    MonthsAdd(y);
  }

  lemma MonthsAdd(y: int)
    ensures MonthStart(y, 13) == if Leap(y) then 366 else 365
  {
    var feb := DaysIn(y, 2);
    assert MonthStart(y, 2) == 31;
    assert MonthStart(y, 3) == 31 + feb;
    assert MonthStart(y, 5) == 92 + feb;
    assert MonthStart(y, 8) == 184 + feb;
    assert MonthStart(y, 13) == 337 + feb;
  }

  predicate ValidDate(y: int, month: int, day: int) { 1 <= month <= 12 && 1 <= day <= DaysIn(y, month) }

  function DayNumber(y: int, month: int, day: int): int
    requires 1 <= month <= 12
  {
    YearStart(y) + MonthStart(y, month) + day - 1
  }

  /** The year that day `d` falls in, searched from year `y`. */
  function YearFrom(y: int, d: int): (r: int)
    requires YearStart(y) <= d
    ensures YearStart(r) <= d < YearStart(r + 1)
    decreases d - YearStart(y)
  {
    YearLength(y);
    if d < YearStart(y + 1) then y else YearFrom(y + 1, d)
  }

  /** The search starts at the 400-year cycle the day falls in. */
  function YearOf(d: int): (y: int)
    ensures YearStart(y) <= d < YearStart(y + 1)
  {
    YearFrom(400 * (d / 146097), d)
  }

  function MonthFrom(y: int, month: int, d: int): (r: int)
    requires 1 <= month <= 12 && MonthStart(y, month) <= d < MonthStart(y, 13)
    ensures 1 <= r <= 12 && MonthStart(y, r) <= d < MonthStart(y, r + 1)
    decreases 12 - month
  {
    if d < MonthStart(y, month + 1) then month else MonthFrom(y, month + 1, d)
  }

  datatype Date = Date(year: int, month: int, day: int)

  function DateOf(d: int): (r: Date)
    ensures ValidDate(r.year, r.month, r.day) && DayNumber(r.year, r.month, r.day) == d
  {
    var y := YearOf(d);
    YearLength(y);
    var m := MonthFrom(y, 1, d - YearStart(y));
    Date(y, m, d - YearStart(y) - MonthStart(y, m) + 1)
  }

  lemma {:induction false} YearsGrow(y: int, z: int)
    requires y <= z
    ensures YearStart(y) <= YearStart(z)
    decreases z - y
  {
    if y < z {
      YearLength(z - 1);
      YearsGrow(y, z - 1);
    }
  }

  lemma {:induction false} MonthsGrow(y: int, m: int, n: int)
    requires 1 <= m <= n <= 13
    ensures MonthStart(y, m) <= MonthStart(y, n)
    decreases n - m
  {
    if m < n { MonthsGrow(y, m, n - 1); }
  }

  lemma DayInYear(y: int, month: int, day: int)
    requires ValidDate(y, month, day)
    ensures YearStart(y) <= DayNumber(y, month, day) < YearStart(y + 1)
  {
    YearLength(y);
    MonthsGrow(y, month + 1, 13);
  }

  lemma YearIsUnique(y: int, z: int, d: int)
    requires YearStart(y) <= d < YearStart(y + 1) && YearStart(z) <= d < YearStart(z + 1)
    ensures y == z
  {
    if y < z { YearsGrow(y + 1, z); }
    if z < y { YearsGrow(z + 1, y); }
  }

  lemma MonthIsUnique(y: int, m: int, n: int, d: int)
    requires 1 <= m <= 12 && MonthStart(y, m) <= d < MonthStart(y, m + 1)
    requires 1 <= n <= 12 && MonthStart(y, n) <= d < MonthStart(y, n + 1)
    ensures m == n
  {
    if m < n { MonthsGrow(y, m + 1, n); }
    if n < m { MonthsGrow(y, n + 1, m); }
  }

  /** Every valid date is the date of its day. */
  lemma DateOfDayNumber(y: int, month: int, day: int)
    requires ValidDate(y, month, day)
    ensures DateOf(DayNumber(y, month, day)) == Date(y, month, day)
  {
    var d := DayNumber(y, month, day);
    var r := DateOf(d);
    DayInYear(y, month, day);
    DayInYear(r.year, r.month, r.day);
    YearIsUnique(y, r.year, d);
    MonthIsUnique(y, month, r.month, d - YearStart(y));
  }

  lemma MonthEnds(y: int, month: int)
    requires 1 <= month <= 12
    ensures MonthStart(y, month + 1) == MonthStart(y, month) + DaysIn(y, month)
  {}

  lemma AfterMonth(y: int, month: int)
    requires 1 <= month < 12
    ensures DayNumber(y, month, DaysIn(y, month)) + 1 == DayNumber(y, month + 1, 1)
  {
    MonthEnds(y, month);
  }

  lemma AfterYear(y: int)
    ensures DayNumber(y, 12, 31) + 1 == DayNumber(y + 1, 1, 1)
  {
    YearLength(y);
    MonthEnds(y, 12);
    assert MonthStart(y + 1, 1) == 0;
  }

  /** How long the months are: February has 29 days in every fourth year, but only in one of four centuries. */
  lemma MonthLengths(y: int, month: int)
    requires 1 <= month <= 12
    ensures DaysIn(y, month) == if month == 2 then (if y % 400 == 0 || (y % 4 == 0 && y % 100 != 0) then 29 else 28)
                                else if month == 4 || month == 6 || month == 9 || month == 11 then 30 else 31
  {
    Multiples(y);
  }

  /** Day by day: within a month, ... */
  lemma NextInMonth(y: int, month: int, day: int)
    requires ValidDate(y, month, day) && day < DaysIn(y, month)
    ensures DateOf(DayNumber(y, month, day) + 1) == Date(y, month, day + 1)
  {
    DateOfDayNumber(y, month, day + 1);
  }

  /** ... from its last day to the next month, ... */
  lemma NextMonth(y: int, month: int)
    requires 1 <= month < 12
    ensures DateOf(DayNumber(y, month, DaysIn(y, month)) + 1) == Date(y, month + 1, 1)
  {
    AfterMonth(y, month);
    DateOfDayNumber(y, month + 1, 1);
  }

  /** ... and from the last day of December to the next year. */
  lemma NextYear(y: int)
    ensures DateOf(DayNumber(y, 12, 31) + 1) == Date(y + 1, 1, 1)
  {
    AfterYear(y);
    DateOfDayNumber(y + 1, 1, 1);
  }

  /** Where the count starts: day 719528 is the first of January 1970. */
  lemma FirstOf1970()
    ensures DateOf(719_528) == Date(1970, 1, 1)
  {
    DateOfDayNumber(1970, 1, 1);
  }
}

/** Go's RFC 3339 format with nanoseconds. An instant is a number of nanoseconds since the beginning of year 0. */
module Rfc3339 {
  import opened Wrappers
  import opened Decimal
  import opened Calendar

  const SECOND := 1_000_000_000
  const DAY := 86400 * SECOND

  /** The year with at least four digits, as Go prints it. */
  function YearDigits(y: int): string {
    if 0 <= y < 10000 then Fixed(y, 4)
    else if y >= 10000 then Digits(y)
    else "-" + if -y < 10000 then Fixed(-y, 4) else Digits(-y)
  }

  function Fraction(nanos: nat): string {
    if NoZeros(Fixed(nanos, 9)) == "" then "" else "." + NoZeros(Fixed(nanos, 9))
  }

  /** "-01-02" */
  function MonthDay(date: Date): (s: string)
    requires 1 <= date.month <= 12 && 1 <= date.day <= 31
    ensures |s| == 6
  {
    "-" + Fixed(date.month, 2) + "-" + Fixed(date.day, 2)
  }

  /** "15:04:05" */
  function Clock(seconds: nat): (s: string)
    ensures |s| == 8
  {
    Fixed(seconds / 3600, 2) + ":" + Fixed(seconds / 60 % 60, 2) + ":" + Fixed(seconds % 60, 2)
  }

  function DateAt(t: int): (d: Date)
    ensures ValidDate(d.year, d.month, d.day) && DayNumber(d.year, d.month, d.day) == t / DAY
  {
    DateOf(t / DAY)
  }

  /** Seconds since midnight. */
  function SecondsAt(t: int): (n: nat)
    ensures n < 86400
  {
    t % DAY / SECOND
  }

  function NanosAt(t: int): (n: nat)
    ensures n < SECOND
  {
    t % DAY % SECOND
  }

  function Instant(date: Date, seconds: nat, nanos: nat): int
    requires 1 <= date.month <= 12
  {
    DAY * DayNumber(date.year, date.month, date.day) + (SECOND * seconds + nanos)
  }

  lemma Divided(t: int, d: nat)
    requires d > 0
    ensures d * (t / d) + t % d == t
  {}

  lemma InstantIs(t: int)
    ensures Instant(DateAt(t), SecondsAt(t), NanosAt(t)) == t
  {
    Divided(t, DAY);
    Divided(t % DAY, SECOND);
  }

  /** t.UTC().Format(time.RFC3339Nano). */
  function Format(t: int): string {
    YearDigits(DateAt(t).year) + MonthDay(DateAt(t)) + "T" + Clock(SecondsAt(t)) + Fraction(NanosAt(t)) + "Z"
  }

  lemma {:induction false} NoZerosTimesTen(n: nat, width: nat)
    ensures NoZeros(Fixed(10 * n, width + 1)) == NoZeros(Fixed(n, width))
  {
    var s := Fixed(10 * n, width + 1);
    assert s == Fixed(n, width) + ['0'];
    assert s[..|s| - 1] == Fixed(n, width);
  }

  lemma HalfASecond()
    ensures Fraction(500_000_000) == ".5"
  {
    NoZerosTimesTen(5, 1);
    NoZerosTimesTen(50, 2);
    NoZerosTimesTen(500, 3);
    NoZerosTimesTen(5000, 4);
    NoZerosTimesTen(50_000, 5);
    NoZerosTimesTen(500_000, 6);
    NoZerosTimesTen(5_000_000, 7);
    NoZerosTimesTen(50_000_000, 8);
    assert NoZeros(Fixed(5, 1)) == "5";
  }

  lemma BelowTen(n: nat)
    requires n < 10
    ensures Fixed(n, 2) == ['0', Digit(n)]
  {
    assert n / 10 == 0 && n % 10 == n;
    assert Fixed(0, 1) == ['0'];
  }

  lemma Year2026()
    ensures Fixed(2026, 4) == "2026"
  {
    assert Fixed(2, 1) == "2" && Fixed(20, 2) == "20" && Fixed(202, 3) == "202";
  }

  /** The second day of 2026, at four minutes past three. */
  const MOMENT: int := DAY * 739_983 + (SECOND * 11_045 + 500_000_000)

  lemma MomentIs()
    ensures DateAt(MOMENT) == Date(2026, 1, 2) && SecondsAt(MOMENT) == 11_045 && NanosAt(MOMENT) == 500_000_000
  {
    SecondOfJanuary();
    InstantIs(MOMENT);
    InstantIsInjective(DateAt(MOMENT), SecondsAt(MOMENT), NanosAt(MOMENT), Date(2026, 1, 2), 11_045, 500_000_000);
  }

  lemma SecondOfJanuary()
    ensures Instant(Date(2026, 1, 2), 11_045, 500_000_000) == MOMENT
  {
    assert DayNumber(2026, 1, 2) == 739_983;
  }

  lemma ClockOfMoment()
    ensures Clock(11_045) == "03:04:05"
  {
    BelowTen(3);
    BelowTen(4);
    BelowTen(5);
  }

  lemma DayOfMoment()
    ensures MonthDay(Date(2026, 1, 2)) == "-01-02"
  {
    BelowTen(1);
    BelowTen(2);
  }

  lemma Assembled()
    ensures "2026" + "-01-02" + "T" + "03:04:05" + ".5" + "Z" == "2026-01-02T03:04:05.5Z"
  {}

  /** The text looks as Go's layout 2006-01-02T15:04:05.999999999Z07:00 makes it. */
  lemma FormatExample()
    ensures Format(MOMENT) == "2026-01-02T03:04:05.5Z"
  {
    MomentIs();
    Year2026();
    DayOfMoment();
    ClockOfMoment();
    HalfASecond();
    Assembled();
  }

  /** Numerals are decimal. */
  lemma NumeralExample()
    ensures Digits(10) == "10" && ParseUint("10") == Some(10)
  {
    ValueOfDigits(10);
    assert Digits(1) == "1" && Digits(10) == Digits(1) + [Digit(0)];
  }

  // ---------- parsing ----------

  /** The number that the `width` characters at `i` spell, if it lies between the bounds. */
  function Field(s: string, i: nat, width: nat, low: nat, high: nat): Option<nat> {
    if i + width <= |s| && AllDigits(s[i..i + width]) && low <= Value(s[i..i + width]) <= high
    then Some(Value(s[i..i + width])) else None
  }

  predicate CharAt(s: string, i: nat, c: char) { i < |s| && s[i] == c }

  /** How many digits `s` starts with. */
  function Leading(s: string): (k: nat)
    ensures k <= |s| && AllDigits(s[..k]) && (k < |s| ==> !IsDigit(s[k]))
  {
    if s == "" || !IsDigit(s[0]) then 0
    else
      var k := Leading(s[1..]);
      assert s[..k + 1] == [s[0]] + s[1..][..k];
      k + 1
  }

  /** A fraction of up to nine digits, in nanoseconds; further digits do not count. */
  function Nanos(digits: string): nat
    requires AllDigits(digits)
  {
    if |digits| <= 9 then Value(digits) * Pow10(9 - |digits|) else Value(digits[..9])
  }

  /** "Z" or an offset such as "+08:00", in seconds east of UTC. */
  function Offset(s: string): Option<int> {
    if s == "Z" then Some(0)
    else
      var h, m := Field(s, 1, 2, 0, 24), Field(s, 4, 2, 0, 60);
      if |s| == 6 && s[0] in "+-" && s[3] == ':' && h.Some? && m.Some? then
        var seconds := 3600 * h.value + 60 * m.value;
        Some(if s[0] == '-' then -seconds else seconds)
      else None
  }

  /** What follows the seconds: a fraction, if any, and the offset. */
  function Tail(s: string): Option<(nat, int)> {
    var k := if CharAt(s, 0, '.') then Leading(s[1..]) else 0;
    if k == 0 then (if Offset(s).Some? then Some((0, Offset(s).value)) else None)
    else
      var offset := Offset(s[k + 1..]);
      if offset.Some? then Some((Nanos(s[1..][..k]), offset.value)) else None
  }

  /** time.Parse(time.RFC3339Nano, s), as an instant. */
  function Parse(s: string): Option<int> {
    var year, month := Field(s, 0, 4, 0, 9999), Field(s, 5, 2, 1, 12);
    var hour, minute, second := Field(s, 11, 2, 0, 23), Field(s, 14, 2, 0, 59), Field(s, 17, 2, 0, 59);
    if year.None? || month.None? || hour.None? || minute.None? || second.None? then None
    else
      var day := Field(s, 8, 2, 1, DaysIn(year.value, month.value));
      if day.None? || |s| < 19 || !Punctuated(s) || Tail(s[19..]).None? then None
      else
        var seconds := 3600 * hour.value + 60 * minute.value + second.value;
        var (nanos, east) := Tail(s[19..]).value;
        Some(Instant(Date(year.value, month.value, day.value), seconds, nanos) - SECOND * east)
  }

  predicate Punctuated(s: string) {
    CharAt(s, 4, '-') && CharAt(s, 7, '-') && CharAt(s, 10, 'T') && CharAt(s, 13, ':') && CharAt(s, 16, ':')
  }

  // ---------- parsing what was formatted ----------

  lemma FieldReads(s: string, i: nat, n: nat, width: nat, low: nat, high: nat)
    requires i + width <= |s| && s[i..i + width] == Fixed(n, width) && n < Pow10(width) && low <= n <= high
    ensures Field(s, i, width, low, high) == Some(n)
  {
    ValueOfFixed(n, width);
  }

  /** Where the fields of a formatted instant are. */
  predicate LaidOut(s: string, date: Date, h: nat, n: nat, c: nat, tail: string)
    requires 0 <= date.year && 0 <= date.month && 0 <= date.day
  {
    && |s| >= 19 && Punctuated(s)
    && s[0..4] == Fixed(date.year, 4) && s[5..7] == Fixed(date.month, 2) && s[8..10] == Fixed(date.day, 2)
    && s[11..13] == Fixed(h, 2) && s[14..16] == Fixed(n, 2) && s[17..19] == Fixed(c, 2) && s[19..] == tail
  }

  lemma Layout(y: string, m: string, d: string, h: string, n: string, c: string, tail: string)
    requires |y| == 4 && |m| == 2 && |d| == 2 && |h| == 2 && |n| == 2 && |c| == 2
    ensures var s := y + ("-" + m + "-" + d) + "T" + (h + ":" + n + ":" + c) + tail;
      && |s| >= 19 && Punctuated(s) && s[0..4] == y && s[5..7] == m && s[8..10] == d && s[11..13] == h && s[14..16] == n
      && s[17..19] == c && s[19..] == tail
  {}

  lemma {:induction false} LeadingIs(digits: string, rest: string)
    requires AllDigits(digits) && (rest != "" ==> !IsDigit(rest[0]))
    ensures Leading(digits + rest) == |digits|
    decreases |digits|
  {
    if digits == "" {
      assert digits + rest == rest;
    } else {
      assert (digits + rest)[1..] == digits[1..] + rest;
      LeadingIs(digits[1..], rest);
    }
  }

  lemma FractionReads(digits: string)
    requires AllDigits(digits) && digits != ""
    ensures Tail("." + digits + "Z") == Some((Nanos(digits), 0))
  {
    var s := "." + digits + "Z";
    assert s[1..] == digits + "Z";
    LeadingIs(digits, "Z");
    assert s[|digits| + 1..] == "Z" && s[1..][..|digits|] == digits;
  }

  lemma NanosOfFraction(nanos: nat)
    requires nanos < SECOND
    ensures Nanos(NoZeros(Fixed(nanos, 9))) == nanos
    ensures NoZeros(Fixed(nanos, 9)) == "" <==> nanos == 0
  {
    PowersOfTen();
    ValueOfFixed(nanos, 9);
    ValueOfNoZeros(Fixed(nanos, 9));
  }

  lemma TailReads(nanos: nat)
    requires nanos < SECOND
    ensures Tail(Fraction(nanos) + "Z") == Some((nanos, 0))
  {
    var digits := NoZeros(Fixed(nanos, 9));
    NanosOfFraction(nanos);
    if digits == "" {
      assert Fraction(nanos) + "Z" == "Z";
    } else {
      FractionReads(digits);
    }
  }

  lemma PowersOfTen()
    ensures Pow10(2) == 100 && Pow10(4) == 10000 && Pow10(9) == SECOND
  {
    assert Pow10(1) == 10;
    assert Pow10(3) == 1000;
    assert Pow10(5) == 100000;
    assert Pow10(7) == 10000000;
  }

  lemma FieldsRead(s: string, date: Date, h: nat, n: nat, c: nat, tail: string)
    requires 0 <= date.year < 10000 && ValidDate(date.year, date.month, date.day) && h < 24 && n < 60 && c < 60
    requires LaidOut(s, date, h, n, c, tail)
    ensures Field(s, 0, 4, 0, 9999) == Some(date.year) && Field(s, 5, 2, 1, 12) == Some(date.month)
    ensures Field(s, 8, 2, 1, DaysIn(date.year, date.month)) == Some(date.day)
    ensures Field(s, 11, 2, 0, 23) == Some(h) && Field(s, 14, 2, 0, 59) == Some(n) && Field(s, 17, 2, 0, 59) == Some(c)
  {
    PowersOfTen();
    FieldReads(s, 0, date.year, 4, 0, 9999);
    FieldReads(s, 5, date.month, 2, 1, 12);
    FieldReads(s, 8, date.day, 2, 1, DaysIn(date.year, date.month));
    FieldReads(s, 11, h, 2, 0, 23);
    FieldReads(s, 14, n, 2, 0, 59);
    FieldReads(s, 17, c, 2, 0, 59);
  }

  lemma ParseFields(s: string, date: Date, h: nat, n: nat, c: nat, nanos: nat)
    requires |s| >= 19 && Punctuated(s) && Tail(s[19..]) == Some((nanos, 0))
    requires 0 <= date.year && 1 <= date.month <= 12
    requires Field(s, 0, 4, 0, 9999) == Some(date.year) && Field(s, 5, 2, 1, 12) == Some(date.month)
    requires Field(s, 8, 2, 1, DaysIn(date.year, date.month)) == Some(date.day)
    requires Field(s, 11, 2, 0, 23) == Some(h) && Field(s, 14, 2, 0, 59) == Some(n) && Field(s, 17, 2, 0, 59) == Some(c)
    ensures Parse(s) == Some(Instant(date, 3600 * h + 60 * n + c, nanos))
  {}

  lemma ClockFields(seconds: nat)
    requires seconds < 86400
    ensures seconds / 3600 < 24 && 3600 * (seconds / 3600) + 60 * (seconds / 60 % 60) + seconds % 60 == seconds
  {}

  /** The text shows this date and time of day. */
  predicate Shows(s: string, date: Date, seconds: nat, nanos: nat)
    requires 0 <= date.year && 0 <= date.month && 0 <= date.day
  {
    LaidOut(s, date, seconds / 3600, seconds / 60 % 60, seconds % 60, Fraction(nanos) + "Z")
  }

  lemma ParseShown(s: string, date: Date, seconds: nat, nanos: nat)
    requires 0 <= date.year < 10000 && ValidDate(date.year, date.month, date.day) && seconds < 86400 && nanos < SECOND
    requires Shows(s, date, seconds, nanos)
    ensures Parse(s) == Some(Instant(date, seconds, nanos))
  {
    var h, n, c := seconds / 3600, seconds / 60 % 60, seconds % 60;
    ClockFields(seconds);
    TailReads(nanos);
    FieldsRead(s, date, h, n, c, Fraction(nanos) + "Z");
    ParseFields(s, date, h, n, c, nanos);
  }

  /** Formatting and parsing again gives the same instant, to the nanosecond, for every instant of the years
      that have four digits. */
  lemma FormatThenParse(t: int)
    requires 0 <= DateAt(t).year < 10000
    ensures Parse(Format(t)) == Some(t)
  {
    FormatShows(t);
    ParseShown(Format(t), DateAt(t), SecondsAt(t), NanosAt(t));
    InstantIs(t);
  }

  lemma FormatShows(t: int)
    requires 0 <= DateAt(t).year < 10000
    ensures Shows(Format(t), DateAt(t), SecondsAt(t), NanosAt(t))
  {
    var date, seconds := DateAt(t), SecondsAt(t);
    FormatIs(t);
    Layout(Fixed(date.year, 4), Fixed(date.month, 2), Fixed(date.day, 2),
           Fixed(seconds / 3600, 2), Fixed(seconds / 60 % 60, 2), Fixed(seconds % 60, 2), Fraction(NanosAt(t)) + "Z");
  }

  lemma FormatIs(t: int)
    requires 0 <= DateAt(t).year < 10000
    ensures var date, seconds := DateAt(t), SecondsAt(t);
      Format(t) == Fixed(date.year, 4) + ("-" + Fixed(date.month, 2) + "-" + Fixed(date.day, 2)) + "T"
        + (Fixed(seconds / 3600, 2) + ":" + Fixed(seconds / 60 % 60, 2) + ":" + Fixed(seconds % 60, 2))
        + (Fraction(NanosAt(t)) + "Z")
  {}

  // ---------- different instants look different ----------

  /** The number that a year is printed as, sign and all. */
  function YearValue(s: string): int
    requires Signed(s)
  {
    if s[0] == '-' then -1 * Value(s[1..]) else Value(s)
  }

  predicate Signed(s: string) { s != "" && AllDigits(if s[0] == '-' then s[1..] else s) }

  lemma Negative(s: string)
    requires AllDigits(s)
    ensures Signed("-" + s) && YearValue("-" + s) == -1 * Value(s)
  {
    assert ("-" + s)[1..] == s;
  }

  lemma FourDigits(n: nat)
    requires n < 10000
    ensures Value(Fixed(n, 4)) == n
  {
    PowersOfTen();
    ValueOfFixed(n, 4);
  }

  lemma YearDigitsRead(y: int)
    ensures Signed(YearDigits(y)) && YearValue(YearDigits(y)) == y
  {
    if 0 <= y < 10000 {
      FourDigits(y);
    } else if y >= 10000 {
      ValueOfDigits(y);
    } else {
      NegativeYearReads(y);
    }
  }

  lemma NegativeYearReads(y: int)
    requires y < 0
    ensures Signed(YearDigits(y)) && YearValue(YearDigits(y)) == y
  {
    var digits := if -y < 10000 then Fixed(-y, 4) else Digits(-y);
    if -y < 10000 { FourDigits(-y); } else { ValueOfDigits(-y); }
    assert YearDigits(y) == "-" + digits && Value(digits) == -y;
    Negative(digits);
  }

  lemma SignedHasNoT(s: string)
    requires Signed(s)
    ensures forall i | 0 <= i < |s| :: s[i] != 'T'
  {
    if s[0] == '-' { assert forall i | 0 < i < |s| :: s[i] == s[1..][i - 1]; }
  }

  /** The first T of the string is at the seventh place of `x`. */
  predicate FirstT(s: string, k: nat) { CharAt(s, k, 'T') && forall i | 0 <= i < k :: s[i] != 'T' }

  lemma FirstTAfter(a: string, x: string)
    requires |x| > 6 && x[6] == 'T' && (forall i | 0 <= i < |a| :: a[i] != 'T') && forall i | 0 <= i < 6 :: x[i] != 'T'
    ensures FirstT(a + x, |a| + 6)
  {}

  lemma FirstTIsUnique(s: string, j: nat, k: nat)
    requires FirstT(s, j) && FirstT(s, k)
    ensures j == k
  {}

  lemma SplitAt(a: string, b: string, x: string, y: string)
    requires a + x == b + y && |a| == |b|
    ensures a == b && x == y
  {
    assert (a + x)[..|a|] == a && (b + y)[..|b|] == b;
    assert (a + x)[|a|..] == x && (b + y)[|b|..] == y;
  }

  /** Everything after the year. */
  function AfterYear(t: int): string {
    MonthDay(DateAt(t)) + "T" + Clock(SecondsAt(t)) + Fraction(NanosAt(t)) + "Z"
  }

  lemma AfterYearHasT(t: int)
    ensures |AfterYear(t)| > 6 && AfterYear(t)[6] == 'T' && forall i | 0 <= i < 6 :: AfterYear(t)[i] != 'T'
  {}

  lemma YearThenRest(t: int)
    ensures Format(t) == YearDigits(DateAt(t).year) + AfterYear(t)
  {}

  /** The same day of year 2000, which has every day that any year has. */
  function DayIn2000(date: Date): Date { date.(year := 2000) }

  lemma ValidInYear2000(date: Date)
    requires ValidDate(date.year, date.month, date.day)
    ensures ValidDate(2000, date.month, date.day)
  {}

  lemma AfterYearReads(t: int)
    ensures Parse("2000" + AfterYear(t)) == Some(Instant(DayIn2000(DateAt(t)), SecondsAt(t), NanosAt(t)))
  {
    AfterYearShows(t);
    ValidInYear2000(DateAt(t));
    ParseShown("2000" + AfterYear(t), DayIn2000(DateAt(t)), SecondsAt(t), NanosAt(t));
  }

  lemma AfterYearShows(t: int)
    ensures Shows("2000" + AfterYear(t), DayIn2000(DateAt(t)), SecondsAt(t), NanosAt(t))
  {
    var date, seconds := DateAt(t), SecondsAt(t);
    Year2000();
    Layout("2000", Fixed(date.month, 2), Fixed(date.day, 2),
           Fixed(seconds / 3600, 2), Fixed(seconds / 60 % 60, 2), Fixed(seconds % 60, 2), Fraction(NanosAt(t)) + "Z");
    AfterYearGrouped(t);
  }

  lemma Year2000()
    ensures Fixed(2000, 4) == "2000"
  {
    assert Fixed(2, 1) == "2" && Fixed(20, 2) == "20" && Fixed(200, 3) == "200";
  }

  lemma AfterYearGrouped(t: int)
    ensures var date, seconds := DateAt(t), SecondsAt(t);
      "2000" + AfterYear(t) == "2000" + ("-" + Fixed(date.month, 2) + "-" + Fixed(date.day, 2)) + "T"
        + (Fixed(seconds / 3600, 2) + ":" + Fixed(seconds / 60 % 60, 2) + ":" + Fixed(seconds % 60, 2))
        + (Fraction(NanosAt(t)) + "Z")
  {}

  lemma InstantIsInjective(a: Date, m: nat, x: nat, b: Date, n: nat, y: nat)
    requires ValidDate(a.year, a.month, a.day) && ValidDate(b.year, b.month, b.day)
    requires m < 86400 && n < 86400 && x < SECOND && y < SECOND
    requires Instant(a, m, x) == Instant(b, n, y)
    ensures a == b && m == n && x == y
  {
    SameDay(DayNumber(a.year, a.month, a.day), DayNumber(b.year, b.month, b.day), m, n, x, y);
    DateOfDayNumber(a.year, a.month, a.day);
    DateOfDayNumber(b.year, b.month, b.day);
  }

  lemma SameDay(a: int, b: int, m: nat, n: nat, x: nat, y: nat)
    requires DAY * a + (SECOND * m + x) == DAY * b + (SECOND * n + y)
    requires m < 86400 && n < 86400 && x < SECOND && y < SECOND
    ensures a == b && m == n && x == y
  {
    assert 0 <= SECOND * m + x < DAY && 0 <= SECOND * n + y < DAY;
  }

  /** Two instants have the same text only if they are the same, in any year. */
  lemma FormatIsInjective(t: int, u: int)
    requires Format(t) == Format(u)
    ensures t == u
  {
    SameYearAndRest(t, u);
    AfterYearReads(t);
    AfterYearReads(u);
    ValidInYear2000(DateAt(t));
    ValidInYear2000(DateAt(u));
    InstantIsInjective(DayIn2000(DateAt(t)), SecondsAt(t), NanosAt(t), DayIn2000(DateAt(u)), SecondsAt(u), NanosAt(u));
    InstantIs(t);
    InstantIs(u);
  }

  lemma SameYearAndRest(t: int, u: int)
    requires Format(t) == Format(u)
    ensures DateAt(t).year == DateAt(u).year && AfterYear(t) == AfterYear(u)
  {
    var y, z := YearDigits(DateAt(t).year), YearDigits(DateAt(u).year);
    YearThenRest(t);
    YearThenRest(u);
    YearDigitsRead(DateAt(t).year);
    YearDigitsRead(DateAt(u).year);
    SignedHasNoT(y);
    SignedHasNoT(z);
    AfterYearHasT(t);
    AfterYearHasT(u);
    SplitYear(y, AfterYear(t), z, AfterYear(u));
  }

  lemma SplitYear(a: string, x: string, b: string, y: string)
    requires a + x == b + y && |x| > 6 && |y| > 6 && x[6] == 'T' && y[6] == 'T'
    requires (forall i | 0 <= i < |a| :: a[i] != 'T') && forall i | 0 <= i < |b| :: b[i] != 'T'
    requires forall i | 0 <= i < 6 :: x[i] != 'T' && y[i] != 'T'
    ensures a == b && x == y
  {
    FirstTAfter(a, x);
    FirstTAfter(b, y);
    FirstTIsUnique(a + x, |a| + 6, |b| + 6);
    SplitAt(a, b, x, y);
  }

  lemma LongYear(t: int)
    requires DateAt(t).year >= 10000
    ensures !CharAt(Format(t), 4, '-')
  {
    PowersOfTen();
    var digits := YearDigits(DateAt(t).year);
    DigitsGrow(DateAt(t).year, 4);
    YearThenRest(t);
    assert Format(t)[4] == digits[4];
  }

  lemma NegativeYear(t: int)
    requires DateAt(t).year < 0
    ensures Format(t) != "" && Format(t)[0] == '-'
  {
    YearThenRest(t);
  }

  /** The text can be parsed back if and only if its year has four digits. */
  lemma ParsesBackIff(t: int)
    ensures Parse(Format(t)) == Some(t) <==> 0 <= DateAt(t).year < 10000
    ensures Parse(Format(t)) == None <==> !(0 <= DateAt(t).year < 10000)
  {
    var y := DateAt(t).year;
    if 0 <= y < 10000 {
      FormatThenParse(t);
    } else if y >= 10000 {
      LongYear(t);
      NotPunctuated(Format(t));
    } else {
      NegativeYear(t);
      NoYear(Format(t));
    }
  }

  lemma NotPunctuated(s: string)
    requires !CharAt(s, 4, '-')
    ensures Parse(s) == None
  {}

  lemma NoYear(s: string)
    requires s != "" && s[0] == '-'
    ensures Parse(s) == None
  {
    if |s| >= 4 { assert s[0..4][0] == '-'; }
  }
}
