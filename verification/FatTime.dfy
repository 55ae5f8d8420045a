/** Times of the FAT file server: seconds since 1970, civil dates, and the packed date and time
    words of a directory entry. */
module FatTime {
  import opened Common

  datatype Date = Date(year: int, month: int, day: int)

  /** Division that cuts towards zero. */
  function Quot(a: int, b: int): int
    requires b > 0
  {
    if a >= 0 then a / b else -((-a) / b)
  }

  // ---- The calendar --------------------------------------------------------------------------

  predicate IsLeap(year: int) { year % 4 == 0 && (year % 100 != 0 || year % 400 == 0) }

  function DaysIn(year: int, month: int): int {
    if month == 2 then (if IsLeap(year) then 29 else 28)
    else if month == 4 || month == 6 || month == 9 || month == 11 then 30
    else 31
  }

  predicate Valid(d: Date) { 1 <= d.month <= 12 && 1 <= d.day <= DaysIn(d.year, d.month) }

  function Next(d: Date): Date {
    if d.day < DaysIn(d.year, d.month) then d.(day := d.day + 1)
    else if d.month < 12 then Date(d.year, d.month + 1, 1)
    else Date(d.year + 1, 1, 1)
  }

  // ---- The conversions in unbounded time ----------------------------------------------------

  /** Days before year yoe of a 400-year era; years begin in March here. */
  function YearDays(yoe: int): int { yoe * 365 + yoe / 4 - yoe / 100 }

  /** Days before month mp of such a year. */
  function MonthDays(mp: int): int { (153 * mp + 2) / 5 }

  function DayCount(d: Date): int {
    var year := d.year - if d.month <= 2 then 1 else 0;
    var era := Quot(if year >= 0 then year else year - 399, 400);
    var yoe := year - era * 400;
    var doy := MonthDays(d.month + if d.month > 2 then -3 else 9) + d.day - 1;
    era * 146097 + YearDays(yoe) + doy - 719468
  }

  function YearOf(doe: int): int {
    (doe - doe / 1460 + doe / 36524 - doe / 146096) / 365
  }

  function MonthOf(doy: int): int { (5 * doy + 2) / 153 }

  function CivilOf(days: int): Date {
    var n := days + 719468;
    var era := Quot(if n >= 0 then n else n - 146096, 146097);
    var doe := n - era * 146097;
    var yoe := YearOf(doe);
    var doy := doe - YearDays(yoe);
    var mp := MonthOf(doy);
    var month := mp + if mp < 10 then 3 else -9;
    Date(yoe + era * 400 + (if month <= 2 then 1 else 0), month, doy - MonthDays(mp) + 1)
  }

  // ---- The conversions of the source, with years of 32 bits ----------------------------------

  /** A 32-bit signed word. */
  function Int32(x: int): (w: int)
    ensures -LIMIT32 / 2 <= w < LIMIT32 / 2
  {
    (x + LIMIT32 / 2) % LIMIT32 - LIMIT32 / 2
  }

  predicate Fits(x: int) { -LIMIT32 / 2 <= x < LIMIT32 / 2 }

  lemma Int32Is(x: int)
    ensures Int32(x) == x <==> Fits(x)
  {
  }

  /** Words may be cut on the way. */
  lemma Int32Sum(x: int, y: int)
    ensures Int32(Int32(x) + y) == Int32(x + y) == Int32(x + Int32(y))
  {
    Int32Off(x);
    Int32Off(y);
    var i := (Int32(x) - x) / LIMIT32;
    var j := (Int32(y) - y) / LIMIT32;
    Int32Shift(x + y, i);
    Int32Shift(x + y, j);
  }

  lemma Int32Off(x: int)
    ensures Int32(x) == x + (Int32(x) - x) / LIMIT32 * LIMIT32
  {
    assert x + LIMIT32 / 2 == (x + LIMIT32 / 2) / LIMIT32 * LIMIT32 + (x + LIMIT32 / 2) % LIMIT32;
    assert Int32(x) - x == -((x + LIMIT32 / 2) / LIMIT32) * LIMIT32;
  }

  lemma Int32Shift(x: int, k: int)
    ensures Int32(x + k * LIMIT32) == Int32(x)
  {
  }

  lemma Int32Times(x: int)
    ensures Int32(Int32(x) * 400) == Int32(x * 400)
  {
    Int32Off(x);
    Int32Shift(x * 400, (Int32(x) - x) / LIMIT32 * 400);
  }

  function DaysFromCivil(d: Date): int {
    var year := Int32(d.year - if d.month <= 2 then 1 else 0);
    var era := Quot(if year >= 0 then year else Int32(year - 399), 400);
    var yoe := Int32(year - Int32(era * 400));
    var doy := MonthDays(d.month + if d.month > 2 then -3 else 9) + d.day - 1;
    era * 146097 + YearDays(yoe) + doy - 719468
  }

  function CivilFromDays(days: int): Date {
    var n := days + 719468;
    var era := Quot(if n >= 0 then n else n - 146096, 146097);
    var doe := n - era * 146097;
    var yoe := YearOf(doe);
    var y := Int32(yoe + Int32(Int32(era) * 400));
    var doy := doe - YearDays(yoe);
    var mp := MonthOf(doy);
    var month := mp + if mp < 10 then 3 else -9;
    Date(Int32(y + if month <= 2 then 1 else 0), month, doy - MonthDays(mp) + 1)
  }

  /** The year that is computed is the right one cut to 32 bits, and the rest of the date is right. */
  lemma CivilCut(days: int)
    ensures CivilFromDays(days) == CivilOf(days).(year := Int32(CivilOf(days).year))
    ensures CivilFromDays(days) == CivilOf(days) <==> Fits(CivilOf(days).year)
  {
    hide Int32, YearOf, YearDays, MonthOf, MonthDays;
    var n := days + 719468;
    var era := Quot(if n >= 0 then n else n - 146096, 146097);
    var yoe := YearOf(n - era * 146097);
    var mp := MonthOf(n - era * 146097 - YearDays(yoe));
    var one := if mp + (if mp < 10 then 3 else -9) <= 2 then 1 else 0;
    Int32Times(era);
    Int32Sum(yoe, era * 400);
    Int32Sum(yoe + era * 400, one);
    Int32Is(CivilOf(days).year);
  }

  /** Years are counted from March. */
  function MarchYear(d: Date): int { d.year - if d.month <= 2 then 1 else 0 }

  /** Where the arithmetic of the source leaves 32 bits. */
  const LOWEST: int := -LIMIT32 / 2 + 399

  /** The count is right exactly from the lowest year on that leaves room to round down. */
  lemma CountFits(d: Date)
    requires Fits(d.year)
    ensures DaysFromCivil(d) == DayCount(d) <==> MarchYear(d) >= LOWEST
  {
    hide Int32, YearDays, MonthDays;
    var year := MarchYear(d);
    Int32Is(year);
    Int32Is(year - 399);
    var era := Quot(if year >= 0 then year else year - 399, 400);
    EraIs(year, 400, era);
    Int32Is(era * 400);
    Int32Is(year - era * 400);
    if year < LOWEST {
      WrappedCount(d);
      CountIs(d);
      YearStartOrder(year, year + LIMIT32);
    }
  }

  lemma Int32Low(x: int)
    requires -LIMIT32 / 2 - LIMIT32 <= x < -LIMIT32 / 2
    ensures Int32(x) == x + LIMIT32
  {
    Int32Shift(x, 1);
    Int32Is(x + LIMIT32);
  }

  // ---- Eras ----------------------------------------------------------------------------------

  /** The adjusted division rounds down. */
  lemma EraIs(n: int, size: int, era: int)
    requires size > 0 && era == Quot(if n >= 0 then n else n - (size - 1), size)
    ensures 0 <= n - era * size < size
  {
    if n < 0 {
      var m := -(n - (size - 1));
      assert m == m / size * size + m % size;
      assert era * size == -(m / size * size);
    }
  }

  lemma EraUnique(n: int, size: int, e: int, f: int)
    requires size > 0 && 0 <= n - e * size < size && 0 <= n - f * size < size
    ensures e == f
  {
    if e < f {
      Apart(e, f, size);
    } else if f < e {
      Apart(f, e, size);
    }
  }

  lemma Apart(e: int, f: int, size: int)
    requires size > 0 && e < f
    ensures e * size + size <= f * size
  {
    Difference(e, f, size);
    AtLeast(f - e, size);
  }

  lemma Difference(e: int, f: int, size: int)
    ensures (f - e) * size == f * size - e * size
  {
  }

  lemma AtLeast(k: int, size: int)
    requires k >= 1 && size > 0
    ensures k * size >= size
  {
  }

  // ---- Years of an era -----------------------------------------------------------------------

  /** Length of year yoe, which ends with February of the civil year after it. */
  function YearLength(yoe: int): (n: int)
    ensures 365 <= n <= 366
  {
    if (yoe % 4 == 3 && yoe % 100 != 99) || yoe == 399 then 366 else 365
  }

  lemma DivIs(n: int, d: int, q: int)
    requires d > 0 && q * d <= n < q * d + d
    ensures n / d == q
  {
    assert n == n / d * d + n % d;
    EraUnique(n, d, n / d, q);
  }

  /** A year as century, four-year cycle and rest. */
  lemma YearParts(c: int, q: int, r: int)
    requires 0 <= c <= 3 && 0 <= q <= 24 && 0 <= r <= 3
    ensures YearDays(100 * c + 4 * q + r) == 36524 * c + 1461 * q + 365 * r
    ensures YearLength(100 * c + 4 * q + r) == if r == 3 && (q < 24 || c == 3) then 366 else 365
  {
    var y := 100 * c + 4 * q + r;
    DivIs(y, 4, 25 * c + q);
    DivIs(y, 100, c);
  }

  lemma YearOfParts(c: int, q: int, r: int, doy: int)
    requires 0 <= c <= 3 && 0 <= q <= 24 && 0 <= r <= 3
    requires 0 <= doy < if r == 3 && (q < 24 || c == 3) then 366 else 365
    ensures YearOf(36524 * c + 1461 * q + 365 * r + doy) == 100 * c + 4 * q + r
    ensures 0 <= 36524 * c + 1461 * q + 365 * r + doy < 146097
  {
    var doe := 36524 * c + 1461 * q + 365 * r + doy;
    var last := if doe == 146096 then 1 else 0;
    var e := if 24 * c + q + 365 * r + doy >= 1460 then 1 else 0;
    DivIs(doe, 1460, 25 * c + q + e);
    DivIs(doe, 36524, c + last);
    DivIs(doe, 146096, last);
    DivIs(36500 * c + 1460 * q + 365 * r + doy - e, 365, 100 * c + 4 * q + r);
  }

  /** The days of an era are the days of its years. */
  lemma YearRoundTrip(yoe: int, doy: int)
    requires 0 <= yoe < 400 && 0 <= doy < YearLength(yoe)
    ensures YearOf(YearDays(yoe) + doy) == yoe && 0 <= YearDays(yoe) + doy < 146097
  {
    var c, q, r := yoe / 100, yoe % 100 / 4, yoe % 4;
    assert yoe == 100 * c + 4 * q + r;
    YearParts(c, q, r);
    YearOfParts(c, q, r, doy);
  }

  function Least(a: int, b: int): int { if a < b then a else b }

  lemma YearExists(doe: int)
    requires 0 <= doe < 146097
    ensures 0 <= YearOf(doe) < 400 && 0 <= doe - YearDays(YearOf(doe)) < YearLength(YearOf(doe))
  {
    var c := Least(3, doe / 36524);
    var d1 := doe - 36524 * c;
    var q := Least(24, d1 / 1461);
    var d2 := d1 - 1461 * q;
    var r := Least(3, d2 / 365);
    var doy := d2 - 365 * r;
    YearParts(c, q, r);
    YearOfParts(c, q, r, doy);
  }

  // ---- Months --------------------------------------------------------------------------------

  /** Month mp of a year that begins in March. */
  function MonthName(mp: int): int { mp + if mp < 10 then 3 else -9 }

  lemma MonthOfDay(mp: int, k: int)
    requires 0 <= mp <= 11 && 0 <= k < MonthDays(mp + 1) - MonthDays(mp)
    ensures MonthOf(MonthDays(mp) + k) == mp
  {
  }

  lemma MonthExists(doy: int)
    requires 0 <= doy <= 365
    ensures 0 <= MonthOf(doy) <= 11 && MonthDays(MonthOf(doy)) <= doy < MonthDays(MonthOf(doy) + 1)
  {
  }

  /** All months but February have their length; February ends the year. */
  lemma MonthLengths(year: int, mp: int)
    requires 0 <= mp <= 10
    ensures MonthDays(mp + 1) - MonthDays(mp) == DaysIn(year, MonthName(mp))
    ensures MonthDays(11) == 337 && MonthDays(12) == 367 && MonthDays(0) == 0
  {
  }

  /** Leap years of the calendar are the long years of an era, one year on. */
  lemma LeapIsLong(era: int, yoe: int)
    requires 0 <= yoe < 400
    ensures IsLeap(era * 400 + yoe + 1) <==> YearLength(yoe) == 366
  {
    var y := era * 400 + yoe + 1;
    DivIs(y, 4, 100 * era + (yoe + 1) / 4);
    DivIs(y, 100, 4 * era + (yoe + 1) / 100);
    DivIs(y, 400, era + (yoe + 1) / 400);
  }

  // ---- Inverses ------------------------------------------------------------------------------

  /** A date by the era, the year and the month that begin in March. */
  function Marched(era: int, yoe: int, mp: int, day: int): Date {
    Date(era * 400 + yoe + (if mp >= 10 then 1 else 0), MonthName(mp), day)
  }

  predicate MarchOk(yoe: int, mp: int, day: int) {
    && 0 <= yoe < 400 && 0 <= mp <= 11 && 1 <= day && MonthDays(mp) + day - 1 < YearLength(yoe)
    && day <= MonthDays(mp + 1) - MonthDays(mp)
  }

  /** Such dates are the valid ones. */
  lemma MarchedValid(era: int, yoe: int, mp: int, day: int)
    requires 0 <= yoe < 400 && 0 <= mp <= 11
    ensures Valid(Marched(era, yoe, mp, day)) <==> MarchOk(yoe, mp, day)
  {
    var d := Marched(era, yoe, mp, day);
    if mp <= 10 {
      MonthLengths(d.year, mp);
      MonthEnds(mp);
    } else {
      MonthLengths(d.year, 0);
      LeapIsLong(era, yoe);
    }
  }

  lemma MonthStarts(mp: int)
    requires 0 <= mp <= 11
    ensures MonthDays(mp) >= 0
  {
  }

  lemma MonthEnds(mp: int)
    requires 0 <= mp <= 10
    ensures MonthDays(mp + 1) <= 337
  {
  }

  lemma DaysOfMarched(era: int, yoe: int, mp: int, day: int)
    requires 0 <= yoe < 400 && 0 <= mp <= 11
    ensures DayCount(Marched(era, yoe, mp, day)) == era * 146097 + YearDays(yoe) + MonthDays(mp) + day - 1 - 719468
  {
    var year := era * 400 + yoe;
    var e := Quot(if year >= 0 then year else year - 399, 400);
    EraIs(year, 400, e);
    EraUnique(year, 400, e, era);
  }

  lemma CivilOfMarched(era: int, yoe: int, mp: int, day: int)
    requires MarchOk(yoe, mp, day)
    ensures CivilOf(era * 146097 + YearDays(yoe) + MonthDays(mp) + day - 1 - 719468) == Marched(era, yoe, mp, day)
  {
    hide YearOf, YearDays, MonthOf, MonthDays, YearLength;
    var doy := MonthDays(mp) + day - 1;
    MonthStarts(mp);
    YearRoundTrip(yoe, doy);
    MonthOfDay(mp, day - 1);
    var n := era * 146097 + YearDays(yoe) + doy;
    var e := Quot(if n >= 0 then n else n - 146096, 146097);
    EraIs(n, 146097, e);
    EraUnique(n, 146097, e, era);
  }

  /** Every valid date has a March form. */
  lemma ToMarched(d: Date) returns (era: int, yoe: int, mp: int)
    requires Valid(d)
    ensures 0 <= yoe < 400 && 0 <= mp <= 11 && Marched(era, yoe, mp, d.day) == d
  {
    mp := if d.month > 2 then d.month - 3 else d.month + 9;
    var year := d.year - if d.month <= 2 then 1 else 0;
    era := Quot(if year >= 0 then year else year - 399, 400);
    EraIs(year, 400, era);
    yoe := year - era * 400;
  }

  /** From a date to days and back, for every date of the calendar. */
  lemma CountThenDate(d: Date)
    requires Valid(d)
    ensures CivilOf(DayCount(d)) == d
  {
    hide YearOf, YearDays, MonthOf, MonthDays, YearLength, DayCount, CivilOf, Marched, MarchOk, Valid;
    var era, yoe, mp := ToMarched(d);
    MarchedValid(era, yoe, mp, d.day);
    DaysOfMarched(era, yoe, mp, d.day);
    CivilOfMarched(era, yoe, mp, d.day);
  }

  /** From days to a date and back, for every number of days; the date is one of the calendar. */
  lemma DateThenCount(days: int)
    ensures Valid(CivilOf(days)) && DayCount(CivilOf(days)) == days
  {
    hide YearOf, YearDays, MonthOf, MonthDays, YearLength, DayCount, CivilOf, Valid, Marched, Quot;
    var n := days + 719468;
    var era := Quot(if n >= 0 then n else n - 146096, 146097);
    EraIs(n, 146097, era);
    var doe := n - era * 146097;
    YearExists(doe);
    var yoe := YearOf(doe);
    var doy := doe - YearDays(yoe);
    MonthExists(doy);
    var mp := MonthOf(doy);
    var day := doy - MonthDays(mp) + 1;
    MarchedValid(era, yoe, mp, day);
    DaysOfMarched(era, yoe, mp, day);
    CivilOfMarched(era, yoe, mp, day);
  }

  lemma Epoch()
    ensures DayCount(Date(1970, 1, 1)) == 0
  {
  }

  lemma NextValid(d: Date)
    requires Valid(d)
    ensures Valid(Next(d))
  {
  }

  /** The day count is that of the calendar: 0 is the first of January 1970, and the next date has
      the next count. */
  lemma CountsDays(d: Date)
    requires Valid(d)
    ensures DayCount(Date(1970, 1, 1)) == 0
    ensures Valid(Next(d)) && DayCount(Next(d)) == DayCount(d) + 1
  {
    hide YearDays, MonthDays, DayCount, IsLeap, Quot;
    Epoch();
    NextValid(d);
    var era, yoe, mp := ToMarched(d);
    DaysOfMarched(era, yoe, mp, d.day);
    if d.day < DaysIn(d.year, d.month) {
      DaysOfMarched(era, yoe, mp, d.day + 1);
    } else if mp < 11 {
      MonthLengths(d.year, mp);
      DaysOfMarched(era, yoe, mp + 1, 1);
    } else {
      NextYear(era, yoe, d);
    }
  }

  /** March follows the last of February, also across eras. */
  lemma NextYear(era: int, yoe: int, d: Date)
    requires 0 <= yoe < 400 && d == Marched(era, yoe, 11, d.day) && d.day == DaysIn(d.year, 2)
    ensures DayCount(Next(d)) == DayCount(d) + 1
  {
    hide YearDays, MonthDays, YearLength, DayCount, IsLeap, Quot;
    LeapIsLong(era, yoe);
    DaysOfMarched(era, yoe, 11, d.day);
    LongYears(yoe);
    MonthLengths(0, 0);
    YearZero();
    if yoe < 399 {
      DaysOfMarched(era, yoe + 1, 0, 1);
    } else {
      DaysOfMarched(era + 1, 0, 0, 1);
    }
  }

  lemma YearZero()
    ensures YearDays(0) == 0
  {
  }

  /** Each year begins where the one before it ends. */
  lemma LongYears(yoe: int)
    requires 0 <= yoe < 400
    ensures YearDays(yoe) + YearLength(yoe) == if yoe < 399 then YearDays(yoe + 1) else 146097
  {
    var c, q, r := yoe / 100, yoe % 100 / 4, yoe % 4;
    assert yoe == 100 * c + 4 * q + r;
    YearParts(c, q, r);
    if r < 3 {
      YearParts(c, q, r + 1);
    } else if q < 24 {
      YearParts(c, q + 1, 0);
    } else if c < 3 {
      YearParts(c + 1, 0, 0);
    }
  }

  // ---- Years that wrap -----------------------------------------------------------------------

  /** Days before a year that begins in March, from the first day of year 0 on. */
  function YearStart(year: int): int {
    var era := Quot(if year >= 0 then year else year - 399, 400);
    era * 146097 + YearDays(year - era * 400)
  }

  function DayInYear(d: Date): int { MonthDays(d.month + if d.month > 2 then -3 else 9) + d.day - 1 }

  lemma CountIs(d: Date)
    ensures DayCount(d) == YearStart(MarchYear(d)) + DayInYear(d) - 719468
  {
  }

  lemma YearStartIs(year: int, era: int)
    requires 0 <= year - era * 400 < 400
    ensures YearStart(year) == era * 146097 + YearDays(year - era * 400)
  {
    var e := Quot(if year >= 0 then year else year - 399, 400);
    EraIs(year, 400, e);
    EraUnique(year, 400, e, era);
  }

  lemma YearStartNext(year: int)
    ensures YearStart(year) + 365 <= YearStart(year + 1)
  {
    hide YearStart, YearDays;
    var era := Quot(if year >= 0 then year else year - 399, 400);
    EraIs(year, 400, era);
    YearStartIs(year, era);
    LongYears(year - era * 400);
    YearStartIs(year + 1, if year - era * 400 < 399 then era else era + 1);
    YearZero();
  }

  lemma {:induction false} YearStartOrder(y: int, z: int)
    requires y < z
    ensures YearStart(y) + 365 <= YearStart(z)
    decreases z - y
  {
    hide YearStart;
    YearStartNext(z - 1);
    if y < z - 1 {
      YearStartOrder(y, z - 1);
    }
  }

  /** Two dates that differ in the year alone have different counts, and not by one. */
  lemma SameDayApart(d: Date, e: Date)
    requires d.month == e.month && d.day == e.day && d.year != e.year
    ensures DayCount(d) != DayCount(e) && DayCount(d) != DayCount(e) - 1
  {
    hide YearStart, DayCount, MonthDays;
    CountIs(d);
    CountIs(e);
    if d.year < e.year {
      YearStartOrder(MarchYear(d), MarchYear(e));
    } else {
      YearStartOrder(MarchYear(e), MarchYear(d));
    }
  }

  /** The years below the lowest whose wrapped count is right for the year 2^32 later. */
  predicate Lucky(year: int) { year == -LIMIT32 / 2 - 1 || year == -LIMIT32 / 2 + 351 }

  /** A count that wraps is that of the year 2^32 later, or one short of it. */
  lemma WrappedCount(d: Date)
    requires Fits(d.year) && MarchYear(d) < LOWEST
    ensures DaysFromCivil(d) == DayCount(d.(year := d.year + LIMIT32)) - if Lucky(MarchYear(d)) then 0 else 1
  {
    hide Int32, YearDays, MonthDays, YearStart;
    var year := MarchYear(d);
    var wrapped := if year < -LIMIT32 / 2 then year + LIMIT32 else year - 399 + LIMIT32;
    var far := wrapped / 400;
    WrappedEra(year, wrapped, far);
    CountIs(d.(year := d.year + LIMIT32));
    var yoe := year + LIMIT32 - far * 400;
    if yoe < 400 {
      YearStartIs(year + LIMIT32, far);
    } else {
      YearStartIs(year + LIMIT32, far + 1);
      EraMore(yoe - 400);
    }
  }

  lemma WrappedEra(year: int, wrapped: int, far: int)
    requires -LIMIT32 / 2 - 1 <= year < LOWEST && far == wrapped / 400
    requires wrapped == if year < -LIMIT32 / 2 then year + LIMIT32 else year - 399 + LIMIT32
    ensures var w := Int32(year); wrapped == (if w >= 0 then w else Int32(w - 399)) >= 0
    ensures Int32(Int32(year) - Int32(far * 400)) == year + LIMIT32 - far * 400
    ensures 0 <= year + LIMIT32 - far * 400 < 800 && (year + LIMIT32 - far * 400 < 400 <==> Lucky(year))
  {
    hide Int32;
    if year < -LIMIT32 / 2 {
      Int32Low(year);
    } else {
      Int32Is(year);
      Int32Low(year - 399);
    }
    Int32Is(far * 400);
    if year < -LIMIT32 / 2 {
      Int32Is(year + LIMIT32 - far * 400);
    } else {
      Int32Low(year - far * 400);
    }
  }

  /** The formula for the days of an era misses the last leap day when it runs on. */
  lemma EraMore(yoe: int)
    requires 0 <= yoe < 400
    ensures YearDays(yoe + 400) == YearDays(yoe) + 146096
  {
  }

  // ---- The round trips -----------------------------------------------------------------------

  /** From a date to days and back is the same date exactly from the lowest year on that leaves
      room to round down, or in two years below it by luck. */
  lemma CivilRoundTrip(d: Date)
    requires Valid(d) && Fits(d.year)
    ensures CivilFromDays(DaysFromCivil(d)) == d <==> MarchYear(d) >= LOWEST || Lucky(MarchYear(d))
  {
    hide DayCount, CivilOf, DaysFromCivil, CivilFromDays, Int32, DaysIn;
    CountFits(d);
    var days := DaysFromCivil(d);
    CivilCut(days);
    if MarchYear(d) >= LOWEST {
      CountThenDate(d);
    } else {
      var far := d.(year := d.year + LIMIT32);
      WrappedCount(d);
      DateThenCount(days);
      if Lucky(MarchYear(d)) {
        LuckyValid(d);
        CountThenDate(far);
        Int32Shift(d.year, 1);
        Int32Is(d.year);
      } else if CivilFromDays(days) == d && CivilOf(days).year != far.year {
        SameDayApart(CivilOf(days), far);
      }
    }
  }

  lemma LuckyValid(d: Date)
    requires Valid(d) && Lucky(MarchYear(d)) && Fits(d.year)
    ensures Valid(d.(year := d.year + LIMIT32))
  {
  }

  /** From days to a date and back is the same count exactly for the years that leave room to round
      down in 32 bits, and for one year above them by luck. */
  lemma DaysRoundTrip(days: int)
    ensures Fits(CivilOf(days).year) ==> Valid(CivilFromDays(days))
    ensures DaysFromCivil(CivilFromDays(days)) == days <==>
              LOWEST <= MarchYear(CivilOf(days)) < LIMIT32 / 2 || MarchYear(CivilOf(days)) == LIMIT32 / 2 + 351
  {
    hide DayCount, CivilOf, DaysFromCivil, CivilFromDays, Int32, DaysIn;
    var e, d := CivilOf(days), CivilFromDays(days);
    DateThenCount(days);
    CivilCut(days);
    CountFits(d);
    if !Fits(e.year) {
      Int32Is(e.year - LIMIT32);
      Int32Shift(e.year, -1);
      if MarchYear(d) >= LOWEST {
        SameDayApart(d, e);
      } else {
        var far := d.(year := d.year + LIMIT32);
        WrappedCount(d);
        if far.year != e.year {
          SameDayApart(e, far);
          SameDayApart(far, e);
        }
      }
    }
  }

  // ---- Order of dates ------------------------------------------------------------------------

  lemma InMonth(d: Date)
    requires 1 <= d.month <= 12
    ensures DayCount(d) == DayCount(Date(d.year, d.month, 1)) + d.day - 1
  {
  }

  /** Days of a year lie between its first and its last. */
  lemma {:induction false} AfterNewYear(d: Date)
    requires Valid(d)
    ensures DayCount(Date(d.year, 1, 1)) <= DayCount(d)
    decreases d.month
  {
    hide DayCount, IsLeap;
    InMonth(d);
    if d.month > 1 {
      var before := Date(d.year, d.month - 1, DaysIn(d.year, d.month - 1));
      CountsDays(before);
      AfterNewYear(before);
    }
  }

  lemma {:induction false} BeforeNewYear(d: Date)
    requires Valid(d)
    ensures DayCount(d) < DayCount(Date(d.year + 1, 1, 1))
    decreases 12 - d.month
  {
    hide DayCount, IsLeap;
    var last := d.(day := DaysIn(d.year, d.month));
    InMonth(d);
    InMonth(last);
    CountsDays(last);
    if d.month < 12 {
      BeforeNewYear(Date(d.year, d.month + 1, 1));
    }
  }

  lemma {:induction false} YearOrder(y: int, z: int)
    requires y <= z
    ensures DayCount(Date(y, 1, 1)) <= DayCount(Date(z, 1, 1))
    decreases z - y
  {
    hide DayCount;
    if y < z {
      YearOrder(y, z - 1);
      BeforeNewYear(Date(z - 1, 1, 1));
    }
  }

  /** The year of a day count is at least y from the first day of y on. */
  lemma YearFrom(days: int, y: int)
    ensures CivilOf(days).year >= y <==> days >= DayCount(Date(y, 1, 1))
  {
    hide DayCount, CivilOf, Valid;
    var d := CivilOf(days);
    DateThenCount(days);
    AfterNewYear(d);
    BeforeNewYear(d);
    if d.year >= y {
      YearOrder(y, d.year);
    } else {
      YearOrder(d.year + 1, y);
    }
  }

  // ---- Date and time words -------------------------------------------------------------------

  /** The fields of each word do not overlap, so that the sums are the shifted fields joined. */
  function DateWord(d: Date): int { (d.year - 1980) * 512 + d.month * 32 + d.day }

  function TimeWord(s: int): int { s / 3600 * 2048 + s / 60 % 60 * 32 + s % 60 / 2 }

  /** Days and seconds of a day, rounded down. */
  function DayOf(t: int): int {
    var cut := Quot(t, 86400); if t - cut * 86400 < 0 then cut - 1 else cut
  }

  function SecondOf(t: int): int { t - DayOf(t) * 86400 }

  function EncodeTime(t: int): (int, int) {
    var d := CivilFromDays(DayOf(t));
    if d.year < 1980 then (DateWord(Date(1980, 1, 1)), TimeWord(0))
    else if d.year > 2107 then (DateWord(Date(2107, 12, 31)), TimeWord(86398))
    else (DateWord(d), TimeWord(SecondOf(t)))
  }

  function DecodeTime(date: int, time: int): int {
    var day, month, year := date % 32, date / 32 % 16, 1980 + date / 512 % 128;
    if day == 0 || month == 0 || month > 12 then 0
    else DaysFromCivil(Date(year, month, day)) * 86400 + time / 2048 % 32 * 3600 + time / 32 % 64 * 60 + time % 32 * 2
  }

  lemma DateWordRead(d: Date)
    requires 1 <= d.month <= 12 && 1 <= d.day <= 31 && 1980 <= d.year <= 2107
    ensures DateWord(d) % 32 == d.day && DateWord(d) / 32 % 16 == d.month && 1980 + DateWord(d) / 512 % 128 == d.year
  {
    assert DateWord(d) / 32 == (d.year - 1980) * 16 + d.month;
  }

  lemma DaysInBound(d: Date)
    ensures DaysIn(d.year, d.month) <= 31
  {
  }

  lemma TimeWordRead(s: int)
    requires 0 <= s < 86400
    ensures var w := TimeWord(s); w / 2048 % 32 * 3600 + w / 32 % 64 * 60 + w % 32 * 2 == s - s % 2
  {
    var h, m, r := s / 3600, s / 60 % 60, s % 60;
    assert s == h * 3600 + m * 60 + r;
    TimeParts(h, m, r);
    Even(1800 * h + 30 * m, r);
  }

  lemma TimeParts(h: int, m: int, r: int)
    requires 0 <= h < 24 && 0 <= m < 60 && 0 <= r < 60
    ensures var w := h * 2048 + m * 32 + r / 2; w / 2048 % 32 == h && w / 32 % 64 == m && w % 32 * 2 == r - r % 2
  {
    var w := h * 2048 + m * 32 + r / 2;
    assert w / 32 == h * 64 + m;
    assert w / 2048 == h;
  }

  lemma Even(k: int, r: int)
    ensures (2 * k + r) % 2 == r % 2
  {
  }

  lemma DecodeWords(d: Date, s: int)
    requires 1 <= d.month <= 12 && 1 <= d.day <= 31 && 1980 <= d.year <= 2107 && 0 <= s < 86400
    ensures DecodeTime(DateWord(d), TimeWord(s)) == DayCount(d) * 86400 + s - s % 2
  {
    hide DayCount, DaysFromCivil, DateWord, TimeWord, DaysIn;
    CountFits(d);
    DateWordRead(d);
    TimeWordRead(s);
  }

  const FIRST: int := 3652 * 86400
  const LAST: int := 50402 * 86400 + 86399

  function Clamp(t: int): int { if t < FIRST then FIRST else if t > LAST then LAST else t }

  lemma SplitIs(t: int)
    ensures 0 <= SecondOf(t) < 86400 && t == DayOf(t) * 86400 + SecondOf(t)
  {
  }

  lemma Bounds()
    ensures DayCount(Date(1980, 1, 1)) == 3652 && DayCount(Date(2107, 12, 31)) == 50402
    ensures DayCount(Date(2108, 1, 1)) == 50403
  {
    hide DayCount, YearStart;
    CountIs(Date(1980, 1, 1));
    CountIs(Date(2107, 12, 31));
    CountIs(Date(2108, 1, 1));
    YearStartIs(1979, 4);
    YearStartIs(2107, 5);
  }

  /** What a stored time reads back as when it is kept: rounded down to an even second, and clamped
      to the years the date word can hold. */
  function Kept(t: int): int { Clamp(t) - Clamp(t) % 2 }

  /** A date before 1980 that is cut to the first day of 1980, or one after 2107 that is cut to
      the last day of 2107, can be right by chance. */
  predicate ByChance(year: int, d: Date, s: int) {
    || (year < 1980 && d == Date(1980, 1, 1) && s < 2)
    || (year > 2107 && d == Date(2107, 12, 31) && s >= 86398)
  }

  /** The years that the date word holds, and those before and after it. */
  function Side(year: int): int { if year < 1980 then -1 else if year > 2107 then 1 else 0 }

  /** A stored time is read back as it should be exactly when its year, cut to 32 bits, lies on the
      same side of the years that can be held, or by chance. */
  lemma StoredTimeReadsBack(t: int)
    ensures DecodeTime(EncodeTime(t).0, EncodeTime(t).1) == Kept(t) <==>
              var year, d := CivilOf(DayOf(t)).year, CivilFromDays(DayOf(t));
              Side(d.year) == Side(year) || ByChance(year, d, SecondOf(t))
  {
    hide DayCount, CivilOf, CivilFromDays, DecodeTime, DateWord, TimeWord, Quot, DaysIn, Int32, DayOf, SecondOf;
    SplitIs(t);
    var days, s := DayOf(t), SecondOf(t);
    Bounds();
    YearFrom(days, 1980);
    YearFrom(days, 2108);
    DateThenCount(days);
    CivilCut(days);
    var year, d := CivilOf(days).year, CivilFromDays(days);
    Int32Is(year);
    ValidEnds();
    if d.year < 1980 {
      DecodeWords(Date(1980, 1, 1), 0);
    } else if d.year > 2107 {
      DecodeWords(Date(2107, 12, 31), 86398);
    } else {
      StoredInside(t, year, d);
    }
  }

  lemma ValidEnds()
    ensures Valid(Date(1980, 1, 1)) && Valid(Date(2107, 12, 31))
  {
  }

  lemma StoredInside(t: int, year: int, d: Date)
    requires t == DayOf(t) * 86400 + SecondOf(t) && 0 <= SecondOf(t) < 86400
    requires year == CivilOf(DayOf(t)).year && d == CivilFromDays(DayOf(t)) && 1980 <= d.year <= 2107
    ensures DecodeTime(DateWord(d), TimeWord(SecondOf(t))) == Kept(t) <==>
              Side(year) == 0 || ByChance(year, d, SecondOf(t))
  {
    hide DayCount, CivilOf, CivilFromDays, DecodeTime, DateWord, TimeWord, DaysIn, Int32, DayOf, SecondOf;
    var days, s := DayOf(t), SecondOf(t);
    Bounds();
    YearFrom(days, 1980);
    YearFrom(days, 2108);
    DateThenCount(days);
    CivilCut(days);
    Int32Is(year);
    DaysInBound(CivilOf(days));
    DecodeWords(d, s);
    Extremes(d);
    Even(43200 * days, s);
  }

  /** Only the first and the last date that can be held have the first and the last count. */
  lemma Extremes(d: Date)
    requires 1980 <= d.year <= 2107 && 1 <= d.month <= 12 && 1 <= d.day <= 31
    ensures DayCount(d) == 3652 <==> d == Date(1980, 1, 1)
    ensures DayCount(d) == 50402 <==> d == Date(2107, 12, 31)
  {
    hide DayCount, DaysIn;
    Bounds();
    InMonth(d);
    MonthBounds(d.year, d.month);
    YearOrder(1980, d.year);
    YearOrder(d.year + 1, 2108);
    if d.year > 1980 {
      YearOrder(1981, d.year);
    }
    if d.year < 2107 {
      YearOrder(d.year + 1, 2107);
    }
    MonthBounds(1980, 12);
    MonthBounds(2107, 12);
  }

  /** Where the months of a year begin. */
  lemma {:induction false} MonthBounds(year: int, month: int)
    requires 1 <= month <= 12
    ensures DayCount(Date(year, month, 1)) >= DayCount(Date(year, 1, 1)) + if month > 1 then 28 else 0
    ensures DayCount(Date(year, month, 1)) + 31 <= DayCount(Date(year + 1, 1, 1)) - if month < 12 then 28 else 0
    ensures month == 12 ==> DayCount(Date(year, month, 1)) + 31 == DayCount(Date(year + 1, 1, 1))
    decreases 12 - month
  {
    hide DayCount, IsLeap;
    if month > 1 {
      var before := Date(year, month - 1, DaysIn(year, month - 1));
      CountsDays(before);
      InMonth(before);
      AfterNewYear(Date(year, month - 1, 1));
    }
    var last := Date(year, month, DaysIn(year, month));
    CountsDays(last);
    InMonth(last);
    if month < 12 {
      MonthBounds(year, month + 1);
    }
  }

  // ---- Times that a caller may pass ----------------------------------------------------------

  const FIRST_FIT: int := -67768100567971200
  const LAST_FIT: int := 67767976233532799

  lemma FitBounds()
    ensures DayCount(Date(-LIMIT32 / 2, 1, 1)) * 86400 == FIRST_FIT
    ensures DayCount(Date(LIMIT32 / 2, 1, 1)) * 86400 == LAST_FIT + 1
  {
    hide DayCount, YearDays, MonthDays;
    SomeYears();
    assert Date(-LIMIT32 / 2, 1, 1) == Marched(-5368710, 351, 10, 1);
    DaysOfMarched(-5368710, 351, 10, 1);
    assert Date(LIMIT32 / 2, 1, 1) == Marched(5368709, 47, 10, 1);
    DaysOfMarched(5368709, 47, 10, 1);
  }

  lemma SomeYears()
    ensures YearDays(351) == 128199 && YearDays(47) == 17166 && YearDays(96) == 35064
    ensures MonthDays(0) == 0 && MonthDays(10) == 306 && MarchOk(96, 0, 1)
  {
  }

  /** The year fits exactly between these two seconds, and there every time is kept. */
  lemma FittingTimesAreKept(t: int)
    ensures FIRST_FIT <= t <= LAST_FIT <==> Fits(CivilOf(DayOf(t)).year)
    ensures FIRST_FIT <= t <= LAST_FIT ==> DecodeTime(EncodeTime(t).0, EncodeTime(t).1) == Kept(t)
  {
    hide DayCount, CivilOf, CivilFromDays, DecodeTime, EncodeTime, DayOf, SecondOf;
    SplitIs(t);
    FitBounds();
    YearFrom(DayOf(t), -LIMIT32 / 2);
    YearFrom(DayOf(t), LIMIT32 / 2);
    CivilCut(DayOf(t));
    StoredTimeReadsBack(t);
  }

  /** A time far in the future, but of 64 bits, is stored as the first of March 2000 instead of
      the last moment of 2107. */
  lemma FarTimeIsLost()
    ensures var t := 135536077753372800;
            && CivilOf(DayOf(t)) == Date(4294969296, 3, 1) && CivilFromDays(DayOf(t)) == Date(2000, 3, 1)
            && DecodeTime(EncodeTime(t).0, EncodeTime(t).1) != Kept(t)
  {
    hide CivilOf, CivilFromDays, DecodeTime, EncodeTime, DayOf, SecondOf, DayCount, YearDays, MonthDays, MarchOk, Int32;
    var t := 135536077753372800;
    SomeYears();
    DayIs(t, 1568704603627, 0);
    assert Marched(10737423, 96, 0, 1) == Date(4294969296, 3, 1);
    CivilOfMarched(10737423, 96, 0, 1);
    CivilCut(DayOf(t));
    Year2000();
    StoredTimeReadsBack(t);
  }

  lemma DayIs(t: int, days: int, s: int)
    requires t == days * 86400 + s && 0 <= s < 86400
    ensures DayOf(t) == days
  {
    SplitIs(t);
  }

  lemma Year2000()
    ensures Int32(4294969296) == 2000
  {
  }

  /** The first of March of the least 32-bit year: its count wraps, and comes back as the day
      before. */
  lemma LowDateIsLost()
    ensures var d := Date(-LIMIT32 / 2, 3, 1);
            && DaysFromCivil(d) != DayCount(d) && CivilFromDays(DaysFromCivil(d)) == Date(-LIMIT32 / 2, 2, 29)
  {
    hide CivilOf, CivilFromDays, DaysFromCivil, DayCount, YearDays, MonthDays, MarchOk, Int32;
    var d := Date(-LIMIT32 / 2, 3, 1);
    CountFits(d);
    LowCount();
    LowMarch();
    CivilOfMarched(5368709, 47, 11, 29);
    CivilCut(DaysFromCivil(d));
    Int32Shift(LIMIT32 / 2, -1);
    Int32Is(-LIMIT32 / 2);
  }

  lemma LowCount()
    ensures DaysFromCivil(Date(-LIMIT32 / 2, 3, 1)) == 5368709 * 146097 + 17531 - 719468
  {
    hide Int32;
    Int32Is(-LIMIT32 / 2);
    Int32Low(-LIMIT32 / 2 - 399);
    Int32Is(5368708 * 400);
    Int32Low(-LIMIT32 / 2 - 5368708 * 400);
  }

  lemma LowMarch()
    ensures MarchOk(47, 11, 29) && YearDays(47) + MonthDays(11) + 28 == 17531
    ensures Marched(5368709, 47, 11, 29) == Date(LIMIT32 / 2, 2, 29)
  {
  }
}
