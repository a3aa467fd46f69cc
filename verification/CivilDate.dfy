/** Calendar dates from day numbers. */
module CivilDates {
  import opened Prelude

  datatype Date = Date(year: int, month: int, day: int)

  /** Division that drops the fraction, toward zero. */
  function TruncDiv(a: int, b: int): int
    requires b > 0
  {
    if a >= 0 then a / b else 0 - (0 - a) / b
  }

  // ------------------------------------------------------------- the conversion

  /** Year of a 400-year era, counted from March, that contains day `doe` of the era. */
  function YearOfEra(doe: int): int {
    (doe - doe / 1460 + doe / 36524 - doe / 146096) / 365
  }

  /** Days of the era before year `y`. */
  function YearStart(y: int): int {
    365 * y + y / 4 - y / 100
  }

  /** Days of a year before its `mp`-th month, counted from March. */
  function MonthStart(mp: int): int {
    (153 * mp + 2) / 5
  }

  function MonthOf(doy: int): int {
    (5 * doy + 2) / 153
  }

  function CalendarMonth(mp: int): int {
    if mp < 10 then mp + 3 else mp - 9
  }

  function CivilFromDays(days: int): Date {
    var z := days + 719468;
    var era := EraFor(z);
    CivilInEra(era, z - era * 146097)
  }

  function EraFor(z: int): int {
    TruncDiv(if z >= 0 then z else z - 146096, 146097)
  }

  function CivilInEra(era: int, doe: int): Date {
    var yoe := YearOfEra(doe);
    var y := yoe + era * 400;
    var doy := doe - YearStart(yoe);
    var mp := MonthOf(doy);
    var d := doy - MonthStart(mp) + 1;
    var m := CalendarMonth(mp);
    Date(if m <= 2 then y + 1 else y, m, d)
  }

  /** The copy behind the log time stamps, with divisions that round down. */
  function RfcDate(days: int): Date {
    var z := days + 719468;
    var era := z / 146097;
    RfcInEra(era, z - era * 146097)
  }

  function RfcInEra(era: int, doe: int): Date {
    var yoe := YearOfEra(doe);
    var doy := doe - YearStart(yoe);
    var mp := MonthOf(doy);
    var day := doy - MonthStart(mp) + 1;
    var month := CalendarMonth(mp);
    Date(yoe + era * 400 + (if month <= 2 then 1 else 0), month, day)
  }

  // ------------------------------------------------------------- the calendar

  predicate IsLeap(y: int) {
    y % 4 == 0 && (y % 100 != 0 || y % 400 == 0)
  }

  function DaysInMonth(y: int, m: int): int {
    if m == 2 then (if IsLeap(y) then 29 else 28)
    else if m == 4 || m == 6 || m == 9 || m == 11 then 30
    else 31
  }

  predicate ValidDate(d: Date) {
    1 <= d.month <= 12 && 1 <= d.day <= DaysInMonth(d.year, d.month)
  }

  function NextDay(d: Date): Date {
    if d.day < DaysInMonth(d.year, d.month) then Date(d.year, d.month, d.day + 1)
    else if d.month < 12 then Date(d.year, d.month + 1, 1)
    else Date(d.year + 1, 1, 1)
  }

  // ------------------------------------------------------------- eras and years

  lemma EraIsFloor(z: int)
    ensures EraFor(z) == z / 146097
    ensures 0 <= z - z / 146097 * 146097 <= 146096
  {
  }

  /** Length of year `y` of an era: the leap day is its last. */
  function YearLen(y: int): int {
    if (y + 1) % 4 == 0 && ((y + 1) % 100 != 0 || y == 399) then 366 else 365
  }

  lemma YearStarts(y: int)
    requires 0 <= y <= 399
    ensures YearStart(y) + YearLen(y) == if y == 399 then 146097 else YearStart(y + 1)
  {
  }

  lemma Parts(y: int)
    requires 0 <= y <= 399
    ensures y / 4 == 25 * (y / 100) + y % 100 / 4
    ensures YearStart(y) == 1460 * (y / 4) + 365 * (y % 4) + y / 4 - y / 100
    ensures YearStart(y) == 36524 * (y / 100) + 365 * (y % 100) + y % 100 / 4
  {
  }

  lemma Quotient1460(k: int, rest: int)
    ensures (1460 * k + rest) / 1460 == k + rest / 1460
  {
  }

  lemma Quotient36524(c: int, rest: int)
    ensures (36524 * c + rest) / 36524 == c + rest / 36524
  {
  }

  lemma Quotient365(y: int, rest: int)
    requires 0 <= rest <= 364
    ensures (365 * y + rest) / 365 == y
  {
  }

  /** What the corrections amount to, on an ordinary day and on a leap day. */
  lemma Corrections(y: int, doy: int)
    requires 0 <= y <= 399 && 0 <= doy < YearLen(y)
    ensures var a, b := 365 * (y % 4) + y / 4 - y / 100 + doy, 365 * (y % 100) + y % 100 / 4 + doy;
            0 <= doy - a / 1460 + b / 36524 - (YearStart(y) + doy) / 146096 <= 364
  {
    Parts(y);
    if doy == 365 {
      LeapCorrections(y);
    } else {
      PlainCorrections(y, doy);
    }
  }

  lemma PlainCorrections(y: int, doy: int)
    requires 0 <= y <= 399 && 0 <= doy <= 364
    ensures (365 * (y % 4) + y / 4 - y / 100 + doy) / 1460 <= (if doy > 0 then 1 else 0)
    ensures 0 <= (365 * (y % 4) + y / 4 - y / 100 + doy) / 1460
    ensures (365 * (y % 100) + y % 100 / 4 + doy) / 36524 == 0
    ensures (YearStart(y) + doy) / 146096 == 0
  {
  }

  lemma LeapCorrections(y: int)
    requires 0 <= y <= 399 && YearLen(y) == 366
    ensures (365 * (y % 4) + y / 4 - y / 100 + 365) / 1460 == 1
    ensures (365 * (y % 100) + y % 100 / 4 + 365) / 36524 == (if y == 399 then 1 else 0)
    ensures (YearStart(y) + 365) / 146096 == (if y == 399 then 1 else 0)
  {
    Parts(y);
  }

  /** The formula for the year is right on every day of every year of the era. */
  lemma YearFormula(y: int, doy: int)
    requires 0 <= y <= 399 && 0 <= doy < YearLen(y)
    ensures YearOfEra(YearStart(y) + doy) == y
  {
    var doe := YearStart(y) + doy;
    var a, b := 365 * (y % 4) + y / 4 - y / 100 + doy, 365 * (y % 100) + y % 100 / 4 + doy;
    Parts(y);
    Quotient1460(y / 4, a);
    Quotient36524(y / 100, b);
    Corrections(y, doy);
    assert doe - doe / 1460 + doe / 36524 - doe / 146096 == 365 * y + (doy - a / 1460 + b / 36524 - doe / 146096);
    Quotient365(y, doy - a / 1460 + b / 36524 - doe / 146096);
  }

  /** Every day of an era is in one of its years. */
  lemma {:induction false} FindYear(doe: int, top: int) returns (y: int)
    requires 0 <= doe && 0 <= top <= 399 && doe < YearStart(top) + YearLen(top)
    ensures 0 <= y <= top && YearStart(y) <= doe < YearStart(y) + YearLen(y)
    decreases top
  {
    if doe >= YearStart(top) {
      y := top;
    } else {
      YearStarts(top - 1);
      y := FindYear(doe, top - 1);
    }
  }

  // ------------------------------------------------------------- months

  /** Months counted from March: the day of the year determines the month and the day in it. */
  lemma MonthFormula(doy: int)
    requires 0 <= doy <= 365
    ensures 0 <= MonthOf(doy) <= 11 && MonthStart(MonthOf(doy)) <= doy < MonthStart(MonthOf(doy) + 1)
  {
  }

  /** The date of a day given by era, year of the era and day of the year. */
  function DateOf(era: int, y: int, doy: int): Date {
    var m := CalendarMonth(MonthOf(doy));
    Date(y + era * 400 + (if m <= 2 then 1 else 0), m, doy - MonthStart(MonthOf(doy)) + 1)
  }

  lemma MonthLengths(mp: int)
    requires 0 <= mp <= 10
    ensures MonthStart(mp + 1) - MonthStart(mp) == DaysInMonth(0, CalendarMonth(mp)) || CalendarMonth(mp) == 2
    ensures CalendarMonth(mp) != 2
  {
  }

  lemma LeapYears(era: int, y: int)
    requires 0 <= y <= 399
    ensures IsLeap(y + era * 400 + 1) <==> YearLen(y) == 366
  {
    LeapPeriod(y + 1, era);
  }

  /** Leap years repeat every 400 years. */
  lemma LeapPeriod(y: int, era: int)
    ensures IsLeap(y + era * 400) <==> IsLeap(y)
  {
    Remainder4(y, 100 * era);
    Remainder100(y, 4 * era);
    Remainder400(y, era);
  }

  lemma Remainder4(y: int, e: int)
    ensures (y + 4 * e) % 4 == y % 4
  {
  }

  lemma Remainder100(y: int, e: int)
    ensures (y + 100 * e) % 100 == y % 100
  {
  }

  lemma Remainder400(y: int, e: int)
    ensures (y + 400 * e) % 400 == y % 400
  {
  }

  lemma DateOfIsValid(era: int, y: int, doy: int)
    requires 0 <= y <= 399 && 0 <= doy < YearLen(y)
    ensures ValidDate(DateOf(era, y, doy))
  {
    MonthFormula(doy);
    LeapYears(era, y);
    if MonthOf(doy) <= 10 { MonthLengths(MonthOf(doy)); }
  }

  /** Inside a year the next day has the next date. */
  lemma NextInYear(era: int, y: int, doy: int)
    requires 0 <= y <= 399 && 0 <= doy && doy + 1 < YearLen(y)
    ensures DateOf(era, y, doy + 1) == NextDay(DateOf(era, y, doy))
  {
    MonthFormula(doy);
    MonthFormula(doy + 1);
    LeapYears(era, y);
    if MonthOf(doy) <= 10 { MonthLengths(MonthOf(doy)); }
  }

  /** The year ends with February, and the next one begins with the first of March. */
  lemma NextYear(era: int, y: int, doy: int, march: Date)
    requires 0 <= y <= 399 && doy == YearLen(y) - 1 && march == Date(y + era * 400 + 1, 3, 1)
    ensures NextDay(DateOf(era, y, doy)) == march
  {
    LeapYears(era, y);
  }

  lemma FirstOfMarch(era: int, y: int, march: Date)
    requires march == Date(y + era * 400, 3, 1)
    ensures DateOf(era, y, 0) == march
  {
  }

  // ------------------------------------------------------------- the conversion is right

  /** The day number of a day of a year of an era. */
  predicate IsDay(days: int, era: int, y: int, doy: int) {
    0 <= y <= 399 && 0 <= doy < YearLen(y) && days + 719468 == era * 146097 + (YearStart(y) + doy)
  }

  /** Every day number is a day of a year of an era. */
  lemma Located(days: int) returns (era: int, y: int, doy: int)
    ensures IsDay(days, era, y, doy)
  {
    var z := days + 719468;
    era := z / 146097;
    EraIsFloor(z);
    YearStarts(399);
    y := FindYear(z - era * 146097, 399);
    doy := z - era * 146097 - YearStart(y);
  }

  lemma DayInEra(y: int, doy: int)
    requires 0 <= y <= 399 && 0 <= doy < YearLen(y)
    ensures 0 <= YearStart(y) + doy <= 146096
  {
  }

  lemma EraOf(era: int, doe: int)
    requires 0 <= doe <= 146096
    ensures (era * 146097 + doe) / 146097 == era
  {
  }

  lemma InEra(era: int, y: int, doy: int)
    requires 0 <= y <= 399 && 0 <= doy < YearLen(y)
    ensures RfcInEra(era, YearStart(y) + doy) == DateOf(era, y, doy)
  {
    YearFormula(y, doy);
  }

  lemma CivilIn(era: int, y: int, doy: int)
    requires 0 <= y <= 399 && 0 <= doy < YearLen(y)
    ensures CivilInEra(era, YearStart(y) + doy) == DateOf(era, y, doy)
  {
    YearFormula(y, doy);
  }

  lemma EraOfDay(days: int, era: int, y: int, doy: int)
    requires IsDay(days, era, y, doy)
    ensures var z := days + 719468; EraFor(z) == z / 146097 == era && z - era * 146097 == YearStart(y) + doy
  {
    DayInEra(y, doy);
    EraIsFloor(days + 719468);
    EraOf(era, YearStart(y) + doy);
  }

  /** The conversion gives the date of that day of that year. */
  lemma CivilOfDay(days: int, era: int, y: int, doy: int)
    requires IsDay(days, era, y, doy)
    ensures CivilFromDays(days) == DateOf(era, y, doy)
  {
    EraOfDay(days, era, y, doy);
    CivilIn(era, y, doy);
  }

  lemma RfcOfDay(days: int, era: int, y: int, doy: int)
    requires IsDay(days, era, y, doy)
    ensures RfcDate(days) == DateOf(era, y, doy)
  {
    EraOfDay(days, era, y, doy);
    InEra(era, y, doy);
  }

  /** Both copies of the conversion agree on every day. */
  lemma CopiesAgree(days: int)
    ensures CivilFromDays(days) == RfcDate(days)
  {
    var era, y, doy := Located(days);
    CivilOfDay(days, era, y, doy);
    RfcOfDay(days, era, y, doy);
  }

  lemma Epoch()
    ensures CivilFromDays(0) == Date(1970, 1, 1)
  {
    CivilOfDay(0, 4, 369, 306);
    MonthFormula(306);
  }

  lemma AlwaysValid(days: int)
    ensures ValidDate(CivilFromDays(days))
  {
    var era, y, doy := Located(days);
    CivilOfDay(days, era, y, doy);
    DateOfIsValid(era, y, doy);
  }

  /** The day after, located the same way. */
  predicate IsNext(era: int, y: int, doy: int, era': int, y': int, doy': int) {
    if doy + 1 < YearLen(y) then era' == era && y' == y && doy' == doy + 1
    else if y < 399 then era' == era && y' == y + 1 && doy' == 0
    else era' == era + 1 && y' == 0 && doy' == 0
  }

  lemma NextIsDay(days: int, era: int, y: int, doy: int) returns (era': int, y': int, doy': int)
    requires IsDay(days, era, y, doy)
    ensures IsDay(days + 1, era', y', doy') && IsNext(era, y, doy, era', y', doy')
  {
    YearStarts(y);
    if doy + 1 < YearLen(y) {
      era', y', doy' := era, y, doy + 1;
    } else if y < 399 {
      era', y', doy' := era, y + 1, 0;
    } else {
      era', y', doy' := era + 1, 0, 0;
    }
  }

  lemma NextDate(era: int, y: int, doy: int, era': int, y': int, doy': int)
    requires 0 <= y <= 399 && 0 <= doy < YearLen(y) && IsNext(era, y, doy, era', y', doy')
    ensures DateOf(era', y', doy') == NextDay(DateOf(era, y, doy))
  {
    if doy + 1 < YearLen(y) {
      NextInYear(era, y, doy);
    } else {
      var march := Date(y + era * 400 + 1, 3, 1);
      FirstOfMarch(era', y', march);
      NextYear(era, y, doy, march);
    }
  }

  /** Each day number has the date after the one before. */
  lemma Successor(days: int)
    ensures CivilFromDays(days + 1) == NextDay(CivilFromDays(days))
  {
    var era, y, doy := Located(days);
    var era', y', doy' := NextIsDay(days, era, y, doy);
    NextDate(era, y, doy, era', y', doy');
    CivilOfDay(days, era, y, doy);
    CivilOfDay(days + 1, era', y', doy');
  }
}
