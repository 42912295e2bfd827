/**
 * What the generator reads off its text: the date fields of the form and the
 * "DD/MM" keys of the calendar's events, down to the days they name.
 */
module LessonPlanFacts {
  import opened Wrappers
  import opened Text
  import opened JsNumber
  import opened ParseIntFacts
  import opened Gregorian
  import opened Types
  import opened CalendarLayout
  import opened LessonPlan

  /** A count typed as digits is kept; a negative count becomes 0. */
  lemma GradeInputRoundTrip(n: nat)
    ensures GradeInput(NatToString(n)) == n
    ensures GradeInput("-" + NatToString(n)) == 0
  {
    var s := NatToString(n);
    DigitsValueOfNatToString(n);
    GradeInputOfDigits(s, n);
    GradeInputOfNegative(s, n);
  }

  lemma GradeInputOfDigits(s: string, n: nat)
    requires |s| >= 1 && AllDigits(s) && n == DigitsValue(s)
    ensures GradeInput(s) == n
  {
    assert [] + s + [] == s;
    ParseIntNumeral([], s, [], n);
  }

  lemma GradeInputOfNegative(s: string, n: nat)
    requires |s| >= 1 && AllDigits(s) && n == DigitsValue(s)
    ensures GradeInput("-" + s) == 0
  {
    ParseIntNegative(s, n);
  }

  lemma DigitsExclude(s: string, c: char)
    requires AllDigits(s) && !IsDigit(c)
    ensures c !in s
  {
    forall i | 0 <= i < |s| ensures s[i] != c {
      assert IsDigit(s[i]);
    }
  }

  lemma NumberOfTwoDigits(n: nat)
    requires n < 100
    ensures Number(TwoDigits(n)) == Some(n)
  {
    TwoDigitsValue(n);
    NumberOfDigits(TwoDigits(n));
  }

  /** `parseLocalDate` on a string whose first three '-' pieces read as the numbers `y`, `m` and `d`. */
  lemma ParseLocalDateOfNumbers(s: string, y: int, m: int, d: int)
    requires var parts := Split(s, '-');
      |parts| >= 3 && Number(parts[0]) == Some(y) && Number(parts[1]) == Some(m) && Number(parts[2]) == Some(d)
    requires 1 <= m <= 12 && 1 <= d <= DaysInMonth(JsYear(y), m - 1)
    ensures ParseLocalDate(s) == Some(LocalDate(JsYear(y), m - 1, d))
  {
  }

  /** The value of a date field, "Y-MM-DD", is the year Y, the 0-based month MM - 1 and the day DD. */
  lemma ParseLocalDateIso(y: nat, m: nat, d: nat)
    requires y >= 100 && 1 <= m <= 12 && 1 <= d <= DaysInMonth(y, m - 1)
    ensures ParseLocalDate(NatToString(y) + "-" + TwoDigits(m) + "-" + TwoDigits(d)) == Some(LocalDate(y, m - 1, d))
  {
    IsoPieces(y, m, d);
    ParseLocalDateOfNumbers(NatToString(y) + "-" + TwoDigits(m) + "-" + TwoDigits(d), y, m, d);
  }

  /** The three '-' pieces of "Y-MM-DD" read as Y, MM and DD. */
  lemma IsoPieces(y: nat, m: nat, d: nat)
    requires m < 100 && d < 100
    ensures var parts := Split(NatToString(y) + "-" + TwoDigits(m) + "-" + TwoDigits(d), '-');
      |parts| == 3 && Number(parts[0]) == Some(y) && Number(parts[1]) == Some(m) && Number(parts[2]) == Some(d)
  {
    var a, b, c := NatToString(y), TwoDigits(m), TwoDigits(d);
    TwoDigitsValue(m);
    TwoDigitsValue(d);
    DigitsExclude(a, '-');
    DigitsExclude(b, '-');
    DigitsExclude(c, '-');
    SplitThree(a, b, c, '-');
    NumberOfNatToString(y);
    NumberOfTwoDigits(m);
    NumberOfTwoDigits(d);
  }

  /** An event whose two pieces read as the numbers `d` and `m` is placed by `PlaceEvent`. */
  lemma EventDayParsed(data: string, start: LocalDate, d: int, m: int)
    requires var pieces := Split(data, '/'); |pieces| >= 2 && Number(pieces[0]) == Some(d) && Number(pieces[1]) == Some(m)
    ensures EventDay(data, start) == Some(PlaceEvent(start, d, m))
  {
  }

  /** The day of an event whose pieces read as the numbers `d` and `m`. */
  lemma EventDayOfNumbers(data: string, start: LocalDate, d: int, m: int)
    requires var pieces := Split(data, '/'); |pieces| >= 2 && Number(pieces[0]) == Some(d) && Number(pieces[1]) == Some(m)
    ensures var first := MakeDay(start.ano, m - 1, d);
      EventDay(data, start) == Some(if first < DayOf(start) && m == 1 then MakeDay(start.ano + 1, 0, d) else first)
  {
    EventDayParsed(data, start, d, m);
    PlaceEventJanuary(start, d, m);
  }

  lemma PlaceEventJanuary(start: LocalDate, d: int, m: int)
    ensures var first := MakeDay(start.ano, m - 1, d);
      PlaceEvent(start, d, m) == if first < DayOf(start) && m == 1 then MakeDay(start.ano + 1, 0, d) else first
  {
  }

  /**
   * An event the calendar stores on day `d` of month `mes` (0-based), under
   * the key "DD/MM", is placed on day `d` of the 1-based month `mes + 1`.
   */
  lemma EventDayOfKey(d: nat, mes: nat, start: LocalDate)
    requires d < 100 && mes < 99
    ensures EventDay(DayKey(d, mes), start) == Some(PlaceEvent(start, d, mes + 1))
  {
    var a, b := TwoDigits(d), TwoDigits(mes + 1);
    TwoDigitsValue(d);
    TwoDigitsValue(mes + 1);
    DigitsExclude(a, '/');
    DigitsExclude(b, '/');
    SplitTwo(a, b, '/');
    NumberOfTwoDigits(d);
    NumberOfTwoDigits(mes + 1);
    EventDayParsed(a + "/" + b, start, d, mes + 1);
  }

  /**
   * For a period from 1 November of a year to 28 February of the next, an
   * event the calendar stores on a day of January (key "DD/01") is read in
   * January of the next year and kept, while one stored on a day of February
   * ("DD/02") stays in the start's year and is dropped: only January moves to
   * the next year.
   */
  lemma JanuaryRollover(ano: int, d: nat)
    requires ano >= 100 && 1 <= d <= 28
    ensures var start, end := Some(LocalDate(ano, 10, 1)), Some(LocalDate(ano + 1, 1, 28));
      InPeriod(Evento(DayKey(d, 0), "", "FERIAS"), start, end) &&
      !InPeriod(Evento(DayKey(d, 1), "", "AULA"), start, end)
  {
    JanuaryKept(ano, d, 0);
    FebruaryDropped(ano, d, 1);
  }

  /** The January key `DayKey(d, mes)`, `mes` = 0, is kept. */
  lemma JanuaryKept(ano: int, d: nat, mes: nat)
    requires ano >= 100 && 1 <= d <= 28 && mes == 0
    ensures InPeriod(Evento(DayKey(d, mes), "", "FERIAS"), Some(LocalDate(ano, 10, 1)), Some(LocalDate(ano + 1, 1, 28)))
  {
    var ev := Evento(DayKey(d, mes), "", "FERIAS");
    WinterDays(ano, d);
    EventDayOfKey(d, mes, LocalDate(ano, 10, 1));
    PlaceEventRolls(ano, 10, 1, d, mes + 1);
    InPeriodOfDay(ev, LocalDate(ano, 10, 1), LocalDate(ano + 1, 1, 28), MakeDay(ano + 1, 0, d));
  }

  /** The February key `DayKey(d, mes)`, `mes` = 1, is dropped. */
  lemma FebruaryDropped(ano: int, d: nat, mes: nat)
    requires ano >= 100 && 1 <= d <= 28 && mes == 1
    ensures !InPeriod(Evento(DayKey(d, mes), "", "AULA"), Some(LocalDate(ano, 10, 1)), Some(LocalDate(ano + 1, 1, 28)))
  {
    var ev := Evento(DayKey(d, mes), "", "AULA");
    WinterDays(ano, d);
    EventDayOfKey(d, mes, LocalDate(ano, 10, 1));
    PlaceEventStays(ano, 10, 1, d, mes + 1);
    InPeriodOfDay(ev, LocalDate(ano, 10, 1), LocalDate(ano + 1, 1, 28), MakeDay(ano, mes, d));
  }

  /** A January event that falls before the start moves to the next year. */
  lemma PlaceEventRolls(ano: int, mes: int, dia: int, d: int, m: int)
    requires m == 1 && MakeDay(ano, 0, d) < DayOf(LocalDate(ano, mes, dia))
    ensures PlaceEvent(LocalDate(ano, mes, dia), d, m) == MakeDay(ano + 1, 0, d)
  {
  }

  /** An event of any other month stays in the start's year. */
  lemma PlaceEventStays(ano: int, mes: int, dia: int, d: int, m: int)
    requires m != 1
    ensures PlaceEvent(LocalDate(ano, mes, dia), d, m) == MakeDay(ano, m - 1, d)
  {
  }

  /** An event placed on day `t` is in the period exactly when `t` lies between its ends. */
  lemma InPeriodOfDay(ev: Evento, start: LocalDate, end: LocalDate, t: int)
    requires EventDay(ev.data, start) == Some(t)
    ensures InPeriod(ev, Some(start), Some(end)) <==> DayOf(start) <= t <= DayOf(end)
  {
  }

  /**
   * January and February of a year come before its 1 November, and January of
   * the next year lies between that day and 28 February of the next year.
   */
  lemma WinterDays(ano: int, d: int)
    requires ano >= 100 && 1 <= d <= 28
    ensures MakeDay(ano, 0, d) < DayOf(LocalDate(ano, 10, 1))
    ensures MakeDay(ano, 1, d) < DayOf(LocalDate(ano, 10, 1))
    ensures DayOf(LocalDate(ano, 10, 1)) <= MakeDay(ano + 1, 0, d) <= DayOf(LocalDate(ano + 1, 1, 28))
  {
    MakeDayInYear(ano, 0, d);
    MakeDayInYear(ano, 1, d);
    MakeDayInYear(ano, 10, 1);
    MakeDayInYear(ano + 1, 0, d);
    MakeDayInYear(ano + 1, 1, 28);
    YearStep(ano);
    MonthsFillYear(ano);
    assert DaysBeforeMonth(ano, 11) == DaysBeforeMonth(ano, 10) + 30;
  }
}
