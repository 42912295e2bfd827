/**
 * The on-screen month grid of the calendar (components/CalendarView.tsx,
 * renderMonth): which month and year an absolute month index denotes, the
 * leading spacers, one cell per day, the events attached to each day, their
 * captions and the colour of the cell.
 *
 * `MonthSpec` states the grid declaratively; the loops that build it live in
 * the `Calendar` class and are proved equal to it.
 */
module CalendarLayout {
  import opened Wrappers
  import opened Text
  import opened Gregorian
  import opened Types
  import opened Seqs

  /** `String(n).padStart(2, '0')`. */
  function TwoDigits(n: nat): string
  {
    PadStart(NatToString(n), 2, '0')
  }

  /** A number below 100 becomes two digits that read back as the number. */
  lemma TwoDigitsValue(n: nat)
    requires n < 100
    ensures |TwoDigits(n)| == 2 && AllDigits(TwoDigits(n))
    ensures DigitsValue(TwoDigits(n)) == n
  {
    var s := NatToString(n);
    DigitsValueOfNatToString(n);
    if n < 10 {
      var t := TwoDigits(n);
      assert t == Repeat('0', 1) + s;
      assert t[..1] == "0" && t[1..] == s;
      assert DigitsValue(s) == s[0] as int - '0' as int by { assert s[..0] == []; }
      assert DigitsValue(t[..1]) == 0 by { assert t[..1][..0] == []; }
    }
  }

  /** The `DD/MM` key of day `d` of month `mes` (0-based): `dataId`. */
  function DayKey(d: nat, mes: nat): string
  {
    TwoDigits(d) + "/" + TwoDigits(mes + 1)
  }

  /** The key of a day is two digits for the day, a slash and two digits for the 1-based month. */
  lemma DayKeyFields(d: nat, mes: nat)
    requires d < 100 && mes < 99
    ensures |DayKey(d, mes)| == 5 && DayKey(d, mes)[2] == '/'
    ensures DayKey(d, mes)[..2] == TwoDigits(d) && DayKey(d, mes)[3..] == TwoDigits(mes + 1)
  {
    var a := TwoDigits(d);
    var b := TwoDigits(mes + 1);
    assert |a| == 2 && |b| == 2 by {
      TwoDigitsLength(d);
      TwoDigitsLength(mes + 1);
    }
    ConcatParts(a, "/", b);
  }

  lemma TwoDigitsLength(n: nat)
    requires n < 100
    ensures |TwoDigits(n)| == 2
  {
  }

  /** Different days of the year have different keys, so no event lands on two cells. */
  lemma DayKeyInjective(d1: nat, m1: nat, d2: nat, m2: nat)
    requires d1 < 100 && m1 < 99 && d2 < 100 && m2 < 99
    requires DayKey(d1, m1) == DayKey(d2, m2)
    ensures d1 == d2 && m1 == m2
  {
    assert TwoDigits(d1) == TwoDigits(d2) && TwoDigits(m1 + 1) == TwoDigits(m2 + 1) by {
      DayKeyFields(d1, m1);
      DayKeyFields(d2, m2);
    }
    TwoDigitsInjective(d1, d2);
    TwoDigitsInjective(m1 + 1, m2 + 1);
  }

  lemma TwoDigitsInjective(x: nat, y: nat)
    requires x < 100 && y < 100 && TwoDigits(x) == TwoDigits(y)
    ensures x == y
  {
    TwoDigitsValue(x);
    TwoDigitsValue(y);
  }

  /** The filter test of a day: the event's trimmed date is the day's key. */
  function OnDay(key: string): Evento -> bool
  {
    (e: Evento) => Trim(e.data) == key
  }

  /** `eventos.filter(e => e.data.trim() === key)`. */
  function EventsOn(eventos: seq<Evento>, key: string): (r: seq<Evento>)
    ensures |r| <= |eventos|
    ensures forall i :: 0 <= i < |r| ==> Trim(r[i].data) == key
  {
    Filter(eventos, OnDay(key))
  }

  /** The events of a day keep the order of the event list: filtering distributes over concatenation. */
  lemma EventsOnAppend(a: seq<Evento>, b: seq<Evento>, key: string)
    ensures EventsOn(a + b, key) == EventsOn(a, key) + EventsOn(b, key)
  {
    FilterAppend(a, b, OnDay(key));
  }

  /** A day holds exactly the events whose trimmed date is its key. */
  lemma EventsOnExact(eventos: seq<Evento>, key: string, e: Evento)
    ensures e in EventsOn(eventos, key) <==> e in eventos && Trim(e.data) == key
  {
    FilterMembers(eventos, OnDay(key));
  }

  /** The caption of the `idx`-th event of a day with `n` events: numbered only when there are several. */
  function Caption(n: nat, idx: nat): string
  {
    if n > 1 then "Evento " + NatToString(idx + 1) else "Informa\U{E7}\U{E3}o"
  }

  /** Captions tell the events of a busy day apart, and a single event gets the generic caption. */
  lemma CaptionsDistinct(n: nat, i: nat, j: nat)
    requires i < n && j < n
    ensures n == 1 ==> Caption(n, i) == "Informa\U{E7}\U{E3}o"
    ensures n > 1 && i != j ==> Caption(n, i) != Caption(n, j)
  {
    if n > 1 && i != j {
      NatToStringInjective(i + 1, j + 1);
      PrefixKeepsApart("Evento ", NatToString(i + 1), NatToString(j + 1));
    }
  }

  /** One line of a day's tooltip: its caption and the event's text. */
  datatype Tip = Tip(titulo: string, texto: string)

  function Tips(evs: seq<Evento>): (r: seq<Tip>)
    ensures |r| == |evs|
    ensures forall i :: 0 <= i < |evs| ==> r[i].texto == evs[i].legenda && r[i].titulo == Caption(|evs|, i)
  {
    seq(|evs|, i requires 0 <= i < |evs| => Tip(Caption(|evs|, i), evs[i].legenda))
  }

  /**
   * `CORES_MAPA[cor] || (cor.startsWith('#') ? cor : null)`: the palette's
   * colour for the token, else the token itself when it is a `#` literal.
   * An empty palette entry is falsy and falls through.
   */
  function ColourValue(palette: map<string, string>, cor: string): (r: Option<string>)
    ensures r.Some? ==> r.value != []
    ensures r.None? <==> (cor !in palette || palette[cor] == []) && !StartsWith(cor, "#")
    ensures cor in palette && palette[cor] != [] ==> r == Some(palette[cor])
  {
    if cor in palette && palette[cor] != [] then Some(palette[cor])
    else if StartsWith(cor, "#") then Some(cor)
    else None
  }

  /** How a day cell is painted. */
  datatype Look =
    | Background(cor: string)   // inline background colour, white text
    | ColourClass(cls: string)  // the token used as a style class, white text
    | SundayTint
    | SaturdayTint
    | Plain

  /** The colour precedence of a day cell: the first event's colour, otherwise a weekend tint. */
  function CellLook(palette: map<string, string>, evs: seq<Evento>, diaSemana: int): (r: Look)
    ensures evs != [] ==> (r.Background? || r.ColourClass?)
    ensures r.SundayTint? <==> evs == [] && diaSemana == 0
    ensures r.SaturdayTint? <==> evs == [] && diaSemana == 6
    ensures r.ColourClass? ==> evs != [] && r.cls == evs[0].cor && ColourValue(palette, evs[0].cor).None?
    ensures r.Background? ==> evs != [] && Some(r.cor) == ColourValue(palette, evs[0].cor)
  {
    if evs != [] then
      match ColourValue(palette, evs[0].cor)
      case Some(hex) => Background(hex)
      case None => ColourClass(evs[0].cor)
    else if diaSemana == 0 then SundayTint
    else if diaSemana == 6 then SaturdayTint
    else Plain
  }

  /** A cell of the month grid. */
  datatype Cell =
    | Spacer
    | Day(dia: nat, chave: string, eventos: seq<Evento>, dicas: seq<Tip>, visual: Look)

  /** The cell of day `d` of month `mes` falling on weekday `diaSemana`. */
  function DayCellAt(eventos: seq<Evento>, palette: map<string, string>, mes: nat, d: nat, diaSemana: int): Cell
  {
    var key := DayKey(d, mes);
    var evs := EventsOn(eventos, key);
    Day(d, key, evs, Tips(evs), CellLook(palette, evs, diaSemana))
  }

  /** The cell renderMonth builds for day `d`: its weekday is `new Date(ano, mes, d).getDay()`. */
  function DayCell(eventos: seq<Evento>, palette: map<string, string>, ano: int, mes: nat, d: nat): Cell
  {
    DayCellAt(eventos, palette, mes, d, Weekday(MakeDay(ano, mes, d)))
  }

  /** A rendered month: its 0-based month, its year and its cells. */
  datatype MonthView = MonthView(mes: nat, ano: int, dias: seq<Cell>)

  /** The month `abs` months after January of `anoAtual`. */
  function MonthOf(anoAtual: int, abs: nat): (r: (nat, int))
    ensures r.0 < 12
    ensures 12 * (r.1 - anoAtual) + r.0 == abs
  {
    (abs % 12, anoAtual + abs / 12)
  }

  /**
   * `new Date(ano, mes, 1).getDay()`: the weekday of the first day of a
   * month, the number of leading spacers. January starts on the weekday of
   * 1 January of `JsYear(ano)`; each later month starts where the previous
   * one ends (`FirstWeekdayIsGetDay` shows the two readings agree).
   */
  function FirstWeekday(ano: int, mes: nat): (w: int)
    requires mes < 12
    ensures 0 <= w < 7
    decreases mes
  {
    if mes == 0 then Weekday(DaysBeforeYear(JsYear(ano)))
    else (FirstWeekday(ano, mes - 1) + MonthLength(ano, mes - 1)) % 7
  }

  /**
   * `new Date(ano, mes + 1, 0).getDate()`: the length of the month. The
   * `Date` constructor reads years 0..99 as 19xx, so the month length is
   * that of the year `JsYear(ano)`; `LastDayOfMonth` shows the day denoted is
   * the last one of the month.
   */
  function MonthLength(ano: int, mes: nat): (n: int)
    requires mes < 12
    ensures 28 <= n <= 31
  {
    DaysInMonth(JsYear(ano), mes)
  }

  /** The grid of absolute month `abs`: `FirstWeekday` spacers, then the days 1..length. */
  function MonthSpec(eventos: seq<Evento>, palette: map<string, string>, anoAtual: int, abs: nat): MonthView
  {
    var (mes, ano) := MonthOf(anoAtual, abs);
    MonthView(mes, ano, GridCells(eventos, palette, mes, FirstWeekday(ano, mes), MonthLength(ano, mes)))
  }

  /** The grid of each absolute month, counted from `inicio`. */
  function MonthsFrom(eventos: seq<Evento>, palette: map<string, string>, anoAtual: int, inicio: nat): nat -> MonthView {
    (k: nat) => MonthSpec(eventos, palette, anoAtual, inicio + k)
  }

  /** The months on screen: the grids of `n` consecutive absolute months from `inicio`. */
  function Window(eventos: seq<Evento>, palette: map<string, string>, anoAtual: int, inicio: nat, n: nat): (w: seq<MonthView>)
    ensures |w| == n
  {
    Tabulate(n, MonthsFrom(eventos, palette, anoAtual, inicio))
  }

  /**
   * The cells of month `mes` when it opens with `first` spacers and has `n`
   * days: day `d` sits at position `first + d - 1`, whose column
   * `(first + d - 1) % 7` is its weekday.
   */
  function GridCells(eventos: seq<Evento>, palette: map<string, string>, mes: nat, first: nat, n: nat): seq<Cell>
  {
    Framed(Spacer, first, n, d => GridDay(eventos, palette, mes, first, d), 0)
  }

  /** Day `d` of a month opening with `first` spacers: the weekday is its column `(first + d - 1) % 7`. */
  function GridDay(eventos: seq<Evento>, palette: map<string, string>, mes: nat, first: nat, d: nat): Cell
  {
    DayCellAt(eventos, palette, mes, d, (first + d - 1) % 7)
  }
}

/**
 * What the month grid of `CalendarLayout` shows: where the spacers and the
 * days are, that each day sits in the column of its weekday, and how the
 * months follow each other.
 */
module GridFacts {
  import opened Text
  import opened Gregorian
  import opened Types
  import opened Seqs
  import opened CalendarLayout

  /** The month after `abs` is the next month of the same year, or January of the next year after December. */
  lemma MonthRollover(anoAtual: int, abs: nat)
    ensures MonthOf(anoAtual, abs).0 < 11 ==>
      MonthOf(anoAtual, abs + 1) == (MonthOf(anoAtual, abs).0 + 1, MonthOf(anoAtual, abs).1)
    ensures MonthOf(anoAtual, abs).0 == 11 ==>
      MonthOf(anoAtual, abs + 1) == (0, MonthOf(anoAtual, abs).1 + 1)
  {
  }

  /** The first weekday of a month is the weekday of the day `new Date(ano, mes, 1)` denotes. */
  lemma FirstWeekdayIsGetDay(ano: int, mes: nat)
    requires mes < 12
    ensures FirstWeekday(ano, mes) == Weekday(MakeDay(ano, mes, 1))
  {
    MakeDayInYear(ano, mes, 1);
    FirstWeekdayOfStart(ano, mes);
  }

  /** The first weekday of a month is the weekday of its first day in the year `Date` reads `ano` as. */
  lemma {:induction false} FirstWeekdayOfStart(ano: int, mes: nat)
    requires mes < 12
    ensures FirstWeekday(ano, mes) == Weekday(DayNumber(JsYear(ano), mes, 1))
    decreases mes
  {
    if mes == 0 {
      JanuaryStart(JsYear(ano));
    } else {
      FirstWeekdayOfStart(ano, mes - 1);
      FirstWeekdayStep(ano, mes);
      MonthStartStep(JsYear(ano), mes);
      WeekdayShift(FirstWeekday(ano, mes - 1), DayNumber(JsYear(ano), mes - 1, 1), DayNumber(JsYear(ano), mes, 1), MonthLength(ano, mes - 1));
    }
  }

  /** A month after January starts on the weekday reached from the previous month's start. */
  lemma FirstWeekdayStep(ano: int, mes: nat)
    requires 1 <= mes < 12
    ensures FirstWeekday(ano, mes) == (FirstWeekday(ano, mes - 1) + MonthLength(ano, mes - 1)) % 7
  {
  }

  /** The `d`-th day sits `d - 1` cells after day 1, in the column of its weekday. */
  lemma DayColumn(ano: int, mes: nat, d: nat)
    requires mes < 12 && d >= 1
    ensures (FirstWeekday(ano, mes) + d - 1) % 7 == Weekday(MakeDay(ano, mes, d))
  {
    FirstWeekdayIsGetDay(ano, mes);
    assert MakeDay(ano, mes, d) == MakeDay(ano, mes, 1) + (d - 1);
    WeekdayOffset(MakeDay(ano, mes, 1), d - 1);
  }

  /** The cell built for day `d` is the cell of day `d` in its weekday's column. */
  lemma DayCellColumn(eventos: seq<Evento>, palette: map<string, string>, ano: int, mes: nat, d: nat)
    requires mes < 12 && d >= 1
    ensures DayCell(eventos, palette, ano, mes, d) == GridDay(eventos, palette, mes, FirstWeekday(ano, mes), d)
  {
    DayColumn(ano, mes, d);
  }

  /** Where the spacers and the days are among a month's cells. */
  lemma GridCellsShape(eventos: seq<Evento>, palette: map<string, string>, mes: nat, first: nat, n: nat)
    ensures var g := GridCells(eventos, palette, mes, first, n);
      |g| == first + n &&
      (forall x :: 0 <= x < |g| ==> (g[x].Spacer? <==> x < first)) &&
      (forall d :: 1 <= d <= n ==> g[first + d - 1] == GridDay(eventos, palette, mes, first, d))
  {
    FramedAt(Spacer, first, n, d => GridDay(eventos, palette, mes, first, d), 0);
  }

  /** The month's place: month `abs % 12` of year `anoAtual + abs / 12`, and `FirstWeekday + MonthLength` cells. */
  lemma MonthSpecSize(eventos: seq<Evento>, palette: map<string, string>, anoAtual: int, abs: nat)
    ensures var v := MonthSpec(eventos, palette, anoAtual, abs);
      v.mes == abs % 12 && v.ano == anoAtual + abs / 12 &&
      |v.dias| == FirstWeekday(v.ano, v.mes) + MonthLength(v.ano, v.mes)
  {
    var (mes, ano) := MonthOf(anoAtual, abs);
    GridCellsShape(eventos, palette, mes, FirstWeekday(ano, mes), MonthLength(ano, mes));
  }

  /** The month and year a grid shows are those of `MonthOf`. */
  lemma MonthSpecPlace(eventos: seq<Evento>, palette: map<string, string>, anoAtual: int, abs: nat)
    ensures MonthSpec(eventos, palette, anoAtual, abs).mes == MonthOf(anoAtual, abs).0
    ensures MonthSpec(eventos, palette, anoAtual, abs).ano == MonthOf(anoAtual, abs).1
  {
  }

  /** Exactly the first `FirstWeekday` cells are spacers. */
  lemma MonthSpecSpacers(eventos: seq<Evento>, palette: map<string, string>, anoAtual: int, abs: nat)
    ensures var v := MonthSpec(eventos, palette, anoAtual, abs);
      forall x :: 0 <= x < |v.dias| ==> (v.dias[x].Spacer? <==> x < FirstWeekday(v.ano, v.mes))
  {
    var (mes, ano) := MonthOf(anoAtual, abs);
    GridCellsShape(eventos, palette, mes, FirstWeekday(ano, mes), MonthLength(ano, mes));
  }

  /**
   * Cell `FirstWeekday + d - 1` is day `d`: it carries the day's `DD/MM` key
   * and exactly the events filed under that key, it sits in the column
   * (position mod 7) of the day's weekday, and it is the cell built for it.
   */
  lemma MonthSpecDays(eventos: seq<Evento>, palette: map<string, string>, anoAtual: int, abs: nat, d: nat)
    requires 1 <= d <= MonthLength(MonthOf(anoAtual, abs).1, MonthOf(anoAtual, abs).0)
    ensures var (mes, ano) := MonthOf(anoAtual, abs);
      var v := MonthSpec(eventos, palette, anoAtual, abs);
      var x := FirstWeekday(ano, mes) + d - 1;
      x < |v.dias| && v.dias[x].Day? && v.dias[x].dia == d &&
      v.dias[x].chave == DayKey(d, mes) &&
      v.dias[x].eventos == EventsOn(eventos, DayKey(d, mes)) &&
      x % 7 == Weekday(MakeDay(ano, mes, d)) &&
      v.dias[x] == DayCell(eventos, palette, ano, mes, d)
  {
    var (mes, ano) := MonthOf(anoAtual, abs);
    var first := FirstWeekday(ano, mes);
    var w := Weekday(MakeDay(ano, mes, d));
    MonthSpecCells(eventos, palette, anoAtual, abs);
    DayColumn(ano, mes, d);
    GridDayAt(eventos, palette, mes, first, MonthLength(ano, mes), d, w);
  }

  /** The cells of the grid of month `abs` are those of its month and year. */
  lemma MonthSpecCells(eventos: seq<Evento>, palette: map<string, string>, anoAtual: int, abs: nat)
    ensures var (mes, ano) := MonthOf(anoAtual, abs);
      MonthSpec(eventos, palette, anoAtual, abs).dias ==
      GridCells(eventos, palette, mes, FirstWeekday(ano, mes), MonthLength(ano, mes))
  {
  }

  /** Day `d` of a grid, stated with its column `w` as a plain value. */
  lemma GridDayAt(eventos: seq<Evento>, palette: map<string, string>, mes: nat, first: nat, n: nat, d: nat, w: int)
    requires 1 <= d <= n && w == (first + d - 1) % 7
    ensures var g := GridCells(eventos, palette, mes, first, n);
      first + d - 1 < |g| && g[first + d - 1] == DayCellAt(eventos, palette, mes, d, w) &&
      g[first + d - 1].Day? && g[first + d - 1].dia == d &&
      g[first + d - 1].chave == DayKey(d, mes) &&
      g[first + d - 1].eventos == EventsOn(eventos, DayKey(d, mes))
  {
    var g := GridCells(eventos, palette, mes, first, n);
    FramedAt(Spacer, first, n, d => GridDay(eventos, palette, mes, first, d), 0);
    assert g[first + d - 1] == DayCellAt(eventos, palette, mes, d, w);
    DayCellFields(eventos, palette, mes, d, w);
  }

  /** The cell of a day carries the day, its `DD/MM` key and the events filed under that key. */
  lemma DayCellFields(eventos: seq<Evento>, palette: map<string, string>, mes: nat, d: nat, w: int)
    ensures var c := DayCellAt(eventos, palette, mes, d, w);
      c.Day? && c.dia == d && c.chave == DayKey(d, mes) && c.eventos == EventsOn(eventos, DayKey(d, mes))
  {
  }

  /** 1 January 2026 was a Thursday: the 2026 grid opens with four spacers. */
  lemma January2026()
    ensures FirstWeekday(2026, 0) == 4 && MonthLength(2026, 0) == 31
  {
    assert DaysBeforeYear(2026) == 739616;
  }

  /** February 2026 starts on a Sunday and has 28 days: four full weeks, no spacer. */
  lemma February2026()
    ensures FirstWeekday(2026, 1) == 0 && MonthLength(2026, 1) == 28
  {
    assert DaysBeforeYear(2026) == 739616;
    assert DaysBeforeMonth(2026, 1) == 31;
  }

  /** Year arguments 0..99 are read as 19xx: the grid of year 26 is the grid of 1926, not of 2026. */
  lemma TwoDigitYear()
    ensures FirstWeekday(26, 0) == FirstWeekday(1926, 0) && FirstWeekday(1926, 0) == 5
  {
    assert DaysBeforeYear(1926) == 703091;
  }

  /** Position `i` of the window is the grid of absolute month `inicio + i`. */
  lemma WindowAt(eventos: seq<Evento>, palette: map<string, string>, anoAtual: int, inicio: nat, n: nat, i: nat)
    requires i < n
    ensures Window(eventos, palette, anoAtual, inicio, n)[i] == MonthSpec(eventos, palette, anoAtual, inicio + i)
  {
    TabulateAt(n, MonthsFrom(eventos, palette, anoAtual, inicio), i);
  }

  /** Position `i` of the window shows month `(inicio + i) % 12` of year `anoAtual + (inicio + i) / 12`. */
  lemma WindowPlace(eventos: seq<Evento>, palette: map<string, string>, anoAtual: int, inicio: nat, n: nat, i: nat)
    requires i < n
    ensures var w := Window(eventos, palette, anoAtual, inicio, n);
      w[i].mes == MonthOf(anoAtual, inicio + i).0 && w[i].ano == MonthOf(anoAtual, inicio + i).1
  {
    WindowAt(eventos, palette, anoAtual, inicio, n, i);
    MonthSpecPlace(eventos, palette, anoAtual, inicio + i);
  }

  /**
   * The window shows consecutive months: the month after position `i` is
   * the next month of the same year, or January of the next year after
   * December.
   */
  lemma WindowConsecutive(eventos: seq<Evento>, palette: map<string, string>, anoAtual: int, inicio: nat, n: nat, i: nat)
    requires i + 1 < n
    ensures var w := Window(eventos, palette, anoAtual, inicio, n);
      (w[i].mes < 11 ==> w[i + 1].mes == w[i].mes + 1 && w[i + 1].ano == w[i].ano) &&
      (w[i].mes == 11 ==> w[i + 1].mes == 0 && w[i + 1].ano == w[i].ano + 1)
  {
    WindowPlace(eventos, palette, anoAtual, inicio, n, i);
    WindowPlace(eventos, palette, anoAtual, inicio, n, i + 1);
    MonthRollover(anoAtual, inicio + i);
  }
}
