/**
 * The printable year of the calendar (components/CalendarView.tsx,
 * exportarPDF): the events bucketed by month, each month as rows of a
 * seven-column table with the day cells coloured, the month's event list,
 * and the document as two pages of six months each followed by the legend.
 *
 * The HTML is represented by its structure: rows of cells and lists of
 * lines. Markup, inline styles and the rendering to PDF are not modelled.
 */
module CalendarPdf {
  import opened Wrappers
  import opened Text
  import opened JsNumber
  import opened ParseIntFacts
  import opened Gregorian
  import opened Seqs
  import opened Types
  import opened CalendarLayout
  import opened GridFacts

  // ---------------------------------------------------------------------------
  // Bucketing by month
  // ---------------------------------------------------------------------------

  /**
   * `parseInt(data.split('/')[1]) - 1` when it is a month index 0..11. With
   * no `/`, the second piece is `undefined` and `parseInt` gives NaN.
   */
  function PdfMonth(data: string): (r: Option<nat>)
    ensures r.Some? ==> r.value < 12
  {
    var parts := Split(data, '/');
    if |parts| < 2 then None
    else
      match ParseInt(parts[1])
      case None => None
      case Some(v) => if 1 <= v <= 12 then Some(v - 1) else None
  }

  /** The events of month `m`, in list order: the contents of `eventosPorMes[m]`. */
  function InMonth(eventos: seq<Evento>, m: nat): (r: seq<Evento>)
    ensures |r| <= |eventos|
    ensures forall i :: 0 <= i < |r| ==> PdfMonth(r[i].data) == Some(m)
  {
    if eventos == [] then []
    else
      var last := eventos[|eventos| - 1];
      InMonth(eventos[..|eventos| - 1], m) + (if PdfMonth(last.data) == Some(m) then [last] else [])
  }

  /** The bucketing loop: twelve buckets, each event pushed onto the bucket of its month, if any. */
  method BucketByMonth(eventos: seq<Evento>) returns (buckets: seq<seq<Evento>>)
    ensures |buckets| == 12
    ensures forall m :: 0 <= m < 12 ==> buckets[m] == InMonth(eventos, m)
  {
    buckets := seq(12, _ => []);
    for i := 0 to |eventos|
      invariant |buckets| == 12
      invariant forall m :: 0 <= m < 12 ==> buckets[m] == InMonth(eventos[..i], m)
    {
      assert eventos[..i + 1][..i] == eventos[..i];
      var e := eventos[i];
      var mes := PdfMonth(e.data);
      if mes.Some? {
        buckets := buckets[mes.value := buckets[mes.value] + [e]];
      }
    }
    assert eventos[..|eventos|] == eventos;
  }

  /** An event is in bucket `m` exactly when it is in the list and its date names month `m + 1`. */
  lemma {:induction false} InMonthExact(eventos: seq<Evento>, m: nat, e: Evento)
    ensures e in InMonth(eventos, m) <==> e in eventos && PdfMonth(e.data) == Some(m)
    decreases |eventos|
  {
    if eventos != [] {
      var init := eventos[..|eventos| - 1];
      InMonthExact(init, m, e);
      assert eventos == init + [eventos[|eventos| - 1]];
    }
  }

  /** White space and digits are not slashes. */
  lemma NoSlash(w: string, a: string)
    requires AllSpace(w) && AllDigits(a)
    ensures '/' !in w && '/' !in a
  {
    forall i | 0 <= i < |w| ensures w[i] != '/' {
      assert IsSpace(w[i]);
    }
    forall i | 0 <= i < |a| ensures a[i] != '/' {
      assert IsDigit(a[i]);
    }
  }

  /** A date whose second piece is two digits naming month `mes + 1`, possibly followed by white space, falls in bucket `mes`. */
  lemma PdfMonthOfPieces(x: string, b: string, w: string, mes: nat)
    requires mes < 12 && '/' !in x && AllSpace(w)
    requires |b| == 2 && AllDigits(b) && DigitsValue(b) == mes + 1
    ensures PdfMonth(x + "/" + (b + w)) == Some(mes)
  {
    NoSlash(w, b);
    SplitTwo(x, b + w, '/');
    assert [] + b + w == b + w;
    ParseIntNumeral([], b, w, mes + 1);
  }

  /** A string is its leading white space, its trimmed text and its trailing white space. */
  lemma Regroup(w1: string, a: string, b: string, w2: string)
    ensures w1 + (a + "/" + b) + w2 == (w1 + a) + "/" + (b + w2)
  {
  }

  /** A date reading `a/b` once trimmed, with `a` digits and `b` two digits naming month `mes + 1`, falls in bucket `mes`. */
  lemma TrimmedKeyMonth(data: string, a: string, b: string, mes: nat)
    requires mes < 12 && AllDigits(a)
    requires |b| == 2 && AllDigits(b) && DigitsValue(b) == mes + 1
    requires Trim(data) == a + "/" + b
    ensures PdfMonth(data) == Some(mes)
  {
    var w1, w2 := TrimPieces(data);
    Regroup(w1, a, b, w2);
    NoSlash(w1, a);
    PdfMonthOfPieces(w1 + a, b, w2, mes);
  }

  /** An event whose trimmed date is the key of day `d` of month `mes` falls in bucket `mes`. */
  lemma KeyedEventMonth(data: string, d: nat, mes: nat)
    requires d < 100 && mes < 12
    ensures Trim(data) == DayKey(d, mes) ==> PdfMonth(data) == Some(mes)
  {
    if Trim(data) == DayKey(d, mes) {
      TwoDigitsValue(d);
      TwoDigitsValue(mes + 1);
      TrimmedKeyMonth(data, TwoDigits(d), TwoDigits(mes + 1), mes);
    }
  }

  lemma InMonthSnoc(a: seq<Evento>, x: Evento, m: nat)
    ensures InMonth(a + [x], m) == InMonth(a, m) + (if PdfMonth(x.data) == Some(m) then [x] else [])
  {
    assert (a + [x])[..|a|] == a;
  }

  lemma EventsOnSnoc(a: seq<Evento>, x: Evento, key: string)
    ensures EventsOn(a + [x], key) == EventsOn(a, key) + (if Trim(x.data) == key then [x] else [])
  {
    EventsOnAppend(a, [x], key);
    FilterSingle(x, OnDay(key));
  }

  /** Filtering bucket `mes` by a key that only dates of month `mes` can carry loses no event of that key. */
  lemma {:induction false} BucketKeepsKey(eventos: seq<Evento>, key: string, mes: nat)
    requires forall e :: e in eventos && Trim(e.data) == key ==> PdfMonth(e.data) == Some(mes)
    ensures EventsOn(InMonth(eventos, mes), key) == EventsOn(eventos, key)
    decreases |eventos|
  {
    if eventos != [] {
      var init := eventos[..|eventos| - 1];
      var last := eventos[|eventos| - 1];
      assert eventos == init + [last];
      BucketKeepsKey(init, key, mes);
      InMonthSnoc(init, last, mes);
      EventsOnSnoc(init, last, key);
      var b := InMonth(init, mes);
      if PdfMonth(last.data) == Some(mes) {
        assert InMonth(eventos, mes) == b + [last];
        EventsOnSnoc(b, last, key);
      } else {
        assert last in eventos;
        assert Trim(last.data) != key;
        assert InMonth(eventos, mes) == b;
      }
    }
  }

  /**
   * The printed month shows each day with the same events as the screen:
   * filtering the month's bucket by the day's key gives exactly what
   * filtering the whole event list gives.
   */
  lemma BucketAgrees(eventos: seq<Evento>, d: nat, mes: nat)
    requires d < 100 && mes < 12
    ensures EventsOn(InMonth(eventos, mes), DayKey(d, mes)) == EventsOn(eventos, DayKey(d, mes))
  {
    forall e | e in eventos && Trim(e.data) == DayKey(d, mes)
      ensures PdfMonth(e.data) == Some(mes)
    {
      KeyedEventMonth(e.data, d, mes);
    }
    BucketKeepsKey(eventos, DayKey(d, mes), mes);
  }

  // ---------------------------------------------------------------------------
  // One month as table rows
  // ---------------------------------------------------------------------------

  /** A cell of the printed table: padding, or a day with its background and text colours. */
  datatype PdfCell = Pad | PdfDay(dia: nat, fundo: string, texto: string)

  /** The background of a printed day: the first event's colour, else the weekend colours, else white. */
  function PdfBackground(palette: map<string, string>, evs: seq<Evento>, ds: int): (r: string)
    ensures evs != [] && evs[0].cor in palette && palette[evs[0].cor] != [] ==> r == palette[evs[0].cor]
    ensures evs != [] && (evs[0].cor !in palette || palette[evs[0].cor] == []) ==> r == evs[0].cor
    ensures evs == [] ==> (r == "#a3e635" <==> ds == 0) && (r == "#facc15" <==> ds == 6)
    ensures evs == [] ==> (r == "#ffffff" <==> ds != 0 && ds != 6)
  {
    if evs != [] then
      (if evs[0].cor in palette && palette[evs[0].cor] != [] then palette[evs[0].cor] else evs[0].cor)
    else if ds == 0 then "#a3e635"
    else if ds == 6 then "#facc15"
    else "#ffffff"
  }

  /** The text colour of a printed day: white exactly when the day has events. */
  function PdfText(evs: seq<Evento>): (r: string)
    ensures r == "#ffffff" <==> evs != []
    ensures r == "#000000" <==> evs == []
  {
    if evs != [] then "#ffffff" else "#000000"
  }

  /**
   * The printed cell of day `d` of month `idx` whose first day falls on
   * weekday `pSem`: day `d` falls on weekday `(pSem + d - 1) % 7`, which is
   * what `getDay` gives for it (`DayColumn`).
   */
  function PdfDayCell(bucket: seq<Evento>, palette: map<string, string>, idx: nat, pSem: nat, d: nat): PdfCell
  {
    var evs := EventsOn(bucket, DayKey(d, idx));
    PdfDay(d, PdfBackground(palette, evs, (pSem + d - 1) % 7), PdfText(evs))
  }

  /** Padding cells after the last day, up to a multiple of seven. */
  function TrailingPads(n: nat): (t: nat)
    ensures t < 7 && (n + t) % 7 == 0
  {
    PadsCloseRow(n);
    (7 - n % 7) % 7
  }

  lemma PadsCloseRow(n: nat)
    ensures (7 - n % 7) % 7 < 7 && (n + (7 - n % 7) % 7) % 7 == 0
  {
    var q, r := n / 7, n % 7;
    assert n == 7 * q + r && 0 <= r < 7;
    if r == 0 {
      assert (7 - r) % 7 == 0;
    } else {
      assert (7 - r) % 7 == 7 - r;
      assert n + (7 - r) == 7 * (q + 1);
    }
  }

  /**
   * The cells of a printed month whose first day falls on weekday `pSem`
   * and which has `dMes` days, in reading order: leading pads, the days,
   * trailing pads.
   */
  function PdfCells(bucket: seq<Evento>, palette: map<string, string>, idx: nat, pSem: nat, dMes: nat): (cells: seq<PdfCell>)
    ensures |cells| % 7 == 0
  {
    Framed(Pad, pSem, dMes, d => PdfDayCell(bucket, palette, idx, pSem, d), TrailingPads(pSem + dMes))
  }

  /** The cells of month `idx` of `ano`. */
  function MonthPdfCells(bucket: seq<Evento>, palette: map<string, string>, ano: int, idx: nat): seq<PdfCell>
    requires idx < 12
  {
    PdfCells(bucket, palette, idx, FirstWeekday(ano, idx), MonthLength(ano, idx))
  }

  /** One line of the month's event list: the date in bold, a dash and the caption. */
  datatype Nota = Nota(data: string, legenda: string)

  function Notes(evs: seq<Evento>): (r: seq<Nota>)
    ensures |r| == |evs|
    ensures forall i :: 0 <= i < |evs| ==> r[i] == Nota(evs[i].data, evs[i].legenda)
  {
    seq(|evs|, i requires 0 <= i < |evs| => Nota(evs[i].data, evs[i].legenda))
  }

  /** Where the pads and the days are in a printed month's cells. */
  lemma PdfCellsShape(bucket: seq<Evento>, palette: map<string, string>, idx: nat, pSem: nat, dMes: nat)
    ensures var cells := PdfCells(bucket, palette, idx, pSem, dMes);
      |cells| == pSem + dMes + TrailingPads(pSem + dMes) &&
      (forall x :: 0 <= x < pSem ==> cells[x] == Pad) &&
      (forall d :: 1 <= d <= dMes ==> cells[pSem + d - 1] == PdfDayCell(bucket, palette, idx, pSem, d)) &&
      (forall x :: pSem + dMes <= x < |cells| ==> cells[x] == Pad)
  {
    FramedAt(Pad, pSem, dMes, d => PdfDayCell(bucket, palette, idx, pSem, d), TrailingPads(pSem + dMes));
  }

  /** The arithmetic of closing a row: a multiple of seven cells with a non-empty open row means the row is full. */
  lemma RowArith(c: nat, r: nat, k: nat)
    requires c == 7 * r + k && k <= 7
    ensures c % 7 == 0 && k >= 1 ==> k == 7
    ensures c % 7 != 0 ==> k < 7
  {
  }

  /** Padding stops at the first multiple of seven, which is the end of the cells. */
  lemma PadArith(n: nat, c: nat)
    requires n <= c <= n + TrailingPads(n) && c % 7 == 0
    ensures c == n + TrailingPads(n)
  {
  }

  /**
   * The cell renderMesPdf builds for day `d`: its events are those of the
   * bucket under the day's key, and its weekday is
   * `new Date(ano, idx, d).getDay()`.
   */
  function PrintedDay(bucket: seq<Evento>, palette: map<string, string>, ano: int, idx: nat, d: nat): PdfCell
  {
    var evs := EventsOn(bucket, DayKey(d, idx));
    PdfDay(d, PdfBackground(palette, evs, Weekday(MakeDay(ano, idx, d))), PdfText(evs))
  }

  /** The cell built for day `d` is the cell of day `d` in its weekday's column. */
  lemma PrintedDayColumn(bucket: seq<Evento>, palette: map<string, string>, ano: int, idx: nat, d: nat)
    requires idx < 12 && 1 <= d
    ensures PrintedDay(bucket, palette, ano, idx, d) == PdfDayCell(bucket, palette, idx, FirstWeekday(ano, idx), d)
  {
    DayColumn(ano, idx, d);
  }

  /**
   * renderMesPdf: the table rows of month `idx` of `ano` and its event list.
   * The first weekday and the month length come from `new Date(ano, idx, 1)`
   * and `new Date(ano, idx + 1, 0)`.
   */
  method RenderMesPdf(bucket: seq<Evento>, palette: map<string, string>, ano: int, idx: nat)
    returns (rows: seq<seq<PdfCell>>, notas: seq<Nota>)
    requires idx < 12
    ensures forall r :: 0 <= r < |rows| ==> |rows[r]| == 7
    ensures Flatten(rows) == MonthPdfCells(bucket, palette, ano, idx)
    ensures rows == Weeks(MonthPdfCells(bucket, palette, ano, idx))
    ensures notas == Notes(bucket)
  {
    var dMes := MonthLength(ano, idx);
    var pSem := FirstWeekday(ano, idx);
    ghost var cells := PdfCells(bucket, palette, idx, pSem, dMes);
    PdfCellsShape(bucket, palette, idx, pSem, dMes);
    forall d | 1 <= d <= dMes
      ensures cells[pSem + d - 1] == PrintedDay(bucket, palette, ano, idx, d)
    {
      PrintedDayColumn(bucket, palette, ano, idx, d);
    }
    rows := LayOutRows(Pad, d => PrintedDay(bucket, palette, ano, idx, d), pSem, dMes, cells);
    WeeksOfFlatten(rows);
    notas := Notes(bucket);
  }

  /**
   * The table-building loop of renderMesPdf, against the cells it must
   * produce: `pSem` leading pads, then the cell `day(d)` of each day, a row
   * being closed before a day whenever the column count is a multiple of
   * seven (except before day 1), then pads up to the end of the last row.
   */
  method LayOutRows<T>(pad: T, day: nat -> T, pSem: nat, dMes: nat, ghost cells: seq<T>) returns (rows: seq<seq<T>>)
    requires pSem < 7 && 1 <= dMes
    requires |cells| == pSem + dMes + TrailingPads(pSem + dMes)
    requires forall x :: 0 <= x < pSem ==> cells[x] == pad
    requires forall d :: 1 <= d <= dMes ==> cells[pSem + d - 1] == day(d)
    requires forall x :: pSem + dMes <= x < |cells| ==> cells[x] == pad
    ensures forall r :: 0 <= r < |rows| ==> |rows[r]| == 7
    ensures Flatten(rows) == cells
  {
    var cur: seq<T> := [];
    for x := 0 to pSem
      invariant cur == cells[..x]
    {
      assert cells[..x + 1] == cells[..x] + [pad];
      cur := cur + [pad];
    }
    var open;
    open, cur := LayOutDays(day, pSem, dMes, cells, cur);
    rows := PadLastRow(pad, pSem + dMes, cells, open, cur);
  }

  /**
   * The day loop of renderMesPdf: starting from the row of leading pads,
   * it appends day after day, closing the open row before a day whenever
   * the column count is a multiple of seven (except before day 1).
   */
  method LayOutDays<T>(day: nat -> T, pSem: nat, dMes: nat, ghost cells: seq<T>, lead: seq<T>)
    returns (rows: seq<seq<T>>, cur: seq<T>)
    requires pSem < 7 && 1 <= dMes && pSem + dMes <= |cells|
    requires forall d :: 1 <= d <= dMes ==> cells[pSem + d - 1] == day(d)
    requires lead == cells[..pSem]
    ensures forall r :: 0 <= r < |rows| ==> |rows[r]| == 7
    ensures Flatten(rows) + cur == cells[..pSem + dMes]
    ensures pSem + dMes == 7 * |rows| + |cur|
    ensures 1 <= |cur| <= 7
  {
    rows := [];
    cur := lead;
    var contadorCol := pSem;
    for d := 1 to dMes + 1
      invariant contadorCol == pSem + d - 1
      invariant forall r :: 0 <= r < |rows| ==> |rows[r]| == 7
      invariant Flatten(rows) + cur == cells[..contadorCol]
      invariant contadorCol == 7 * |rows| + |cur|
      invariant |cur| <= 7 && (|cur| >= 1 || contadorCol == 0)
    {
      RowArith(contadorCol, |rows|, |cur|);
      if contadorCol % 7 == 0 && d != 1 {
        FlattenSnoc(rows, cur);
        rows := rows + [cur];
        cur := [];
      }
      var cell := day(d);
      assert cells[..contadorCol + 1] == cells[..contadorCol] + [cell];
      cur := cur + [cell];
      contadorCol := contadorCol + 1;
    }
  }

  /** The closing loop of renderMesPdf: pads fill the open row, which then becomes the last row. */
  method PadLastRow<T>(pad: T, n: nat, ghost cells: seq<T>, open: seq<seq<T>>, last: seq<T>) returns (rows: seq<seq<T>>)
    requires |cells| == n + TrailingPads(n)
    requires forall x :: n <= x < |cells| ==> cells[x] == pad
    requires forall r :: 0 <= r < |open| ==> |open[r]| == 7
    requires Flatten(open) + last == cells[..n]
    requires n == 7 * |open| + |last|
    requires 1 <= |last| <= 7
    ensures forall r :: 0 <= r < |rows| ==> |rows[r]| == 7
    ensures Flatten(rows) == cells
  {
    rows := open;
    var cur := last;
    var contadorCol := n;
    ghost var total := |cells|;
    while contadorCol % 7 != 0
      invariant n <= contadorCol <= total
      invariant forall r :: 0 <= r < |rows| ==> |rows[r]| == 7
      invariant Flatten(rows) + cur == cells[..contadorCol]
      invariant contadorCol == 7 * |rows| + |cur|
      invariant 1 <= |cur| <= 7
      decreases total - contadorCol
    {
      RowArith(contadorCol, |rows|, |cur|);
      assert cells[..contadorCol + 1] == cells[..contadorCol] + [pad];
      cur := cur + [pad];
      contadorCol := contadorCol + 1;
    }
    RowArith(contadorCol, |rows|, |cur|);
    PadArith(n, contadorCol);
    assert cells[..total] == cells;
    FlattenSnoc(rows, cur);
    rows := rows + [cur];
  }

  /** Day `d` of a printed month is at position `pSem + d - 1`. */
  lemma PdfDayAt(bucket: seq<Evento>, palette: map<string, string>, idx: nat, pSem: nat, dMes: nat, d: nat)
    requires 1 <= d <= dMes
    ensures var cells := PdfCells(bucket, palette, idx, pSem, dMes);
      pSem + d - 1 < |cells| && cells[pSem + d - 1] == PdfDayCell(bucket, palette, idx, pSem, d)
  {
    FramedAt(Pad, pSem, dMes, d => PdfDayCell(bucket, palette, idx, pSem, d), TrailingPads(pSem + dMes));
  }

  // ---------------------------------------------------------------------------
  // The document
  // ---------------------------------------------------------------------------

  /** One entry of the printed legend: the colour swatch and the label. */
  datatype LegendLine = LegendLine(cor: string, rotulo: string)

  /** `CORES_MAPA[i.c] || i.c`, with the label `i.l`. */
  function LegendLines(palette: map<string, string>, itens: seq<LegendaItem>): (r: seq<LegendLine>)
    ensures |r| == |itens|
    ensures forall i :: 0 <= i < |itens| ==> r[i].rotulo == itens[i].l
    ensures forall i :: 0 <= i < |itens| ==>
      r[i].cor == (if itens[i].c in palette && palette[itens[i].c] != [] then palette[itens[i].c] else itens[i].c)
  {
    seq(|itens|, i requires 0 <= i < |itens| =>
      LegendLine(if itens[i].c in palette && palette[itens[i].c] != [] then palette[itens[i].c] else itens[i].c, itens[i].l))
  }

  /** The parts of the printed document. */
  datatype Block =
    | Titulo(ano: int, continuacao: bool)
    | Mes(idx: nat, anoMes: int, linhas: seq<seq<PdfCell>>, notas: seq<Nota>)
    | Legenda(itens: seq<LegendLine>)
    | QuebraPagina

  /** The printed block of month `idx`. */
  function MonthBlock(eventos: seq<Evento>, palette: map<string, string>, ano: int, idx: nat): Block
    requires idx < 12
  {
    var bucket := InMonth(eventos, idx);
    Mes(idx, ano, Weeks(MonthPdfCells(bucket, palette, ano, idx)), Notes(bucket))
  }

  /** The twelve printed months, January first. */
  function MonthBlocks(eventos: seq<Evento>, palette: map<string, string>, ano: int): (r: seq<Block>)
    ensures |r| == 12
    ensures forall k :: 0 <= k < 12 ==> r[k] == MonthBlock(eventos, palette, ano, k)
  {
    seq(12, k requires 0 <= k < 12 => MonthBlock(eventos, palette, ano, k))
  }

  /** The two pages around the twelve month blocks: title, January..June, legend, page break, title, July..December, legend. */
  function Layout(ano: int, meses: seq<Block>, legenda: Block): seq<Block>
    requires |meses| == 12
  {
    [Titulo(ano, false)] + meses[..6] + [legenda, QuebraPagina, Titulo(ano, true)] + meses[6..] + [legenda]
  }

  /** The whole document. */
  function PdfDocument(eventos: seq<Evento>, palette: map<string, string>, itens: seq<LegendaItem>, ano: int): seq<Block>
  {
    Layout(ano, MonthBlocks(eventos, palette, ano), Legenda(LegendLines(palette, itens)))
  }

  /** One month of the document: renderMesPdf over the month's bucket. */
  method RenderMonthBlock(eventos: seq<Evento>, bucket: seq<Evento>, palette: map<string, string>, ano: int, idx: nat)
    returns (b: Block)
    requires idx < 12 && bucket == InMonth(eventos, idx)
    ensures b == MonthBlock(eventos, palette, ano, idx)
  {
    var rows, notas := RenderMesPdf(bucket, palette, ano, idx);
    b := Mes(idx, ano, rows, notas);
  }

  /** exportarPDF: bucket the events, then render the two halves of the year around the page break. */
  method ExportarPdf(eventos: seq<Evento>, palette: map<string, string>, itens: seq<LegendaItem>, ano: int)
    returns (doc: seq<Block>)
    ensures doc == PdfDocument(eventos, palette, itens, ano)
  {
    var eventosPorMes := BucketByMonth(eventos);
    var legenda := Legenda(LegendLines(palette, itens));
    ghost var meses := MonthBlocks(eventos, palette, ano);
    doc := [Titulo(ano, false)];
    for i := 0 to 6
      invariant doc == [Titulo(ano, false)] + meses[0..i]
    {
      var b := RenderMonthBlock(eventos, eventosPorMes[i], palette, ano, i);
      SliceSnoc(meses, 0, i);
      AppendAssoc([Titulo(ano, false)], meses[0..i], [b]);
      doc := doc + [b];
    }
    doc := doc + [legenda, QuebraPagina, Titulo(ano, true)];
    ghost var firstHalf := doc;
    for i := 6 to 12
      invariant doc == firstHalf + meses[6..i]
    {
      var b := RenderMonthBlock(eventos, eventosPorMes[i], palette, ano, i);
      SliceSnoc(meses, 6, i);
      AppendAssoc(firstHalf, meses[6..i], [b]);
      doc := doc + [b];
    }
    doc := doc + [legenda];
    assert meses[0..6] == meses[..6] && meses[6..12] == meses[6..];
  }

  /**
   * The document has 17 blocks: January..June precede the page break and
   * July..December follow it, each half closed by the same legend.
   */
  lemma PdfDocumentLayout(eventos: seq<Evento>, palette: map<string, string>, itens: seq<LegendaItem>, ano: int)
    ensures var doc := PdfDocument(eventos, palette, itens, ano);
      |doc| == 17 && doc[0] == Titulo(ano, false) && doc[7].Legenda? && doc[8] == QuebraPagina &&
      doc[9] == Titulo(ano, true) && doc[16] == doc[7] &&
      (forall i :: 0 <= i < 6 ==> doc[1 + i] == MonthBlock(eventos, palette, ano, i)) &&
      (forall i :: 6 <= i < 12 ==> doc[4 + i] == MonthBlock(eventos, palette, ano, i))
  {
    var meses := MonthBlocks(eventos, palette, ano);
    var legenda := Legenda(LegendLines(palette, itens));
    TwoPages(ano, meses, legenda);
  }

  /** Where each part of the two pages lands, whatever the month blocks hold. */
  lemma TwoPages(ano: int, meses: seq<Block>, legenda: Block)
    requires |meses| == 12
    ensures var doc := Layout(ano, meses, legenda);
      |doc| == 17 && doc[0] == Titulo(ano, false) && doc[7] == legenda && doc[8] == QuebraPagina &&
      doc[9] == Titulo(ano, true) && doc[16] == legenda &&
      (forall k :: 0 <= k < 6 ==> doc[1 + k] == meses[k]) &&
      (forall k :: 6 <= k < 12 ==> doc[4 + k] == meses[k])
  {
  }

  /** Every row of every printed month has seven cells, and the rows spell out the month's cells. */
  lemma MonthBlockRows(eventos: seq<Evento>, palette: map<string, string>, ano: int, idx: nat)
    requires idx < 12
    ensures var b := MonthBlock(eventos, palette, ano, idx);
      (forall r :: 0 <= r < |b.linhas| ==> |b.linhas[r]| == 7) &&
      Flatten(b.linhas) == MonthPdfCells(InMonth(eventos, idx), palette, ano, idx)
  {
    WeeksFull(MonthPdfCells(InMonth(eventos, idx), palette, ano, idx));
  }
}

/** Where the days of a printed month land. */
module CalendarPdfFacts {
  import opened Gregorian
  import opened Types
  import opened CalendarLayout
  import opened GridFacts
  import opened CalendarPdf

  /**
   * Day `d` of the printed month sits in the column of its weekday, as on
   * screen, and holds the cell built from its own events and weekday.
   */
  lemma PdfDayPosition(bucket: seq<Evento>, palette: map<string, string>, ano: int, idx: nat, d: nat)
    requires idx < 12 && 1 <= d <= MonthLength(ano, idx)
    ensures var cells := MonthPdfCells(bucket, palette, ano, idx);
      var x := FirstWeekday(ano, idx) + d - 1;
      x < |cells| && x % 7 == Weekday(MakeDay(ano, idx, d)) && cells[x] == PrintedDay(bucket, palette, ano, idx, d)
  {
    PrintedDayAt(bucket, palette, ano, idx, d);
    DayColumn(ano, idx, d);
  }

  /** Day `d` of the printed month is the cell built from its own events and weekday. */
  lemma PrintedDayAt(bucket: seq<Evento>, palette: map<string, string>, ano: int, idx: nat, d: nat)
    requires idx < 12 && 1 <= d <= MonthLength(ano, idx)
    ensures var cells := MonthPdfCells(bucket, palette, ano, idx);
      var x := FirstWeekday(ano, idx) + d - 1;
      x < |cells| && cells[x] == PrintedDay(bucket, palette, ano, idx, d)
  {
    PrintedCellAt(bucket, palette, ano, idx, d, FirstWeekday(ano, idx), MonthLength(ano, idx));
  }

  /** Position `pSem + d - 1` holds whatever equals the cell of day `d`. */
  lemma CellAt(bucket: seq<Evento>, palette: map<string, string>, idx: nat, pSem: nat, dMes: nat, d: nat, cell: PdfCell)
    requires 1 <= d <= dMes && cell == PdfDayCell(bucket, palette, idx, pSem, d)
    ensures var cells := PdfCells(bucket, palette, idx, pSem, dMes);
      pSem + d - 1 < |cells| && cells[pSem + d - 1] == cell
  {
    PdfDayAt(bucket, palette, idx, pSem, dMes, d);
  }

  /** Day `d` sits at `pSem + d - 1`, given the month's first weekday and length. */
  lemma PrintedCellAt(bucket: seq<Evento>, palette: map<string, string>, ano: int, idx: nat, d: nat, pSem: nat, dMes: nat)
    requires idx < 12 && 1 <= d <= dMes && pSem == FirstWeekday(ano, idx) && dMes == MonthLength(ano, idx)
    ensures var cells := PdfCells(bucket, palette, idx, pSem, dMes);
      pSem + d - 1 < |cells| && cells[pSem + d - 1] == PrintedDay(bucket, palette, ano, idx, d)
  {
    PrintedDayColumn(bucket, palette, ano, idx, d);
    CellAt(bucket, palette, idx, pSem, dMes, d, PrintedDay(bucket, palette, ano, idx, d));
  }
}
