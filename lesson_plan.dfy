/**
 * The lesson-plan generator (components/LessonPlanGenerator.tsx): its form
 * state, the weekly grade of lessons, the gate in front of generation, and
 * the two pieces of the request computed from the state: the grade summary
 * and the calendar events that fall inside the planned period.
 *
 * The text generator is a remote service: its reply is a parameter of
 * `GerarPlano` (`None` when the call fails).
 */
module LessonPlan {
  import opened Wrappers
  import opened Text
  import opened JsNumber
  import opened ParseIntFacts
  import opened Gregorian
  import opened Seqs
  import opened Types
  import opened CalendarLayout

  // ---------------------------------------------------------------------------
  // The weekly grade
  // ---------------------------------------------------------------------------

  /** The grade's days in its key order, Monday (0) to Sunday (6), and their labels. */
  const DayLabels: seq<string> :=
    ["Segunda", "Ter\U{E7}a", "Quarta", "Quinta", "Sexta", "S\U{E1}bado", "Domingo"]

  /** A grade: lessons per weekday, Monday first. */
  predicate IsGrade(grade: seq<int>) {
    |grade| == 7 && forall i :: 0 <= i < 7 ==> grade[i] >= 0
  }

  /** `Math.max(0, parseInt(texto) || 0)`: what a grade field keeps of what is typed. */
  function GradeInput(texto: string): (q: int)
    ensures q >= 0
    ensures ParseInt(texto).None? ==> q == 0
  {
    match ParseInt(texto)
    case None => 0
    case Some(v) => if v > 0 then v else 0
  }

  predicate TemDiaSelecionado(grade: seq<int>) {
    exists i :: 0 <= i < |grade| && grade[i] > 0
  }

  /** The days with lessons, in key order. */
  function SelectedDays(grade: seq<int>): (dias: seq<nat>)
    ensures forall k :: 0 <= k < |dias| ==> dias[k] < |grade| && grade[dias[k]] > 0
    ensures forall k, l :: 0 <= k < l < |dias| ==> dias[k] < dias[l]
  {
    if grade == [] then []
    else
      var init := grade[..|grade| - 1];
      var dias := SelectedDays(init);
      assert forall k :: 0 <= k < |dias| ==> init[dias[k]] == grade[dias[k]];
      if grade[|grade| - 1] > 0 then dias + [|grade| - 1] else dias
  }

  /** Every day with lessons is selected. */
  lemma {:induction false} SelectedDaysComplete(grade: seq<int>, i: nat)
    requires i < |grade| && grade[i] > 0
    ensures i in SelectedDays(grade)
    decreases |grade|
  {
    var init := grade[..|grade| - 1];
    if i < |grade| - 1 {
      assert init[i] == grade[i];
      SelectedDaysComplete(init, i);
    }
  }

  /** One entry of the summary: "Label (n aulas)". */
  function GradeItem(dia: nat, q: int): (s: string)
    requires dia < 7
    ensures |s| > 0
  {
    DayLabels[dia] + " (" + IntToString(q) + " aulas)"
  }

  function GradeItems(grade: seq<int>): (items: seq<string>)
    requires |grade| == 7
  {
    var dias := SelectedDays(grade);
    seq(|dias|, k requires 0 <= k < |dias| => GradeItem(dias[k], grade[dias[k]]))
  }

  /** The summary sent to the generator: the days with lessons, in key order, joined by ", ". */
  function ResumoGrade(grade: seq<int>): string
    requires |grade| == 7
  {
    Join(GradeItems(grade), ", ")
  }

  /** Joining non-empty pieces gives the empty string only for no pieces. */
  lemma {:induction false} JoinEmpty(parts: seq<string>, sep: string)
    requires forall k :: 0 <= k < |parts| ==> |parts[k]| > 0
    ensures Join(parts, sep) == [] <==> parts == []
  {
    if |parts| >= 1 {
      assert |parts[0]| > 0;
      if |parts| > 1 {
        assert |Join(parts, sep)| >= |parts[0]|;
      }
    }
  }

  /**
   * The summary lists exactly the days with a positive count, in Monday to
   * Sunday order, each as "Label (n aulas)"; it is empty exactly when no day
   * has lessons.
   */
  lemma ResumoGradeContents(grade: seq<int>)
    requires |grade| == 7
    ensures var dias := SelectedDays(grade);
      |GradeItems(grade)| == |dias| &&
      (forall k :: 0 <= k < |dias| ==> GradeItems(grade)[k] == GradeItem(dias[k], grade[dias[k]]))
    ensures ResumoGrade(grade) == [] <==> !TemDiaSelecionado(grade)
  {
    var dias := SelectedDays(grade);
    JoinEmpty(GradeItems(grade), ", ");
    if TemDiaSelecionado(grade) {
      var i :| 0 <= i < |grade| && grade[i] > 0;
      SelectedDaysComplete(grade, i);
    }
  }

  /** A grade with some day selected has a non-empty summary. */
  lemma ResumoGradeNotEmpty(grade: seq<int>)
    requires |grade| == 7 && TemDiaSelecionado(grade)
    ensures ResumoGrade(grade) != []
  {
    ResumoGradeContents(grade);
  }

  // ---------------------------------------------------------------------------
  // Dates of the period
  // ---------------------------------------------------------------------------

  /** A date built by `new Date(ano, mes, dia)` from numbers that name a real day (`mes` 0-based). */
  datatype LocalDate = LocalDate(ano: int, mes: int, dia: int)

  function DayOf(t: LocalDate): int {
    MakeDay(t.ano, t.mes, t.dia)
  }

  /** `parseLocalDate` on a non-empty "Y-M-D": the fields are read with `Number`; `None` when they do not name a day. */
  function ParseLocalDate(s: string): (r: Option<LocalDate>)
    ensures r.Some? ==> 0 <= r.value.mes < 12 && 1 <= r.value.dia <= DaysInMonth(r.value.ano, r.value.mes)
    ensures r.Some? ==> !(0 <= r.value.ano <= 99)
  {
    var parts := Split(s, '-');
    if |parts| < 3 then None
    else
      match (Number(parts[0]), Number(parts[1]), Number(parts[2]))
      case (Some(y), Some(m), Some(d)) =>
        var ano := JsYear(y);
        if 1 <= m <= 12 && 1 <= d <= DaysInMonth(ano, m - 1) then Some(LocalDate(ano, m - 1, d)) else None
      case _ => None
  }

  /**
   * The day of `new Date(yearStart, m - 1, d)`, moved to the next year when it
   * falls before the start and `m` is 1 (January).
   */
  function PlaceEvent(start: LocalDate, d: int, m: int): int {
    var dataEv := MakeDay(start.ano, m - 1, d);
    if dataEv < DayOf(start) && m == 1 then MakeDay(start.ano + 1, m - 1, d) else dataEv
  }

  /**
   * The day an event "D/M" is placed on: the pieces D and M are read with
   * `Number`; `None` when D or M is not a number (an invalid `Date`).
   */
  function EventDay(data: string, start: LocalDate): Option<int>
  {
    var pieces := Split(data, '/');
    var d := Number(pieces[0]);
    var m := if |pieces| >= 2 then Number(pieces[1]) else None;
    if d.None? || m.None? then None else Some(PlaceEvent(start, d.value, m.value))
  }

  /** An event is in the period when its day lies between the start and the end, both included. */
  predicate InPeriod(ev: Evento, start: Option<LocalDate>, end: Option<LocalDate>) {
    start.Some? && end.Some? &&
    var t := EventDay(ev.data, start.value);
    t.Some? && DayOf(start.value) <= t.value <= DayOf(end.value)
  }

  function EventosNoPeriodo(eventos: seq<Evento>, start: Option<LocalDate>, end: Option<LocalDate>): seq<Evento> {
    Filter(eventos, ev => InPeriod(ev, start, end))
  }

  function EventLine(ev: Evento): (s: string)
    ensures |s| > 0
  {
    ev.data + ": " + ev.legenda
  }

  function EventLines(evs: seq<Evento>): (r: seq<string>)
    ensures |r| == |evs|
    ensures forall k :: 0 <= k < |evs| ==> r[k] == EventLine(evs[k])
  {
    if evs == [] then [] else [EventLine(evs[0])] + EventLines(evs[1..])
  }

  /** The events line of the request: "data: legenda" of each event in the period, joined by " | ", or "Nenhum." when there is none. */
  function EventosTexto(eventos: seq<Evento>, start: Option<LocalDate>, end: Option<LocalDate>): string {
    var texto := Join(EventLines(EventosNoPeriodo(eventos, start, end)), " | ");
    if texto == [] then "Nenhum." else texto
  }

  /**
   * The period's events are the calendar's events that fall in the period, in
   * calendar order, and only those.
   */
  lemma EventosNoPeriodoSpec(eventos: seq<Evento>, start: Option<LocalDate>, end: Option<LocalDate>)
    ensures forall e :: e in EventosNoPeriodo(eventos, start, end) <==> e in eventos && InPeriod(e, start, end)
    ensures forall e :: (EventosNoPeriodo(eventos + [e], start, end) ==
      EventosNoPeriodo(eventos, start, end) + (if InPeriod(e, start, end) then [e] else []))
  {
    var p := (ev: Evento) => InPeriod(ev, start, end);
    FilterMembers(eventos, p);
    forall e ensures EventosNoPeriodo(eventos + [e], start, end) ==
      EventosNoPeriodo(eventos, start, end) + (if InPeriod(e, start, end) then [e] else [])
    {
      FilterAppend(eventos, [e], p);
      FilterSingle(e, p);
    }
  }

  /** The request says "Nenhum." exactly when no event falls in the period. */
  lemma EventosTextoNenhum(eventos: seq<Evento>, start: Option<LocalDate>, end: Option<LocalDate>)
    ensures EventosTexto(eventos, start, end) == "Nenhum." <==> EventosNoPeriodo(eventos, start, end) == []
  {
    var kept := EventosNoPeriodo(eventos, start, end);
    JoinEmpty(EventLines(kept), " | ");
    if kept != [] {
      JoinNotNenhum(kept);
    }
  }

  /** A list of event lines never reads "Nenhum.": its first line holds a ':'. */
  lemma JoinNotNenhum(kept: seq<Evento>)
    requires kept != []
    ensures Join(EventLines(kept), " | ") != "Nenhum."
  {
    var lines := EventLines(kept);
    var e0 := kept[0];
    var i := |e0.data|;
    assert lines[0][i] == ':';
    JoinHead(lines, " | ");
    var texto := Join(lines, " | ");
    assert texto[i] == ':' by {
      assert texto[..|lines[0]|][i] == lines[0][i];
    }
    assert forall k :: 0 <= k < |"Nenhum."| ==> "Nenhum."[k] != ':';
  }

  /** The first piece opens the join. */
  lemma JoinHead(parts: seq<string>, sep: string)
    requires |parts| >= 1
    ensures |parts[0]| <= |Join(parts, sep)| && Join(parts, sep)[..|parts[0]|] == parts[0]
  {
  }

}

/** The generator's form: its fields, its handlers and `gerarPlano`. */
module LessonPlanForm {
  import opened Wrappers
  import opened Types
  import opened LessonPlan

  /** The text fields of the form, each with its own `onChange`. */
  datatype Campo = Tipo | Professor | Disciplina | AnoSerie | DataInicio | DataFim | Conteudos

  /** What the generator is asked: the form's fields with the grade summary and the period's events. */
  datatype Pedido = Pedido(
    tipo: string, professor: string, disciplina: string, anoSerie: string,
    dataInicio: string, dataFim: string, grade: string, conteudos: string, eventos: string)

  /** How `gerarPlano` ends; the alerts are represented by these tags. */
  datatype Geracao =
    | Bloqueada             // "Atenção: Preencha Professor, Disciplina, Datas, ..."
    | Gerada(pedido: Pedido)
    | Falhou(pedido: Pedido) // "Erro ao gerar. ..."

  class PlanGenerator {
    var tipo: string
    var professor: string
    var disciplina: string
    var anoSerie: string
    var dataInicio: string
    var dataFim: string
    var conteudos: string
    var planoGerado: string
    var loading: bool
    var eventosCalendario: seq<Evento>
    var grade: seq<int>

    /** Seven non-negative counts, as every grade field keeps them. */
    predicate Valid()
      reads this
    {
      IsGrade(grade)
    }

    /** The initial form: a bimonthly plan, everything else empty, no lessons. */
    constructor()
      ensures Valid()
      ensures tipo == "BIMESTRAL" && professor == "" && disciplina == "" && anoSerie == ""
      ensures dataInicio == "" && dataFim == "" && conteudos == "" && planoGerado == ""
      ensures !loading && eventosCalendario == []
      ensures grade == [0, 0, 0, 0, 0, 0, 0]
    {
      tipo := "BIMESTRAL";
      professor := "";
      disciplina := "";
      anoSerie := "";
      dataInicio := "";
      dataFim := "";
      conteudos := "";
      planoGerado := "";
      loading := false;
      eventosCalendario := [];
      grade := [0, 0, 0, 0, 0, 0, 0];
    }

    /** A text field's `onChange`: that field takes the typed value, nothing else changes. */
    method Editar(campo: Campo, valor: string)
      modifies this
      ensures tipo == (if campo == Tipo then valor else old(tipo))
      ensures professor == (if campo == Professor then valor else old(professor))
      ensures disciplina == (if campo == Disciplina then valor else old(disciplina))
      ensures anoSerie == (if campo == AnoSerie then valor else old(anoSerie))
      ensures dataInicio == (if campo == DataInicio then valor else old(dataInicio))
      ensures dataFim == (if campo == DataFim then valor else old(dataFim))
      ensures conteudos == (if campo == Conteudos then valor else old(conteudos))
      ensures planoGerado == old(planoGerado) && loading == old(loading)
      ensures eventosCalendario == old(eventosCalendario) && grade == old(grade)
    {
      match campo
      case Tipo => tipo := valor;
      case Professor => professor := valor;
      case Disciplina => disciplina := valor;
      case AnoSerie => anoSerie := valor;
      case DataInicio => dataInicio := valor;
      case DataFim => dataFim := valor;
      case Conteudos => conteudos := valor;
    }

    /** The calendar's events, once loaded for the generator. */
    method CarregarEventos(data: seq<Evento>)
      modifies this
      ensures eventosCalendario == data
      ensures tipo == old(tipo) && professor == old(professor) && disciplina == old(disciplina)
      ensures anoSerie == old(anoSerie) && dataInicio == old(dataInicio) && dataFim == old(dataFim)
      ensures conteudos == old(conteudos) && planoGerado == old(planoGerado) && loading == old(loading)
      ensures grade == old(grade)
    {
      eventosCalendario := data;
    }

    /** `updateGrade`: the count of one day is replaced, the other six are kept. */
    method UpdateGrade(dia: nat, qtd: int)
      requires dia < 7 && |grade| == 7
      modifies this
      ensures grade == old(grade)[dia := qtd]
      ensures |grade| == 7 && grade[dia] == qtd
      ensures forall i :: 0 <= i < 7 && i != dia ==> grade[i] == old(grade)[i]
      ensures tipo == old(tipo) && professor == old(professor) && disciplina == old(disciplina)
      ensures anoSerie == old(anoSerie) && dataInicio == old(dataInicio) && dataFim == old(dataFim)
      ensures conteudos == old(conteudos) && planoGerado == old(planoGerado) && loading == old(loading)
      ensures eventosCalendario == old(eventosCalendario)
    {
      grade := grade[dia := qtd];
    }

    /** A grade field's `onChange`: the typed text, clamped by `GradeInput`, becomes that day's count. */
    method EditarGrade(dia: nat, texto: string)
      requires dia < 7 && Valid()
      modifies this
      ensures Valid()
      ensures grade == old(grade)[dia := GradeInput(texto)]
      ensures tipo == old(tipo) && professor == old(professor) && disciplina == old(disciplina)
      ensures anoSerie == old(anoSerie) && dataInicio == old(dataInicio) && dataFim == old(dataFim)
      ensures conteudos == old(conteudos) && planoGerado == old(planoGerado) && loading == old(loading)
      ensures eventosCalendario == old(eventosCalendario)
    {
      UpdateGrade(dia, GradeInput(texto));
    }

    /** The gate of `gerarPlano`: the five required fields are filled and some day has lessons. */
    predicate PodeGerar()
      reads this
    {
      professor != "" && disciplina != "" && dataInicio != "" && dataFim != "" && conteudos != "" &&
      TemDiaSelecionado(grade)
    }

    /** The request built from the current form. */
    function PedidoAtual(): (p: Pedido)
      requires Valid()
      reads this
      ensures p.grade == ResumoGrade(grade)
      ensures p.eventos == EventosTexto(eventosCalendario, ParseLocalDate(dataInicio), ParseLocalDate(dataFim))
    {
      Pedido(tipo, professor, disciplina, anoSerie, dataInicio, dataFim, ResumoGrade(grade), conteudos,
             EventosTexto(eventosCalendario, ParseLocalDate(dataInicio), ParseLocalDate(dataFim)))
    }

    /**
     * `gerarPlano`: blocked, it changes nothing; otherwise the plan is reset,
     * the request is sent, and the plan becomes the reply's text (empty when
     * the call fails); loading ends in either case.
     */
    method GerarPlano(resposta: Option<string>) returns (r: Geracao)
      requires Valid()
      modifies this
      ensures Valid()
      ensures !old(PodeGerar()) ==> r == Bloqueada && planoGerado == old(planoGerado) && loading == old(loading)
      ensures old(PodeGerar()) && resposta.Some? ==> r == Gerada(old(PedidoAtual())) && planoGerado == resposta.value
      ensures old(PodeGerar()) && resposta.None? ==> r == Falhou(old(PedidoAtual())) && planoGerado == ""
      ensures old(PodeGerar()) ==> !loading && ResumoGrade(grade) != []
      ensures tipo == old(tipo) && professor == old(professor) && disciplina == old(disciplina)
      ensures anoSerie == old(anoSerie) && dataInicio == old(dataInicio) && dataFim == old(dataFim)
      ensures conteudos == old(conteudos) && eventosCalendario == old(eventosCalendario) && grade == old(grade)
    {
      if !PodeGerar() {
        return Bloqueada;
      }
      var pedido := PedidoAtual();
      ResumoGradeNotEmpty(grade);
      r := Enviar(pedido, resposta);
    }

    /**
     * The request in flight: the plan is cleared while loading, then holds the
     * reply's text, or stays empty when the call fails.
     */
    method Enviar(pedido: Pedido, resposta: Option<string>) returns (r: Geracao)
      modifies this
      ensures r == (if resposta.Some? then Gerada(pedido) else Falhou(pedido))
      ensures planoGerado == (if resposta.Some? then resposta.value else "") && !loading
      ensures tipo == old(tipo) && professor == old(professor) && disciplina == old(disciplina)
      ensures anoSerie == old(anoSerie) && dataInicio == old(dataInicio) && dataFim == old(dataFim)
      ensures conteudos == old(conteudos) && eventosCalendario == old(eventosCalendario) && grade == old(grade)
    {
      loading := true;
      planoGerado := "";
      if resposta.Some? {
        planoGerado := resposta.value;
        r := Gerada(pedido);
      } else {
        r := Falhou(pedido);
      }
      loading := false;
    }
  }
}
