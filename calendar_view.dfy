/**
 * The calendar screen (components/CalendarView.tsx): its state, the batch
 * entry modal, the save flow and the window of rendered months.
 *
 * The palette (`CORES_MAPA`) and the legend categories (`ITENS_LEGENDA`)
 * come from a constants file that is not part of this model: they are given
 * to the constructor. The API service's replies are parameters of the
 * methods that await them.
 */
module CalendarView {
  import opened Wrappers
  import opened Text
  import opened JsNumber
  import opened ParseIntFacts
  import opened Types
  import opened BatchParser
  import opened CalendarLayout
  import opened GridFacts
  import opened Seqs
  import ApiService

  /** What `handleSalvarLote` ends with; the `alert` texts are represented by these tags. */
  datatype SaveOutcome =
    | NoCategory                      // no category chosen: returns at once
    | NoValidDates                    // "Nenhuma data válida encontrada..."
    | Saved(itens: int)               // "Salvo com sucesso! <itens> itens adicionados."
    | SaveFailed(mensagem: string)    // `res.mensagem || "Erro ao salvar"`

  /** The request `handleSalvarLote` sends to `salvarLoteDatas`: the parsed entries and the category's colour token. */
  datatype Pedido = Pedido(dados: seq<Entry>, cor: string)

  /** The display modes offered by the mode buttons: 1, 3, 6 or 12 months. */
  predicate IsModo(n: int) {
    n == 1 || n == 3 || n == 6 || n == 12
  }

  /** `parseInt(texto) || 2026`: NaN and 0 are falsy and give the default year. */
  function AnoDigitado(texto: string): (ano: int)
    ensures ano != 0
    ensures ParseInt(texto).None? ==> ano == 2026
    ensures ParseInt(texto) == Some(0) ==> ano == 2026
    ensures ParseInt(texto).Some? && ParseInt(texto).value != 0 ==> ano == ParseInt(texto).value
  {
    match ParseInt(texto)
    case None => 2026
    case Some(v) => if v == 0 then 2026 else v
  }

  /** A year typed as its digits is the year shown; an empty or zero field falls back to 2026. */
  lemma AnoDigitadoRoundTrip(n: nat)
    ensures AnoDigitado(NatToString(n)) == if n == 0 then 2026 else n
    ensures AnoDigitado("") == 2026
  {
    assert [] + NatToString(n) + [] == NatToString(n);
    DigitsValueOfNatToString(n);
    ParseIntNumeral([], NatToString(n), [], n);
  }

  /** The count the success alert shows: `res.salvos || dados.length`. */
  function SavedCount(salvos: Option<int>, enviados: nat): (n: int)
  {
    if salvos.Some? && salvos.value != 0 then salvos.value else enviados
  }

  /** The text the failure alert shows: `res.mensagem || "Erro ao salvar"`. */
  function FailureText(mensagem: string): (t: string)
  {
    if mensagem != [] then mensagem else "Erro ao salvar"
  }

  /** The success alert never reports zero items for a non-empty batch, and the failure alert is never empty. */
  lemma AlertsNeverBlank(salvos: Option<int>, enviados: nat, mensagem: string)
    requires enviados > 0
    ensures SavedCount(salvos, enviados) != 0
    ensures FailureText(mensagem) != []
    ensures mensagem != [] ==> FailureText(mensagem) == mensagem
  {
  }

  /**
   * The two loops of renderMonth, against the cells they must produce:
   * `first` spacers, then the cell `day(d)` of each day `d` from 1 to `n`.
   */
  method FillGrid<T>(spacer: T, day: nat -> T, first: nat, n: nat, ghost cells: seq<T>) returns (dias: seq<T>)
    requires |cells| == first + n
    requires forall x :: 0 <= x < first ==> cells[x] == spacer
    requires forall d :: 1 <= d <= n ==> cells[first + d - 1] == day(d)
    ensures dias == cells
  {
    dias := [];
    for x := 0 to first
      invariant dias == cells[..x]
    {
      assert cells[..x + 1] == cells[..x] + [spacer];
      dias := dias + [spacer];
    }
    for d := 1 to n + 1
      invariant dias == cells[..first + d - 1]
    {
      assert cells[..first + d] == cells[..first + d - 1] + [day(d)];
      dias := dias + [day(d)];
    }
    assert cells[..first + n] == cells;
  }

  /** The calendar screen's state. */
  class Calendar {
    var modoAtual: int
    var mesInicial: int
    var anoAtual: int
    var eventos: seq<Evento>
    var showModal: bool
    var loteConfig: Option<LegendaItem>
    var loteInput: string
    const palette: map<string, string>
    const itens: seq<LegendaItem>

    /** The state every handler keeps: a mode offered by the buttons and a month of the selector. */
    predicate Valid()
      reads this
    {
      IsModo(modoAtual) && 0 <= mesInicial < 12
    }

    /** The initial state: a whole year from January 2026, no events, the modal closed and empty. */
    constructor(palette: map<string, string>, itens: seq<LegendaItem>)
      ensures Valid()
      ensures modoAtual == 12 && mesInicial == 0 && anoAtual == 2026 && eventos == []
      ensures !showModal && loteConfig == None && loteInput == ""
      ensures this.palette == palette && this.itens == itens
    {
      modoAtual := 12;
      mesInicial := 0;
      anoAtual := 2026;
      eventos := [];
      showModal := false;
      loteConfig := None;
      loteInput := "";
      this.palette := palette;
      this.itens := itens;
    }

    /** A mode button: show `n` months. */
    method SetModo(n: int)
      requires Valid() && IsModo(n)
      modifies this
      ensures Valid() && modoAtual == n
      ensures mesInicial == old(mesInicial) && anoAtual == old(anoAtual) && eventos == old(eventos)
      ensures showModal == old(showModal) && loteConfig == old(loteConfig) && loteInput == old(loteInput)
    {
      modoAtual := n;
    }

    /** The month selector: start the window at month `i`. */
    method SetMesInicial(i: int)
      requires Valid() && 0 <= i < 12
      modifies this
      ensures Valid() && mesInicial == i
      ensures modoAtual == old(modoAtual) && anoAtual == old(anoAtual) && eventos == old(eventos)
      ensures showModal == old(showModal) && loteConfig == old(loteConfig) && loteInput == old(loteInput)
    {
      mesInicial := i;
    }

    /** The year field: `parseInt(value) || 2026`. */
    method SetAno(texto: string)
      requires Valid()
      modifies this
      ensures Valid() && anoAtual == AnoDigitado(texto)
      ensures modoAtual == old(modoAtual) && mesInicial == old(mesInicial) && eventos == old(eventos)
      ensures showModal == old(showModal) && loteConfig == old(loteConfig) && loteInput == old(loteInput)
    {
      var v := ParseInt(texto);
      if v.Some? && v.value != 0 {
        anoAtual := v.value;
      } else {
        anoAtual := 2026;
      }
    }

    /** loadEventos: the events are replaced by what `buscarDadosCalendario` returned. */
    method LoadEventos(data: seq<Evento>)
      requires Valid()
      modifies this
      ensures Valid() && eventos == data
      ensures modoAtual == old(modoAtual) && mesInicial == old(mesInicial) && anoAtual == old(anoAtual)
      ensures showModal == old(showModal) && loteConfig == old(loteConfig) && loteInput == old(loteInput)
    {
      eventos := data;
    }

    /** abrirModal: a legend category was clicked; the modal opens for it. */
    method AbrirModal(item: LegendaItem)
      requires Valid()
      modifies this
      ensures Valid() && showModal && loteConfig == Some(item) && loteInput == old(loteInput)
      ensures modoAtual == old(modoAtual) && mesInicial == old(mesInicial) && anoAtual == old(anoAtual)
      ensures eventos == old(eventos)
    {
      loteConfig := Some(item);
      showModal := true;
    }

    /** The modal's text area. */
    method SetLoteInput(texto: string)
      requires Valid()
      modifies this
      ensures Valid() && loteInput == texto
      ensures showModal == old(showModal) && loteConfig == old(loteConfig)
      ensures modoAtual == old(modoAtual) && mesInicial == old(mesInicial) && anoAtual == old(anoAtual)
      ensures eventos == old(eventos)
    {
      loteInput := texto;
    }

    /** fecharModal: the modal closes, its text is cleared and no category stays chosen. */
    method FecharModal()
      requires Valid()
      modifies this
      ensures Valid() && !showModal && loteInput == "" && loteConfig == None
      ensures modoAtual == old(modoAtual) && mesInicial == old(mesInicial) && anoAtual == old(anoAtual)
      ensures eventos == old(eventos)
    {
      showModal := false;
      loteInput := "";
      loteConfig := None;
    }

    /**
     * handleSalvarLote. Without a category nothing happens; with no line
     * holding a date nothing is sent. Otherwise the parsed entries go to
     * `salvarLoteDatas` with the category's colour (`pedido`), whose reply
     * `res` is built from the outcome of its POST (`resposta`); on success the events are reloaded (`recarregados`, the
     * reply of `buscarDadosCalendario`) and the modal is closed, on failure
     * the state is kept.
     */
    method HandleSalvarLote(resposta: ApiService.Resposta<Option<int>>, recarregados: seq<Evento>)
      returns (outcome: SaveOutcome, pedido: Option<Pedido>)
      requires Valid()
      modifies this
      ensures Valid()
      ensures modoAtual == old(modoAtual) && mesInicial == old(mesInicial) && anoAtual == old(anoAtual)
      ensures old(loteConfig).None? ==> outcome == NoCategory && pedido == None && unchanged(this)
      ensures old(loteConfig).Some? ==>
        var dados := ParsedEntries(NonBlankLines(old(loteInput)), old(loteConfig).value.l);
        var res := ApiService.SalvarLoteDatas(dados, old(loteConfig).value.c, resposta);
        (dados == [] ==> outcome == NoValidDates && pedido == None && unchanged(this)) &&
        (dados != [] ==> pedido == Some(Pedido(dados, old(loteConfig).value.c))) &&
        (dados != [] && res.Sucesso? ==>
          outcome == Saved(SavedCount(res.salvos, |dados|)) && eventos == recarregados &&
          !showModal && loteInput == "" && loteConfig == None) &&
        (dados != [] && res.Erro? ==> outcome == SaveFailed(FailureText(res.mensagem)) && unchanged(this))
    {
      if loteConfig.None? {
        return NoCategory, None;
      }
      var categoria := loteConfig.value;
      var dados := ParseLote(loteInput, categoria.l);
      if |dados| == 0 {
        return NoValidDates, None;
      }
      pedido := Some(Pedido(dados, categoria.c));
      var res := ApiService.SalvarLoteDatas(dados, categoria.c, resposta);
      if res.Sucesso? {
        outcome := Saved(SavedCount(res.salvos, |dados|));
        LoadEventos(recarregados);
        FecharModal();
      } else {
        outcome := SaveFailed(FailureText(res.mensagem));
      }
    }

    /** The months on screen: `modoAtual` consecutive months from `mesInicial`. */
    method RenderWindow() returns (meses: seq<MonthView>)
      requires Valid()
      ensures meses == Window(eventos, palette, anoAtual, mesInicial, modoAtual)
    {
      meses := RenderMonths(eventos, palette, anoAtual, mesInicial, modoAtual);
    }
  }

  /** The loop over the window: month `inicio + i` rendered for each `i < n`. */
  method RenderMonths(eventos: seq<Evento>, palette: map<string, string>, anoAtual: int, inicio: nat, n: nat)
    returns (meses: seq<MonthView>)
    ensures meses == Window(eventos, palette, anoAtual, inicio, n)
  {
    ghost var spec := MonthsFrom(eventos, palette, anoAtual, inicio);
    meses := [];
    for i := 0 to n
      invariant meses == Tabulate(i, spec)
    {
      var mv := RenderMonth(eventos, palette, anoAtual, inicio + i);
      meses := meses + [mv];
    }
  }

  /**
   * renderMonth: the grid of the month `abs` months after January of
   * `anoAtual`, drawn from the component's events and palette.
   */
  method RenderMonth(eventos: seq<Evento>, palette: map<string, string>, anoAtual: int, abs: nat) returns (mv: MonthView)
    ensures mv == MonthSpec(eventos, palette, anoAtual, abs)
  {
    var mesIdx := abs % 12;
    var ano := anoAtual + abs / 12;
    var diasNoMes := MonthLength(ano, mesIdx);
    var primeiroDiaSemana := FirstWeekday(ano, mesIdx);
    ghost var cells := GridCells(eventos, palette, mesIdx, primeiroDiaSemana, diasNoMes);
    GridCellsShape(eventos, palette, mesIdx, primeiroDiaSemana, diasNoMes);
    forall d | 1 <= d <= diasNoMes
      ensures cells[primeiroDiaSemana + d - 1] == DayCell(eventos, palette, ano, mesIdx, d)
    {
      DayCellColumn(eventos, palette, ano, mesIdx, d);
    }
    var dias := FillGrid(Spacer, d => DayCell(eventos, palette, ano, mesIdx, d), primeiroDiaSemana, diasNoMes, cells);
    mv := MonthView(mesIdx, ano, dias);
  }

}
