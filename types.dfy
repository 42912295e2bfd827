/** The records the components and the API service exchange. */
module Types {
  import opened Wrappers

  /** A calendar event: its `DD/MM` date text, its colour token (palette key or colour value) and its caption. */
  datatype Evento = Evento(data: string, cor: string, legenda: string)

  /** A legend category: its label `l` and colour token `c`. */
  datatype LegendaItem = LegendaItem(l: string, c: string)

  /** One parsed line of a batch entry: its `DD/MM` date and its label. */
  datatype Entry = Entry(data: string, nome: string)

  /** The API service's reply: `{status: 'sucesso', salvos?}` or `{status: 'erro', mensagem}`. */
  datatype ApiResponse = Sucesso(salvos: Option<int>) | Erro(mensagem: string)
}
