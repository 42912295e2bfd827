/**
 * The SheetDB service: checking a login against the `Usuarios` sheet,
 * reading the `Calendario` sheet into events and writing a batch of dated
 * events back to it. Each HTTP exchange is a parameter `Resposta`: a body
 * from an OK response, a non-OK status, or a thrown error with its message.
 */
module ApiService {
  import opened Wrappers
  import opened Text
  import opened Types
  import opened Seqs

  /** A sheet row as SheetDB returns it: column name to cell text. A column the row lacks is `undefined`. */
  type Row = map<string, string>

  /** The outcome of one `fetch` and its `response.json()`. */
  datatype Resposta<T> = Ok(corpo: T) | NaoOk | Falha(mensagem: string)

  const ErroConexao: string := "Erro ao conectar com o banco de dados"
  const ErroCredenciais: string := "E-mail ou senha incorretos"
  const PrefixoAutenticacao: string := "Erro na autenticação: "
  const ErroGravacao: string := "Erro ao salvar no banco de dados"
  const PrefixoGravacao: string := "Erro ao salvar: "

  /** A column whose value JavaScript treats as true: present and not the empty string. */
  predicate Truthy(row: Row, key: string) {
    key in row && row[key] != ""
  }

  /** `row[k]`, with `undefined` read as the empty string (both are falsy). */
  function Cell(row: Row, key: string): string {
    if key in row then row[key] else ""
  }

  /** JavaScript's `a || b` on strings: `a` unless it is empty. */
  function Or(a: string, b: string): string {
    if a != "" then a else b
  }

  // ---------------------------------------------------------------------------
  // autenticarUsuario
  // ---------------------------------------------------------------------------

  /** The stored e-mail of a user row: `Email`, else `email`, else `E-mail`, trimmed and lower-cased. */
  function UserEmail(u: Row): string {
    ToLower(Trim(Or(Or(Cell(u, "Email"), Cell(u, "email")), Cell(u, "E-mail"))))
  }

  /** The stored password of a user row: `Senha`, else `senha`, trimmed. */
  function UserSenha(u: Row): string {
    Trim(Or(Cell(u, "Senha"), Cell(u, "senha")))
  }

  /** The `find` callback: both the cleaned e-mail and the cleaned password agree. */
  predicate UserMatches(u: Row, email: string, senha: string) {
    UserEmail(u) == ToLower(Trim(email)) && UserSenha(u) == Trim(senha)
  }

  /** `users.find(...)`: the index of the first matching row, if any. */
  function FindUser(users: seq<Row>, email: string, senha: string): Option<nat> {
    FindIndex(users, u => UserMatches(u, email, senha))
  }

  /**
   * `autenticarUsuario(email, senha)` given the outcome of reading the
   * `Usuarios` sheet: success when some row matches, the credentials error
   * when none does, and the authentication prefix on any thrown failure.
   */
  function AutenticarUsuario(resposta: Resposta<seq<Row>>, email: string, senha: string): (r: ApiResponse)
    ensures resposta.Ok? ==>
              (r.Sucesso? <==> exists i :: 0 <= i < |resposta.corpo| && UserMatches(resposta.corpo[i], email, senha))
    ensures r.Sucesso? ==> resposta.Ok? && r.salvos.None?
    ensures resposta.Ok? && r.Erro? ==> r.mensagem == ErroCredenciais
    ensures resposta.NaoOk? ==> r == Erro(PrefixoAutenticacao + ErroConexao)
    ensures resposta.Falha? ==>
              r.Erro? && StartsWith(r.mensagem, PrefixoAutenticacao) &&
              r.mensagem[|PrefixoAutenticacao|..] == resposta.mensagem
  {
    match resposta
    case NaoOk => Erro(PrefixoAutenticacao + ErroConexao)
    case Falha(m) => Erro(PrefixoAutenticacao + m)
    case Ok(users) =>
      if FindUser(users, email, senha).Some? then Sucesso(None) else Erro(ErroCredenciais)
  }

  /** White space around the typed e-mail or password does not change the outcome. */
  lemma LoginIgnoresPadding(resposta: Resposta<seq<Row>>, w1: string, email: string, w2: string,
                            w3: string, senha: string, w4: string)
    requires AllSpace(w1) && AllSpace(w2) && AllSpace(w3) && AllSpace(w4)
    ensures AutenticarUsuario(resposta, w1 + email + w2, w3 + senha + w4) ==
            AutenticarUsuario(resposta, email, senha)
  {
    TrimSurrounded(w1, email, w2);
    TrimSurrounded(w3, senha, w4);
    if resposta.Ok? {
      var users := resposta.corpo;
      assert forall i :: 0 <= i < |users| ==>
        (UserMatches(users[i], w1 + email + w2, w3 + senha + w4) <==> UserMatches(users[i], email, senha));
    }
  }

  /** The typed e-mail is compared without regard to case: typing it in capitals gives the same outcome. */
  lemma LoginIgnoresEmailCase(resposta: Resposta<seq<Row>>, email: string, senha: string)
    ensures AutenticarUsuario(resposta, ToUpper(email), senha) == AutenticarUsuario(resposta, email, senha)
  {
    TrimToUpper(email);
    LowerOfUpper(Trim(email));
    assert ToLower(Trim(ToUpper(email))) == ToLower(Trim(email));
    if resposta.Ok? {
      var users := resposta.corpo;
      assert forall i :: 0 <= i < |users| ==>
        (UserMatches(users[i], ToUpper(email), senha) <==> UserMatches(users[i], email, senha));
    }
  }

  /** A user row under the lower-case `email` column is found when `Email` is blank or missing. */
  lemma LoginFallsBackToLowerCaseColumn(u: Row, email: string, senha: string)
    requires !Truthy(u, "Email") && Truthy(u, "email")
    ensures UserEmail(u) == ToLower(Trim(u["email"]))
  {
  }

  /**
   * The password, unlike the e-mail, is compared with its case: a row that
   * accepts a password with a lower-case letter rejects the same password in capitals.
   */
  lemma PasswordIsCaseSensitive(u: Row, email: string, senha: string, i: nat)
    requires i < |senha| && IsLowerLetter(senha[i])
    requires UserMatches(u, email, senha)
    ensures !UserMatches(u, email, ToUpper(senha))
  {
    TrimToUpper(senha);
    var w1, w2 := TrimPieces(senha);
    assert |w1| <= i < |w1| + |Trim(senha)|;
    assert senha[i] == Trim(senha)[i - |w1|];
  }

  // ---------------------------------------------------------------------------
  // buscarDadosCalendario
  // ---------------------------------------------------------------------------

  /** One `Calendario` row as an event: `Data||data`, `Cor||cor`, `Legenda||legenda`. */
  function RowToEvento(row: Row): (e: Evento)
    ensures Truthy(row, "Data") ==> e.data == row["Data"]
    ensures !Truthy(row, "Data") ==> e.data == (if "data" in row then row["data"] else "")
    ensures Truthy(row, "Cor") ==> e.cor == row["Cor"]
    ensures !Truthy(row, "Cor") ==> e.cor == (if "cor" in row then row["cor"] else "")
    ensures Truthy(row, "Legenda") ==> e.legenda == row["Legenda"]
    ensures !Truthy(row, "Legenda") ==> e.legenda == (if "legenda" in row then row["legenda"] else "")
  {
    Evento(Or(Cell(row, "Data"), Cell(row, "data")), Or(Cell(row, "Cor"), Cell(row, "cor")),
           Or(Cell(row, "Legenda"), Cell(row, "legenda")))
  }

  function MapRows(rows: seq<Row>): (es: seq<Evento>)
    ensures |es| == |rows|
    ensures forall i :: 0 <= i < |rows| ==> es[i] == RowToEvento(rows[i])
  {
    if rows == [] then [] else [RowToEvento(rows[0])] + MapRows(rows[1..])
  }

  /** `buscarDadosCalendario()`: one event per row, in row order; the empty list on any failure. */
  function BuscarDadosCalendario(resposta: Resposta<seq<Row>>): (es: seq<Evento>)
    ensures resposta.Ok? ==> |es| == |resposta.corpo| &&
                             forall i :: 0 <= i < |es| ==> es[i] == RowToEvento(resposta.corpo[i])
    ensures !resposta.Ok? ==> es == []
  {
    if resposta.Ok? then MapRows(resposta.corpo) else []
  }

  /** Reading two runs of rows gives the events of the first run followed by those of the second. */
  lemma {:induction false} MapRowsAppend(a: seq<Row>, b: seq<Row>)
    ensures MapRows(a + b) == MapRows(a) + MapRows(b)
    decreases |a|
  {
    if a == [] {
      assert a + b == b;
    } else {
      assert (a + b)[1..] == a[1..] + b;
      MapRowsAppend(a[1..], b);
    }
  }

  // ---------------------------------------------------------------------------
  // salvarLoteDatas
  // ---------------------------------------------------------------------------

  /** The row written for one dated entry: its date, the batch colour and its name in capitals. */
  function BuildRow(item: Entry, cor: string): (row: Row)
    ensures row.Keys == {"Data", "Cor", "Legenda"}
    ensures row["Data"] == item.data && row["Cor"] == cor && row["Legenda"] == ToUpper(item.nome)
  {
    map["Data" := item.data, "Cor" := cor, "Legenda" := ToUpper(item.nome)]
  }

  /** The `rows` of a batch: one row per entry, in the entries' order. */
  function BuildRows(dados: seq<Entry>, cor: string): (rows: seq<Row>)
    ensures |rows| == |dados|
    ensures forall i :: 0 <= i < |dados| ==> rows[i] == BuildRow(dados[i], cor)
  {
    if dados == [] then [] else [BuildRow(dados[0], cor)] + BuildRows(dados[1..], cor)
  }

  /**
   * `salvarLoteDatas(dados, cor)` given the outcome of the POST, whose body
   * may carry `created`: the count is `created` when that is truthy and the
   * number of rows otherwise; any failure carries the saving prefix.
   */
  function SalvarLoteDatas(dados: seq<Entry>, cor: string, resposta: Resposta<Option<int>>): (r: ApiResponse)
    ensures r.Sucesso? <==> resposta.Ok?
    ensures resposta.Ok? && resposta.corpo.Some? && resposta.corpo.value != 0 ==> r.salvos == resposta.corpo
    ensures resposta.Ok? && (resposta.corpo.None? || resposta.corpo.value == 0) ==>
              r.salvos == Some(|BuildRows(dados, cor)|) && r.salvos == Some(|dados|)
    ensures resposta.NaoOk? ==> r == Erro(PrefixoGravacao + ErroGravacao)
    ensures resposta.Falha? ==>
              StartsWith(r.mensagem, PrefixoGravacao) && r.mensagem[|PrefixoGravacao|..] == resposta.mensagem
  {
    var rows := BuildRows(dados, cor);
    match resposta
    case NaoOk => Erro(PrefixoGravacao + ErroGravacao)
    case Falha(m) => Erro(PrefixoGravacao + m)
    case Ok(created) =>
      Sucesso(Some(if created.Some? && created.value != 0 then created.value else |rows|))
  }

  /** A written row reads back as the entry it came from, with the batch colour and the name in capitals. */
  lemma RowRoundTrip(item: Entry, cor: string)
    ensures RowToEvento(BuildRow(item, cor)) == Evento(item.data, cor, ToUpper(item.nome))
  {
    var row := BuildRow(item, cor);
    assert "data" !in row.Keys && "cor" !in row.Keys && "legenda" !in row.Keys;
  }

  /**
   * Writing a batch and reading it back gives the batch's events in order,
   * each with the batch colour and its name in capitals.
   */
  lemma SaveThenLoad(dados: seq<Entry>, cor: string)
    ensures var es := BuscarDadosCalendario(Ok(BuildRows(dados, cor)));
            |es| == |dados| &&
            forall i :: 0 <= i < |dados| ==> es[i] == Evento(dados[i].data, cor, ToUpper(dados[i].nome))
  {
    var rows := BuildRows(dados, cor);
    forall i | 0 <= i < |dados|
      ensures RowToEvento(rows[i]) == Evento(dados[i].data, cor, ToUpper(dados[i].nome))
    {
      RowRoundTrip(dados[i], cor);
    }
  }
}
