/** The bid fetch hook (hooks/useLicitacoes.ts): `fetchLicitacoes`, which
    classifies every outcome of `GET /api/licitacoes` and substitutes a
    static list instead of reporting an error, and `fetchLicitacaoById`,
    which has no fallback. The network is an input: the model receives what
    `fetch` produced. */
module BidsHook {
  import opened Wrappers
  import Kanban

  /** An optional text field as JSON delivers it: a string, `null`, or
      absent (`undefined`). */
  datatype JsText = Text(text: string) | Null | Undefined

  /** A bid as the hook's `Licitacao` interface describes it (fields the
      model reads). */
  datatype Licitacao = Licitacao(
    id: string,
    modalidade: JsText,
    numero: JsText,
    objeto: JsText,
    status: JsText)

  /** The development list used whenever the API gives no usable list. */
  const StaticBids: seq<Licitacao> := [
    Licitacao("lic-001", Text("Pregão Eletrônico"), Text("001/2023"),
      Text("Aquisição de equipamentos de informática"), Text("ativo")),
    Licitacao("lic-002", Text("Concorrência"), Text("002/2023"),
      Text("Reforma de prédio público"), Text("ativo")),
    Licitacao("lic-003", Text("Tomada de Preços"), Text("003/2023"),
      Text("Consultoria em gestão pública"), Text("ativo")),
    Licitacao("lic-004", Text("Convite"), Text("004/2023"),
      Text("Serviços gráficos"), Text("ativo")),
    Licitacao("lic-005", Text("Leilão"), Text("005/2023"),
      Text("Venda de bens inservíveis"), Text("ativo"))
  ]

  /** The static bids are all "ativo", which names no kanban column: on the
      board the fallback list shows nowhere. */
  lemma StaticBidsHaveNoColumn()
    ensures |StaticBids| == 5
    ensures forall b :: b in StaticBids ==> b.status == Text("ativo")
    ensures "ativo" !in Kanban.ColumnIds()
  {
    assert Kanban.ColumnIds() == ["analise_interna", "analise_edital", "aguardando_pregao", "em_andamento",
                                  "envio_documentos", "assinaturas", "vencida", "nao_vencida"];
  }

  /** The JSON value `response.json()` yields for the list endpoint:
      an array, an object whose `licitacoes` field is an array
      (`Some`) or is not one (`None`), or any other value. */
  datatype ListBody = BidArray(items: seq<Licitacao>) | ObjectBody(licitacoes: Option<seq<Licitacao>>) | OtherJson

  /** What `response.json()` does: resolves to a value, or rejects. */
  datatype Parsed<B> = Parsed(body: B) | Unparsable(message: string)

  /** A response: its status, what `response.text()` yields and what
      `response.json()` yields. */
  datatype Response<B> = Response(ok: bool, status: nat, text: Parsed<string>, json: Parsed<B>)

  /** What `await fetch(...)` does: resolves to a response, or throws. */
  datatype Fetched<B> = Responded(response: Response<B>) | FetchThrew(message: string)

  /** The request the hook sends, if any. */
  datatype Request = Request(url: string, authorization: string)

  datatype HookState = HookState(licitacoes: seq<Licitacao>, loading: bool, error: Option<string>)

  /** One call of an async hook function: the state while it awaits, the
      state once it settles, what it sent and what it resolves to. */
  datatype Run<V> = Run(request: Option<Request>, during: HookState, after: HookState, value: V)

  /** Where the list returned by `fetchLicitacoes` comes from. */
  datatype ListSource = FromArray | FromEnvelope | UnexpectedShape | NotOk | Failed

  /** Every outcome falls in exactly one class. */
  function Classify(f: Fetched<ListBody>): (c: ListSource)
    ensures c == FromArray <==> f.Responded? && f.response.ok && f.response.json.Parsed? && f.response.json.body.BidArray?
    ensures c == FromEnvelope <==>
      f.Responded? && f.response.ok && f.response.json.Parsed? &&
      f.response.json.body.ObjectBody? && f.response.json.body.licitacoes.Some?
    ensures c == UnexpectedShape <==>
      f.Responded? && f.response.ok && f.response.json.Parsed? &&
      (f.response.json.body.OtherJson? || f.response.json.body == ObjectBody(None))
    ensures c == NotOk <==> f.Responded? && !f.response.ok
    ensures c == Failed <==> f.FetchThrew? || (f.response.ok && f.response.json.Unparsable?)
  {
    match f
    case FetchThrew(_) => Failed
    case Responded(r) =>
      if !r.ok then NotOk
      else match r.json
        case Unparsable(_) => Failed
        case Parsed(BidArray(_)) => FromArray
        case Parsed(ObjectBody(Some(_))) => FromEnvelope
        case Parsed(_) => UnexpectedShape
  }

  /** `'Authorization': token ? \`Bearer ${token}\` : ''`: a bearer header
      exactly when there is a non-empty token. */
  function Authorization(token: Option<string>): (header: string)
    ensures header == "" <==> token.None? || token.value == ""
    ensures header != "" ==>
      |header| == |"Bearer "| + |token.value| &&
      header[..|"Bearer "|] == "Bearer " && header[|"Bearer "|..] == token.value
  {
    if token.Some? && token.value != "" then "Bearer " + token.value else ""
  }

  /** `fetchLicitacoes`: an array body, or the `licitacoes` array of an
      object body, becomes the list; every other shape, a non-OK status, an
      unreadable body and a thrown `fetch` all give the five static bids.
      The error stays `null` on every path and `loading` is false once it
      settles. */
  function FetchLicitacoes(st: HookState, token: Option<string>, f: Fetched<ListBody>): (run: Run<seq<Licitacao>>)
    ensures run.request == Some(Request("/api/licitacoes", Authorization(token)))
    ensures run.during == st.(loading := true, error := None)
    ensures run.after == HookState(run.value, false, None)
    ensures Classify(f) == FromArray ==> run.value == f.response.json.body.items
    ensures Classify(f) == FromEnvelope ==> run.value == f.response.json.body.licitacoes.value
    ensures Classify(f) in {UnexpectedShape, NotOk, Failed} ==> run.value == StaticBids
  {
    var during := st.(loading := true, error := None);
    var list :=
      match f
      case FetchThrew(_) => StaticBids
      case Responded(r) =>
        if !r.ok then StaticBids
        else match r.json
          case Unparsable(_) => StaticBids
          case Parsed(BidArray(items)) => items
          case Parsed(ObjectBody(Some(items))) => items
          case Parsed(_) => StaticBids;
    Run(Some(Request("/api/licitacoes", Authorization(token))), during, during.(licitacoes := list, loading := false), list)
  }

  /** The three fallback classes cannot be told apart by the caller: the
      list, the error and the loading flag are the same. */
  lemma FallbacksIndistinguishable(st: HookState, token: Option<string>, f: Fetched<ListBody>, g: Fetched<ListBody>)
    requires Classify(f) in {UnexpectedShape, NotOk, Failed}
    requires Classify(g) in {UnexpectedShape, NotOk, Failed}
    ensures FetchLicitacoes(st, token, f) == FetchLicitacoes(st, token, g)
  {
  }

  /** `${n}` for a natural number. */
  function NatToString(n: nat): (s: string)
    ensures |s| >= 1
    ensures forall i :: 0 <= i < |s| ==> '0' <= s[i] <= '9'
    ensures |s| > 1 ==> s[0] != '0'
  {
    if n < 10 then [Digit(n)] else NatToString(n / 10) + [Digit(n % 10)]
  }

  function Digit(d: nat): (c: char)
    requires d < 10
    ensures '0' <= c <= '9' && c as int - '0' as int == d
  {
    (d + '0' as int) as char
  }

  /** The number a string of decimal digits denotes. */
  function DigitsValue(s: string): nat
    requires forall i :: 0 <= i < |s| ==> '0' <= s[i] <= '9'
  {
    if |s| == 0 then 0 else DigitsValue(s[..|s| - 1]) * 10 + (s[|s| - 1] as int - '0' as int)
  }

  /** The status code printed in an error message reads back as itself. */
  lemma {:induction false} NatToStringRoundTrip(n: nat)
    ensures DigitsValue(NatToString(n)) == n
  {
    if n >= 10 {
      NatToStringRoundTrip(n / 10);
      var s := NatToString(n);
      assert s[..|s| - 1] == NatToString(n / 10);
    }
  }

  /** The JSON body of `GET /api/licitacoes/{id}`: its `licitacao` field,
      `None` when absent. */
  datatype ByIdBody = ByIdBody(licitacao: Option<Licitacao>)

  const ByIdErrorPrefix := "Erro ao buscar licitação: "

  /** `fetchLicitacaoById`: without a token nothing is requested and the
      error is "Não autenticado"; a non-OK answer records its status code and
      body text, or the message of a failed `response.text()`; a thrown
      `fetch` or an unreadable JSON body records its message.
      Every failure resolves to `null`; success resolves to the body's
      `licitacao` and clears the error. The list is never touched. */
  function FetchLicitacaoById(st: HookState, id: string, token: Option<string>, f: Fetched<ByIdBody>)
    : (run: Run<Option<Licitacao>>)
    ensures run.during == st.(loading := true, error := None)
    ensures run.after.loading == false && run.after.licitacoes == st.licitacoes
    ensures (token.None? || token.value == "") ==>
      run.request.None? && run.after.error == Some("Não autenticado") && run.value.None?
    ensures token.Some? && token.value != "" ==>
      run.request == Some(Request("/api/licitacoes/" + id, "Bearer " + token.value))
    ensures token.Some? && token.value != "" && f.Responded? && !f.response.ok ==>
      run.value.None? &&
      match f.response.text
      case Parsed(body) => run.after.error == Some(ByIdErrorPrefix + NatToString(f.response.status) + " " + body)
      case Unparsable(m) => run.after.error == Some(m)
    ensures token.Some? && token.value != "" && f.FetchThrew? ==>
      run.value.None? && run.after.error == Some(f.message)
    ensures token.Some? && token.value != "" && f.Responded? && f.response.ok ==>
      match f.response.json
      case Parsed(body) => run.value == body.licitacao && run.after.error.None?
      case Unparsable(m) => run.value.None? && run.after.error == Some(m)
  {
    var during := st.(loading := true, error := None);
    if token.None? || token.value == "" then
      Run(None, during, during.(loading := false, error := Some("Não autenticado")), None)
    else
      var request := Some(Request("/api/licitacoes/" + id, "Bearer " + token.value));
      match f
      case FetchThrew(m) => Run(request, during, during.(loading := false, error := Some(m)), None)
      case Responded(r) =>
        if !r.ok then
          var message :=
            match r.text
            case Parsed(body) => ByIdErrorPrefix + NatToString(r.status) + " " + body
            case Unparsable(m) => m;
          Run(request, during, during.(loading := false, error := Some(message)), None)
        else match r.json
          case Unparsable(m) => Run(request, during, during.(loading := false, error := Some(m)), None)
          case Parsed(body) => Run(request, during, during.(loading := false), body.licitacao)
  }

  /** A non-OK error message names the status code (recoverable from the
      digits after the prefix) and ends with the body text. */
  lemma NotOkMessageCarriesStatusAndBody(st: HookState, id: string, t: string, r: Response<ByIdBody>, body: string)
    requires t != "" && !r.ok && r.text == Parsed(body)
    ensures var e := FetchLicitacaoById(st, id, Some(t), Responded(r)).after.error.value;
      var digits := NatToString(r.status);
      && e[..|ByIdErrorPrefix|] == ByIdErrorPrefix
      && e[|ByIdErrorPrefix|..|ByIdErrorPrefix| + |digits|] == digits
      && DigitsValue(digits) == r.status
      && e[|e| - |body|..] == body
  {
    NatToStringRoundTrip(r.status);
  }
}
