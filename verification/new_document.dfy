/** The new-document dialog (components/documentos/novo-documento.tsx):
    required-field validation, the bid and category labels of the record it
    hands to its caller, and the rule that the form is cleared only when the
    caller accepted the record. */
module NewDocument {
  import opened Wrappers
  import opened Seqs
  import opened Records
  import opened Ui
  import BidsHook
  import Documents

  /** The dialog's text fields; every one starts out "". */
  datatype FormData = FormData(
    nome: string,
    tipo: string,
    categoria: string,
    licitacao: string,
    descricao: string,
    numeroDocumento: string,
    urlDocumento: string,
    dataValidade: string)

  const EmptyForm := FormData("", "", "", "", "", "", "", "")

  /** The chosen file. `sizeInMb` stands for the two-decimal megabyte figure
      the dialog prints, whose floating-point arithmetic is not modelled. */
  datatype SelectedFile = SelectedFile(name: string, sizeInMb: string)

  /** The select's value meaning "no bid". */
  const NoBid := "sem_licitacao"

  const Unlinked := "Não vinculado"

  /** `getCategoriaLabel`'s table, in the order it is written. */
  const CategoryLabels: seq<Entry> := [
    Entry("projetos", "Projetos"),
    Entry("contabeis", "Contábeis"),
    Entry("societarios", "Societários"),
    Entry("juridicos", "Jurídicos"),
    Entry("tecnicos", "Técnicos"),
    Entry("atestado_capacidade", "Atestado de Capacidade")
  ]

  /** The dialog labels exactly the categories the documents page colours,
      in the same order, and no label is empty. */
  lemma CategoryTablesAgree()
    ensures Keys(CategoryLabels) == Documents.CategoryIds == Keys(Documents.CategoryBadgeClasses)
    ensures UniqueKeys(CategoryLabels)
    ensures forall k :: 0 <= k < |CategoryLabels| ==> CategoryLabels[k].value != ""
  {
    Documents.CategoryTableMatchesIds();
  }

  /** `getCategoriaLabel`: a known id gets its label, any other id is shown
      as it is. */
  function CategoryLabel(id: string): (text: string)
    ensures forall k :: 0 <= k < |Documents.CategoryIds| && id == Documents.CategoryIds[k] ==>
      text == CategoryLabels[k].value
    ensures id !in Documents.CategoryIds ==> text == id
  {
    CategoryLabelLookup(id);
    GetOr(CategoryLabels, id, id)
  }

  lemma CategoryLabelLookup(id: string)
    ensures forall k :: 0 <= k < |Documents.CategoryIds| && id == Documents.CategoryIds[k] ==>
      GetOr(CategoryLabels, id, id) == CategoryLabels[k].value
    ensures id !in Documents.CategoryIds ==> GetOr(CategoryLabels, id, id) == id
  {
    CategoryTablesAgree();
    LookupInTable(CategoryLabels, id, id);
  }

  function BidId(b: BidsHook.Licitacao): string {
    b.id
  }

  /** `licitacoes.find(lic => lic.id === id)`: the first bid with that id. */
  function FindBid(bids: seq<BidsHook.Licitacao>, id: string): (r: Option<BidsHook.Licitacao>)
    ensures r.None? <==> forall b :: b in bids ==> b.id != id
    ensures r.Some? ==> r.value in bids && r.value.id == id && IsFirstOf(bids, BidId, r.value)
  {
    var i := FirstIndex(bids, BidId, id);
    if i == -1 then None else Some(bids[i])
  }

  /** `${value}` for a text field: JavaScript prints `null` as "null" and an
      absent field as "undefined". */
  function TemplateText(o: BidsHook.JsText): string {
    match o
    case Text(s) => s
    case Null => "null"
    case Undefined => "undefined"
  }

  /** The bid name and id the record carries. */
  datatype BidLink = BidLink(licitacao: string, licitacaoId: string)

  /** The bid resolution of `handleSubmit`: "sem_licitacao" links nothing;
      an id found among the loaded bids is named "modalidade numero"; an id
      not found is named "Não vinculado" but its id is still recorded. */
  function ResolveBid(selected: string, bids: seq<BidsHook.Licitacao>): (link: BidLink)
    ensures selected == NoBid ==> link == BidLink(Unlinked, "")
    ensures selected != NoBid ==> link.licitacaoId == selected
    ensures selected != NoBid && (forall b :: b in bids ==> b.id != selected) ==> link.licitacao == Unlinked
    ensures selected != NoBid && FindBid(bids, selected).Some? ==>
      var b := FindBid(bids, selected).value;
      link.licitacao == TemplateText(b.modalidade) + " " + TemplateText(b.numero)
  {
    var nome :=
      if selected != NoBid then
        match FindBid(bids, selected)
        case Some(b) => TemplateText(b.modalidade) + " " + TemplateText(b.numero)
        case None => Unlinked
      else Unlinked;
    BidLink(if selected == NoBid then Unlinked else nome, if selected == NoBid then "" else selected)
  }

  /** The record handed to `onDocumentoAdded`. Upload and expiry dates come
      from the clock and the date library and are not modelled. */
  datatype NewDocumentRecord = NewDocumentRecord(
    nome: string,
    tipo: string,
    categoria: string,
    categoriaId: string,
    licitacao: string,
    licitacaoId: string,
    tamanho: string,
    descricao: string,
    numeroDocumento: string,
    urlDocumento: string,
    uploadPor: string)

  function BuildRecord(form: FormData, bids: seq<BidsHook.Licitacao>, file: Option<SelectedFile>)
    : (r: NewDocumentRecord)
    ensures r.nome == form.nome && r.tipo == form.tipo
    ensures r.categoriaId == form.categoria && r.categoria == CategoryLabel(form.categoria)
    ensures BidLink(r.licitacao, r.licitacaoId) == ResolveBid(form.licitacao, bids)
    ensures file.None? ==> r.tamanho == "0 KB"
    ensures file.Some? ==> r.tamanho == file.value.sizeInMb + " MB"
    ensures r.descricao == form.descricao && r.numeroDocumento == form.numeroDocumento
    ensures r.urlDocumento == form.urlDocumento && r.uploadPor == "Usuário atual"
  {
    var link := ResolveBid(form.licitacao, bids);
    NewDocumentRecord(
      nome := form.nome,
      tipo := form.tipo,
      categoria := CategoryLabel(form.categoria),
      categoriaId := form.categoria,
      licitacao := link.licitacao,
      licitacaoId := link.licitacaoId,
      tamanho := if file.Some? then file.value.sizeInMb + " MB" else "0 KB",
      descricao := form.descricao,
      numeroDocumento := form.numeroDocumento,
      urlDocumento := form.urlDocumento,
      uploadPor := "Usuário atual")
  }

  /** What the optional `onDocumentoAdded` callback does with the record. */
  datatype Callback = NoCallback | Accepts | Throws(message: string)

  datatype DialogState = DialogState(form: FormData, file: Option<SelectedFile>, open: bool, isSubmitting: bool)

  /** One submission: the state afterwards, the record and file the callback
      received (if there is a callback) and the notification raised. */
  datatype Submission = Submission(state: DialogState, delivered: Option<(NewDocumentRecord, Option<SelectedFile>)>, toast: Toast)

  predicate MissingRequired(form: FormData) {
    form.nome == "" || form.tipo == "" || form.categoria == ""
  }

  /** `handleSubmit`: a missing name, type or category stops before anything
      happens; otherwise the record goes to the callback, and the form, the
      file and the dialog are reset only if the callback did not throw. */
  function HandleSubmit(st: DialogState, bids: seq<BidsHook.Licitacao>, callback: Callback): (s: Submission)
    ensures MissingRequired(st.form) ==>
      s.state == st && s.delivered.None? && s.toast == Toast("Campos obrigatórios",
        "Por favor, preencha todos os campos obrigatórios.", true)
    ensures !MissingRequired(st.form) ==> !s.state.isSubmitting
    ensures !MissingRequired(st.form) && !callback.NoCallback? ==>
      s.delivered == Some((BuildRecord(st.form, bids, st.file), st.file))
    ensures callback.NoCallback? ==> s.delivered.None?
    ensures !MissingRequired(st.form) && !callback.Throws? ==>
      s.state == DialogState(EmptyForm, None, false, false) && !s.toast.destructive
    ensures !MissingRequired(st.form) && callback.Throws? ==>
      s.state == st.(isSubmitting := false) && s.toast.destructive &&
      s.toast.description == (if callback.message != "" then callback.message
                              else "Ocorreu um erro ao criar o documento.")
  {
    if MissingRequired(st.form) then
      Submission(st, None, Toast("Campos obrigatórios", "Por favor, preencha todos os campos obrigatórios.", true))
    else
      var record := BuildRecord(st.form, bids, st.file);
      var delivered := if callback.NoCallback? then None else Some((record, st.file));
      match callback
      case Throws(m) =>
        var description := if m != "" then m else "Ocorreu um erro ao criar o documento.";
        Submission(st.(isSubmitting := false), delivered, Toast("Erro ao criar documento", description, true))
      case _ =>
        Submission(DialogState(EmptyForm, None, false, false), delivered,
          Toast("Documento criado", "O documento foi criado com sucesso!", false))
  }

  /** For loaded bids with distinct ids, choosing a bid links exactly that
      bid, named by its own modality and number. */
  lemma ResolveLoadedBid(bids: seq<BidsHook.Licitacao>, b: BidsHook.Licitacao)
    requires DistinctKeys(bids, BidId)
    requires b in bids && b.id != NoBid
    ensures ResolveBid(b.id, bids) == BidLink(TemplateText(b.modalidade) + " " + TemplateText(b.numero), b.id)
  {
    var found := FindBid(bids, b.id);
    assert found.Some?;
    var k :| 0 <= k < |bids| && bids[k] == b;
    var i := FirstIndex(bids, BidId, b.id);
    assert bids[i] == found.value;
    assert i == k;
  }

  /** The form is cleared only by a submission that passed validation and
      whose callback did not throw; a failed one keeps every field and the
      file so the user can retry. */
  lemma ResetOnlyOnSuccess(st: DialogState, bids: seq<BidsHook.Licitacao>, callback: Callback)
    requires st.form != EmptyForm || st.file.Some?
    ensures var s := HandleSubmit(st, bids, callback);
      (s.state.form == EmptyForm && s.state.file.None?) <==> !MissingRequired(st.form) && !callback.Throws?
  {
  }
}
