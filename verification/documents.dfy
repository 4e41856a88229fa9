/** The documents list page (app/documentos/page.tsx): normalising API
    records, the three-field filter, the distinct option lists the filter
    offers, the category badge, the download link and the sample-data
    fallback. */
module Documents {
  import opened Wrappers
  import opened Seqs
  import opened Records
  import opened Ui

  /** JavaScript truthiness of an optional string: present and non-empty. */
  predicate Truthy(o: Option<string>) {
    o.Some? && o.value != ""
  }

  /** `value || ""`. */
  function OrEmpty(o: Option<string>): (s: string)
    ensures s == "" <==> !Truthy(o)
    ensures s != "" ==> o == Some(s)
  {
    if Truthy(o) then o.value else ""
  }

  /** The string fields of a document row as the API returns them. */
  datatype ApiDocument = ApiDocument(
    id: string,
    nome: Option<string>,
    tipo: Option<string>,
    formato: Option<string>,
    categoria: Option<string>,
    categoria_id: Option<string>,
    licitacao_nome: Option<string>,
    licitacao_id: Option<string>,
    uploaded_by: Option<string>,
    descricao: Option<string>,
    arquivo_path: Option<string>)

  /** A document as the page shows it. */
  datatype Documento = Documento(
    id: string,
    nome: string,
    tipo: string,
    formato: string,
    categoria: string,
    categoriaId: string,
    licitacao: string,
    licitacaoId: string,
    licitacao_id: Option<string>,
    uploadPor: string,
    resumo: string,
    url: Option<string>,
    arquivo_path: Option<string>)

  /** `formatarDocumentoParaUI`, string fields only: every missing or empty
      field becomes "", every present one is kept, `licitacao_id` and
      `arquivo_path` are carried over untouched and no `url` is set. */
  function FormatForUI(doc: ApiDocument): (d: Documento)
    ensures d.id == doc.id
    ensures d.nome == OrEmpty(doc.nome) && d.tipo == OrEmpty(doc.tipo) && d.formato == OrEmpty(doc.formato)
    ensures d.categoria == OrEmpty(doc.categoria) && d.categoriaId == OrEmpty(doc.categoria_id)
    ensures d.licitacao == OrEmpty(doc.licitacao_nome)
    ensures d.licitacaoId == OrEmpty(doc.licitacao_id) && d.licitacao_id == doc.licitacao_id
    ensures d.uploadPor == OrEmpty(doc.uploaded_by) && d.resumo == OrEmpty(doc.descricao)
    ensures d.arquivo_path == doc.arquivo_path && d.url.None?
  {
    Documento(
      id := doc.id,
      nome := OrEmpty(doc.nome),
      tipo := OrEmpty(doc.tipo),
      formato := OrEmpty(doc.formato),
      categoria := OrEmpty(doc.categoria),
      categoriaId := OrEmpty(doc.categoria_id),
      licitacao := OrEmpty(doc.licitacao_nome),
      licitacaoId := OrEmpty(doc.licitacao_id),
      licitacao_id := doc.licitacao_id,
      uploadPor := OrEmpty(doc.uploaded_by),
      resumo := OrEmpty(doc.descricao),
      url := None,
      arquivo_path := doc.arquivo_path)
  }

  /** `documents.map(formatarDocumentoParaUI)`. */
  function FormatAll(documents: seq<ApiDocument>): (ds: seq<Documento>)
    ensures |ds| == |documents|
    ensures forall i :: 0 <= i < |documents| ==> ds[i] == FormatForUI(documents[i])
  {
    Map(FormatForUI, documents)
  }

  /** The page's built-in sample documents, shown while the API list is empty. */
  const SampleDocuments: seq<Documento> := [
    Sample("1", "Edital_Pregao_123.pdf", "Edital", "pdf", "Jurídicos", "juridicos",
      "Pregão Eletrônico 123/2023", "pregao_123", "Ana Silva"),
    Sample("2", "Proposta_Comercial.docx", "Proposta", "docx", "Projetos", "projetos",
      "Concorrência 45/2023", "concorrencia_45", "Carlos Oliveira"),
    Sample("3", "Certidao_Negativa.pdf", "Certidão", "pdf", "Contábeis", "contabeis",
      "Tomada de Preços 78/2023", "tomada_78", "Maria Souza"),
    Sample("4", "Contrato_Assinado.pdf", "Contrato", "pdf", "Jurídicos", "juridicos",
      "Pregão Presencial 56/2023", "pregao_56", "Pedro Santos"),
    Sample("5", "Planilha_Orcamentaria.xlsx", "Planilha", "xlsx", "Contábeis", "contabeis",
      "Concorrência 92/2023", "concorrencia_92", "Ana Silva"),
    Sample("6", "Estatuto_Social.pdf", "Documento Legal", "pdf", "Jurídicos", "juridicos",
      "Pregão Eletrônico 123/2023", "pregao_123", "Carlos Oliveira"),
    Sample("7", "Apresentacao_Projeto.pptx", "Apresentação", "pptx", "Projetos", "projetos",
      "Tomada de Preços 78/2023", "tomada_78", "Maria Souza"),
    Sample("8", "Relatorio_Tecnico.pdf", "Relatório", "pdf", "Técnicos", "tecnicos",
      "Concorrência 45/2023", "concorrencia_45", "Pedro Santos")
  ]

  /** A sample record: no `url`, no `arquivo_path`, no `licitacao_id`. The
      summaries, dates and sizes of the samples are not modelled. */
  function Sample(id: string, nome: string, tipo: string, formato: string, categoria: string,
                  categoriaId: string, licitacao: string, licitacaoId: string, uploadPor: string): Documento
  {
    Documento(id, nome, tipo, formato, categoria, categoriaId, licitacao, licitacaoId, None, uploadPor, "", None, None)
  }

  /** The effect run when `documents` changes: the formatted API list, or the
      eight samples when the API list is empty. */
  function Displayed(documents: seq<ApiDocument>): (shown: seq<Documento>)
    ensures |documents| == 0 ==> shown == SampleDocuments && |shown| == 8
    ensures |documents| > 0 ==> shown == FormatAll(documents) && |shown| == |documents|
  {
    if |documents| > 0 then FormatAll(documents) else SampleDocuments
  }

  /** The three filter fields; "" leaves a field unconstrained. */
  datatype Filters = Filters(tipo: string, categoria: string, licitacao: string)

  const NoFilters := Filters("", "", "")

  function TipoIs(t: string): Documento -> bool {
    (d: Documento) => d.tipo == t
  }

  function CategoriaIs(c: string): Documento -> bool {
    (d: Documento) => d.categoriaId == c
  }

  function LicitacaoIs(l: string): Documento -> bool {
    (d: Documento) => d.licitacaoId == l
  }

  /** The conjunction the three filters state together: each non-empty field
      must equal the document's corresponding field. */
  predicate MatchesAll(f: Filters, d: Documento) {
    && (f.tipo == "" || d.tipo == f.tipo)
    && (f.categoria == "" || d.categoriaId == f.categoria)
    && (f.licitacao == "" || d.licitacaoId == f.licitacao)
  }

  function Matching(f: Filters): Documento -> bool {
    (d: Documento) => MatchesAll(f, d)
  }

  /** The three `if (filtros.x) docsAtivos = docsAtivos.filter(...)` steps, in order. */
  function FilterSteps(all: seq<Documento>, f: Filters): seq<Documento> {
    var byTipo := if f.tipo != "" then Filter(TipoIs(f.tipo), all) else all;
    var byCategoria := if f.categoria != "" then Filter(CategoriaIs(f.categoria), byTipo) else byTipo;
    if f.licitacao != "" then Filter(LicitacaoIs(f.licitacao), byCategoria) else byCategoria
  }

  /** The sequence of guarded filters is one filter by the conjunction. */
  lemma FilterStepsIsConjunction(all: seq<Documento>, f: Filters)
    ensures FilterSteps(all, f) == Filter(Matching(f), all)
  {
    var p1 := (d: Documento) => f.tipo == "" || d.tipo == f.tipo;
    var p12 := (d: Documento) => p1(d) && (f.categoria == "" || d.categoriaId == f.categoria);
    var byTipo := if f.tipo != "" then Filter(TipoIs(f.tipo), all) else all;
    if f.tipo != "" {
      assert Filter(TipoIs(f.tipo), all) == Filter(p1, all) by {
        FilterFilter(TipoIs(f.tipo), TipoIs(f.tipo), p1, all);
        FilterIdempotent(TipoIs(f.tipo), all);
      }
    } else {
      FilterAll(p1, all);
    }
    assert byTipo == Filter(p1, all);
    var byCategoria := if f.categoria != "" then Filter(CategoriaIs(f.categoria), byTipo) else byTipo;
    if f.categoria != "" {
      FilterFilter(p1, CategoriaIs(f.categoria), p12, all);
    } else {
      FilterFilter(p1, (d: Documento) => true, p12, all);
      FilterAll((d: Documento) => true, byTipo);
    }
    assert byCategoria == Filter(p12, all);
    if f.licitacao != "" {
      FilterFilter(p12, LicitacaoIs(f.licitacao), Matching(f), all);
    } else {
      FilterFilter(p12, (d: Documento) => true, Matching(f), all);
      FilterAll((d: Documento) => true, byCategoria);
    }
  }

  /** `filtrarDocumentos`: always starts again from the full formatted API
      list, and keeps, in order, exactly the documents matching every
      non-empty field. */
  function FilterDocuments(documents: seq<ApiDocument>, f: Filters): (r: seq<Documento>)
    ensures r == Filter(Matching(f), FormatAll(documents))
    ensures forall d :: d in r <==> d in FormatAll(documents) && MatchesAll(f, d)
    ensures forall d :: multiset(r)[d] == if MatchesAll(f, d) then multiset(FormatAll(documents))[d] else 0
    ensures IsSubseq(r, FormatAll(documents))
  {
    FilterStepsIsConjunction(FormatAll(documents), f);
    FilterCounts(Matching(f), FormatAll(documents));
    FilterSteps(FormatAll(documents), f)
  }

  /** With every field empty the whole formatted list is shown; when the
      API list is empty, filtering shows nothing, not the samples. */
  lemma NoFiltersShowAll(documents: seq<ApiDocument>)
    ensures FilterDocuments(documents, NoFilters) == FormatAll(documents)
    ensures |documents| > 0 ==> FilterDocuments(documents, NoFilters) == Displayed(documents)
    ensures FilterDocuments([], NoFilters) == [] != Displayed([])
  {
  }

  /** The page state the filter replaces. */
  datatype PageState = PageState(documents: seq<ApiDocument>, shown: seq<Documento>)

  function OnFilterChange(st: PageState, f: Filters): (st': PageState)
    ensures st'.documents == st.documents
    ensures st'.shown == Filter(Matching(f), FormatAll(st.documents))
    ensures forall d :: multiset(st'.shown)[d] == if MatchesAll(f, d) then multiset(FormatAll(st.documents))[d] else 0
  {
    st.(shown := FilterDocuments(st.documents, f))
  }

  /** The previously shown list plays no part: re-applying a filter, or
      applying it after any other filter, gives the same list. */
  lemma FilterForgetsPrevious(st: PageState, f: Filters, g: Filters)
    ensures OnFilterChange(OnFilterChange(st, g), f) == OnFilterChange(st, f)
    ensures OnFilterChange(OnFilterChange(st, f), f) == OnFilterChange(st, f)
  {
  }

  function Identity(s: string): string {
    s
  }

  function NonEmpty(s: string): bool {
    s != ""
  }

  function TipoOf(d: Documento): string {
    d.tipo
  }

  /** `tiposUnicos`: the non-empty types of the shown documents, each once,
      in order of first appearance. */
  function TiposUnicos(shown: seq<Documento>): (r: seq<string>)
    ensures forall i, j :: 0 <= i < j < |r| ==> r[i] != r[j]
    ensures "" !in r
    ensures forall t :: t in r ==> exists d :: d in shown && d.tipo == t
    ensures forall d :: d in shown && d.tipo != "" ==> d.tipo in r
    ensures IsSubseq(r, Map(TipoOf, shown))
    ensures InFirstAppearanceOrder(r, Map(TipoOf, shown), Identity)
  {
    var tipos := Map(TipoOf, shown);
    MapMembers(TipoOf, shown);
    var r := FirstOccurrences(tipos, Identity, NonEmpty);
    assert forall t :: t in KeysOf(r, Identity) ==> t in r;
    r
  }

  /** When the shown documents' types are already distinct and non-empty,
      the type options are exactly those types, in document order. */
  lemma TiposOfDistinctDocuments(shown: seq<Documento>)
    requires forall i, j :: 0 <= i < j < |shown| ==> shown[i].tipo != shown[j].tipo
    requires forall d :: d in shown ==> d.tipo != ""
    ensures TiposUnicos(shown) == Map(TipoOf, shown)
  {
    var tipos := Map(TipoOf, shown);
    forall t | t in tipos ensures NonEmpty(Identity(t)) {
      var i :| 0 <= i < |tipos| && tipos[i] == t;
      assert shown[i] in shown;
    }
    KeepFirstsOfDistinct(tipos, Identity, NonEmpty, |tipos|);
    assert tipos[..|tipos|] == tipos;
  }

  /** One entry of the bid filter's option list. */
  datatype LicitacaoOption = LicitacaoOption(id: string, nome: string)

  function BidOptionId(o: LicitacaoOption): string {
    o.id
  }

  function HasBid(d: Documento): bool {
    d.licitacaoId != "" && d.licitacao != ""
  }

  function ToBidOption(d: Documento): LicitacaoOption {
    LicitacaoOption(d.licitacaoId, if d.licitacao != "" then d.licitacao else "Sem nome")
  }

  function Always(s: string): bool {
    true
  }

  /** `licitacoesUnicas`: one option per bid id, the first document linking
      to it naming it, taken only from documents with both a bid id and a
      bid name. */
  function LicitacoesUnicas(shown: seq<Documento>): (r: seq<LicitacaoOption>)
    ensures forall i, j :: 0 <= i < j < |r| ==> r[i].id != r[j].id
    ensures forall o :: o in r ==>
      o.id != "" && o.nome != "" && exists d :: d in shown && d.licitacaoId == o.id && d.licitacao == o.nome
    ensures forall d :: d in shown && HasBid(d) ==> exists o :: o in r && o.id == d.licitacaoId
    ensures forall o :: o in r ==> IsFirstOf(Map(ToBidOption, Filter(HasBid, shown)), BidOptionId, o)
    ensures InFirstAppearanceOrder(r, Map(ToBidOption, Filter(HasBid, shown)), BidOptionId)
  {
    var linked := Filter(HasBid, shown);
    var options := Map(ToBidOption, linked);
    MapMembers(ToBidOption, linked);
    var r := FirstOccurrences(options, BidOptionId, Always);
    MappedKeysListed(ToBidOption, HasBid, shown, BidOptionId, r);
    r
  }

  /** One entry of the category filter's option list. */
  datatype CategoriaOption = CategoriaOption(id: string, nome: string)

  function CategoryOptionId(o: CategoriaOption): string {
    o.id
  }

  function HasCategory(d: Documento): bool {
    d.categoria != ""
  }

  function CategoryOption(slug: string -> string): Documento -> CategoriaOption {
    (d: Documento) => CategoriaOption(if d.categoriaId != "" then d.categoriaId else slug(d.categoria), d.categoria)
  }

  /** `categoriasUnicas`: one option per category id, from documents with a
      category name; a document without a category id is keyed by
      `slug(categoria)`, the page's lower-casing of the name with blanks
      turned into underscores, which this model takes as given. */
  function CategoriasUnicas(shown: seq<Documento>, slug: string -> string): (r: seq<CategoriaOption>)
    ensures forall i, j :: 0 <= i < j < |r| ==> r[i].id != r[j].id
    ensures forall o :: o in r ==>
      o.nome != "" && exists d :: d in shown && d.categoria == o.nome && o == CategoryOption(slug)(d)
    ensures forall d :: d in shown && d.categoria != "" ==>
      exists o :: o in r && o.id == CategoryOption(slug)(d).id
    ensures forall o :: o in r ==> IsFirstOf(Map(CategoryOption(slug), Filter(HasCategory, shown)), CategoryOptionId, o)
    ensures InFirstAppearanceOrder(r, Map(CategoryOption(slug), Filter(HasCategory, shown)), CategoryOptionId)
  {
    var named := Filter(HasCategory, shown);
    var options := Map(CategoryOption(slug), named);
    MapMembers(CategoryOption(slug), named);
    var r := FirstOccurrences(options, CategoryOptionId, Always);
    MappedKeysListed(CategoryOption(slug), HasCategory, shown, CategoryOptionId, r);
    r
  }

  /** `getCategoryBadgeClass`'s table, in the order it is written. */
  const CategoryBadgeClasses: seq<Entry> := [
    Entry("projetos", "bg-blue-50 border-blue-200 text-blue-700"),
    Entry("contabeis", "bg-green-50 border-green-200 text-green-700"),
    Entry("societarios", "bg-purple-50 border-purple-200 text-purple-700"),
    Entry("juridicos", "bg-amber-50 border-amber-200 text-amber-700"),
    Entry("tecnicos", "bg-indigo-50 border-indigo-200 text-indigo-700"),
    Entry("atestado_capacidade", "bg-red-50 border-red-200 text-red-700")
  ]

  const DefaultCategoryBadge := "bg-gray-50 border-gray-200 text-gray-700"

  /** The six category ids the page knows. */
  const CategoryIds: seq<string> :=
    ["projetos", "contabeis", "societarios", "juridicos", "tecnicos", "atestado_capacidade"]

  /** `getCategoryBadgeClass`: the `k`-th known category gets the `k`-th
      class, never the grey one; any other id gets the grey one. */
  function CategoryBadgeClass(categoriaId: string): (cls: string)
    ensures forall k :: 0 <= k < |CategoryIds| && categoriaId == CategoryIds[k] ==>
      cls == CategoryBadgeClasses[k].value
    ensures categoriaId in CategoryIds <==> cls != DefaultCategoryBadge
  {
    CategoryBadgeLookup(categoriaId);
    GetOr(CategoryBadgeClasses, categoriaId, DefaultCategoryBadge)
  }

  /** The badge table has one entry per known category, in the same order. */
  lemma CategoryTableMatchesIds()
    ensures Keys(CategoryBadgeClasses) == CategoryIds && UniqueKeys(CategoryBadgeClasses)
    ensures forall i, j :: 0 <= i < j < |CategoryIds| ==> CategoryIds[i] != CategoryIds[j]
    ensures forall k :: 0 <= k < |CategoryBadgeClasses| ==>
      CategoryBadgeClasses[k].value != "" && CategoryBadgeClasses[k].value != DefaultCategoryBadge
  {
  }

  lemma CategoryBadgeLookup(categoriaId: string)
    ensures forall k :: 0 <= k < |CategoryIds| && categoriaId == CategoryIds[k] ==>
      GetOr(CategoryBadgeClasses, categoriaId, DefaultCategoryBadge) == CategoryBadgeClasses[k].value
    ensures categoriaId in CategoryIds <==>
      GetOr(CategoryBadgeClasses, categoriaId, DefaultCategoryBadge) != DefaultCategoryBadge
  {
    CategoryTableMatchesIds();
    LookupInTable(CategoryBadgeClasses, categoriaId, DefaultCategoryBadge);
  }

  /** What clicking "download" does: open a link, or raise a notification. */
  datatype DownloadAction = OpenInNewTab(url: string) | UrlNotFound(toast: Toast)

  const StoragePrefix := "/storage/v1/object/public/documentos/"

  /** The destructive notification raised when a document has no link. */
  const MissingUrlToast := Toast("Erro ao baixar documento", "URL do documento não encontrada.", true)

  /** `handleDownload`: the document's own `url` if it has one, else the public
      storage link built from `arquivo_path` under `supabaseUrl` (the
      configured base URL); with neither, nothing opens and the destructive
      "not found" notification is raised. */
  function Download(d: Documento, supabaseUrl: string): (a: DownloadAction)
    ensures Truthy(d.url) ==> a == OpenInNewTab(d.url.value)
    ensures !Truthy(d.url) && Truthy(d.arquivo_path) ==>
      a == OpenInNewTab(supabaseUrl + StoragePrefix + d.arquivo_path.value)
    ensures a.UrlNotFound? <==> !Truthy(d.url) && !Truthy(d.arquivo_path)
    ensures a.UrlNotFound? ==> a.toast == Toast("Erro ao baixar documento", "URL do documento não encontrada.", true)
    ensures a.OpenInNewTab? ==> a.url != ""
  {
    var downloadUrl :=
      if Truthy(d.url) then d.url
      else if Truthy(d.arquivo_path) then Some(supabaseUrl + StoragePrefix + d.arquivo_path.value)
      else None;
    if Truthy(downloadUrl) then OpenInNewTab(downloadUrl.value) else UrlNotFound(MissingUrlToast)
  }

  /** Formatted API documents never carry a `url`, so their link comes from
      `arquivo_path` alone; the samples have neither, so downloading one
      always reports the missing URL. */
  lemma DownloadSources(doc: ApiDocument, supabaseUrl: string)
    ensures Download(FormatForUI(doc), supabaseUrl) ==
      if Truthy(doc.arquivo_path) then OpenInNewTab(supabaseUrl + StoragePrefix + doc.arquivo_path.value)
      else UrlNotFound(MissingUrlToast)
    ensures forall d :: d in SampleDocuments ==> Download(d, supabaseUrl) == UrlNotFound(MissingUrlToast)
  {
  }
}
