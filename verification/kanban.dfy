/** The bid kanban board (components/licitacoes/licitacao-kanban-board.tsx):
    a pure projection of the bid list onto eight fixed status columns, and
    the drag-end rule that decides whether the status callback fires. */
module Kanban {
  import opened Wrappers
  import opened Seqs
  import opened Records

  /** The fields of a bid the board reads. */
  datatype Bid = Bid(id: string, titulo: string, orgao: string, status: string, valorEstimado: Amount)

  /** `valorEstimado` as JavaScript delivers it: `null`, `undefined` or a number. */
  datatype Amount = NullAmount | UndefinedAmount | Number(value: real)

  datatype Column = Column(id: string, title: string)

  /** The eight columns, in display order. */
  const Columns: seq<Column> := [
    Column("analise_interna", "Análise Interna"),
    Column("analise_edital", "Análise de Edital"),
    Column("aguardando_pregao", "Aguardando Pregão"),
    Column("em_andamento", "Em Andamento"),
    Column("envio_documentos", "Envio de Documentos"),
    Column("assinaturas", "Assinaturas"),
    Column("vencida", "Vencida"),
    Column("nao_vencida", "Não Vencida")
  ]

  function ColumnIds(): (ids: seq<string>)
    ensures |ids| == |Columns|
    ensures forall k :: 0 <= k < |Columns| ==> ids[k] == Columns[k].id
  {
    seq(|Columns|, k requires 0 <= k < |Columns| => Columns[k].id)
  }

  /** The column ids are pairwise distinct, so a status names at most one column. */
  lemma ColumnIdsDistinct()
    ensures forall i, j :: 0 <= i < j < |Columns| ==> Columns[i].id != Columns[j].id
  {
  }

  function HasStatus(status: string): Bid -> bool {
    (b: Bid) => b.status == status
  }

  /** `getLicitacoesByStatus`: the bids whose status equals `status`, in input order. */
  function BidsByStatus(bids: seq<Bid>, status: string): (r: seq<Bid>)
    ensures forall b :: b in r <==> b in bids && b.status == status
    ensures forall b :: multiset(r)[b] == if b.status == status then multiset(bids)[b] else 0
    ensures IsSubseq(r, bids)
    ensures |r| <= |bids|
  {
    FilterCounts(HasStatus(status), bids);
    Filter(HasStatus(status), bids)
  }

  /** What one rendered column shows: its count badge, its cards and
      whether the "Arraste itens para cá" placeholder appears. */
  datatype ColumnView = ColumnView(column: Column, count: nat, cards: seq<Bid>, placeholder: bool)

  function RenderColumn(bids: seq<Bid>, column: Column): (v: ColumnView)
    ensures v.column == column
    ensures v.count == |v.cards|
    ensures v.placeholder <==> forall b :: b in bids ==> b.status != column.id
    ensures forall b :: b in v.cards <==> b in bids && b.status == column.id
  {
    var cards := BidsByStatus(bids, column.id);
    ColumnView(column, |cards|, cards, |cards| == 0)
  }

  /** The whole board, one view per column in column order. */
  function Board(bids: seq<Bid>): (views: seq<ColumnView>)
    ensures |views| == |Columns|
    ensures forall k :: 0 <= k < |Columns| ==> views[k].column == Columns[k]
    ensures forall k :: 0 <= k < |Columns| ==> views[k].cards == BidsByStatus(bids, Columns[k].id)
  {
    seq(|Columns|, k requires 0 <= k < |Columns| => RenderColumn(bids, Columns[k]))
  }

  /** A bid of the input is shown in column `k` exactly when its status is
      that column's id: a known status lands in exactly one column, any
      other status (for example "ativo") in none. */
  lemma BidInExactlyOneColumn(bids: seq<Bid>, b: Bid)
    requires b in bids
    ensures forall k :: 0 <= k < |Columns| ==> (b in Board(bids)[k].cards <==> Columns[k].id == b.status)
    ensures b.status in ColumnIds() ==>
      exists k :: 0 <= k < |Columns| && b in Board(bids)[k].cards &&
        forall k' :: 0 <= k' < |Columns| && k' != k ==> b !in Board(bids)[k'].cards
    ensures b.status !in ColumnIds() ==> forall k :: 0 <= k < |Columns| ==> b !in Board(bids)[k].cards
  {
    ColumnIdsDistinct();
    if b.status in ColumnIds() {
      var k :| 0 <= k < |Columns| && ColumnIds()[k] == b.status;
      assert b in Board(bids)[k].cards;
    }
  }

  function StatusIn(ids: seq<string>): Bid -> bool {
    (b: Bid) => b.status in ids
  }

  /** The cards of the columns for `ids`, concatenated in column order. */
  function Cards(bids: seq<Bid>, ids: seq<string>): seq<Bid> {
    if |ids| == 0 then [] else BidsByStatus(bids, ids[0]) + Cards(bids, ids[1..])
  }

  /** Over pairwise-distinct column ids the columns partition exactly the
      bids whose status is one of them: each such bid is shown as many
      times as it occurs in the input, and nothing else is shown. */
  lemma {:induction false} CardsPartition(bids: seq<Bid>, ids: seq<string>)
    requires forall i, j :: 0 <= i < j < |ids| ==> ids[i] != ids[j]
    ensures multiset(Cards(bids, ids)) == multiset(Filter(StatusIn(ids), bids))
  {
    if |ids| == 0 {
      FilterNone(StatusIn(ids), bids);
    } else {
      var rest := ids[1..];
      CardsPartition(bids, rest);
      forall b: Bid ensures StatusIn(ids)(b) == (HasStatus(ids[0])(b) || StatusIn(rest)(b)) {
        assert ids == [ids[0]] + rest;
      }
      forall b: Bid ensures !(HasStatus(ids[0])(b) && StatusIn(rest)(b)) {
        if b.status in rest {
          var j :| 0 <= j < |rest| && rest[j] == b.status;
          assert ids[j + 1] == b.status;
        }
      }
      FilterSplit(HasStatus(ids[0]), StatusIn(rest), StatusIn(ids), bids);
    }
  }

  /** The board's cards, all columns together, are a permutation of the
      bids whose status is a column id; when every status is a column id
      they are a permutation of the whole input. */
  lemma BoardIsPartition(bids: seq<Bid>)
    ensures multiset(Cards(bids, ColumnIds())) == multiset(Filter(StatusIn(ColumnIds()), bids))
    ensures (forall b :: b in bids ==> b.status in ColumnIds()) ==>
      multiset(Cards(bids, ColumnIds())) == multiset(bids)
  {
    ColumnIdsDistinct();
    CardsPartition(bids, ColumnIds());
    if forall b :: b in bids ==> b.status in ColumnIds() {
      FilterAll(StatusIn(ColumnIds()), bids);
    }
  }

  /** Where a draggable sits: a droppable id and an index within it. */
  datatype Location = Location(droppableId: string, index: int)

  /** The drag-and-drop library's result object. */
  datatype DropResult = DropResult(draggableId: string, source: Location, destination: Option<Location>)

  /** One call `onUpdateStatus(id, newStatus)`. */
  datatype StatusUpdate = StatusUpdate(id: string, newStatus: string)

  /** `handleDragEnd`: the `onUpdateStatus` call it makes, if any. */
  function HandleDragEnd(result: DropResult): (call: Option<StatusUpdate>)
    ensures result.destination.None? ==> call.None?
    ensures result.destination.Some? && result.destination.value == result.source ==> call.None?
    ensures result.destination.Some? && result.destination.value != result.source ==>
      call == Some(StatusUpdate(result.draggableId, result.destination.value.droppableId))
  {
    match result.destination
    case None => None
    case Some(dest) =>
      if dest.droppableId == result.source.droppableId && dest.index == result.source.index then None
      else Some(StatusUpdate(result.draggableId, dest.droppableId))
  }

  /** A reorder inside one column still reports that column as the new status. */
  lemma ReorderInColumnFires(id: string, column: string, from: int, to: int)
    requires from != to
    ensures HandleDragEnd(DropResult(id, Location(column, from), Some(Location(column, to))))
      == Some(StatusUpdate(id, column))
  {
  }

  /** The board keeps no copy of a status: it shows whatever list it is
      given. A caller that honours `onUpdateStatus` by setting the status of
      the bids with that id gets the dragged bid shown in the destination
      column and in no other. */
  function ApplyStatusUpdate(bids: seq<Bid>, u: StatusUpdate): (r: seq<Bid>)
    ensures |r| == |bids|
    ensures forall i :: 0 <= i < |bids| ==>
      r[i] == if bids[i].id == u.id then bids[i].(status := u.newStatus) else bids[i]
  {
    seq(|bids|, i requires 0 <= i < |bids| =>
      if bids[i].id == u.id then bids[i].(status := u.newStatus) else bids[i])
  }

  lemma DropMovesBid(bids: seq<Bid>, i: nat, result: DropResult, k: nat)
    requires i < |bids| && bids[i].id == result.draggableId
    requires k < |Columns|
    requires HandleDragEnd(result).Some?
    ensures var moved := ApplyStatusUpdate(bids, HandleDragEnd(result).value);
      moved[i] in Board(moved)[k].cards <==> Columns[k].id == result.destination.value.droppableId
  {
    var moved := ApplyStatusUpdate(bids, HandleDragEnd(result).value);
    BidInExactlyOneColumn(moved, moved[i]);
  }

  /** `getStatusBadgeClass`'s table, in the order it is written. */
  const BadgeClasses: seq<Entry> := [
    Entry("analise_interna", "bg-purple-100 text-purple-800"),
    Entry("analise_edital", "bg-indigo-100 text-indigo-800"),
    Entry("aguardando_pregao", "bg-yellow-100 text-yellow-800"),
    Entry("em_andamento", "bg-blue-100 text-blue-800"),
    Entry("envio_documentos", "bg-amber-100 text-amber-800"),
    Entry("assinaturas", "bg-blue-100 text-blue-800"),
    Entry("vencida", "bg-green-100 text-green-800"),
    Entry("nao_vencida", "bg-red-100 text-red-800")
  ]

  const DefaultBadgeClass := "bg-gray-100 text-gray-800"

  /** The badge table has one entry per column, in column order, none empty or grey. */
  lemma BadgeTableMatchesColumns()
    ensures Keys(BadgeClasses) == ColumnIds() && UniqueKeys(BadgeClasses)
    ensures forall k :: 0 <= k < |BadgeClasses| ==>
      BadgeClasses[k].value != "" && BadgeClasses[k].value != DefaultBadgeClass
  {
    ColumnIdsDistinct();
  }

  /** `getStatusBadgeClass`: the `k`-th column gets the `k`-th class, which is
      never the grey fallback; any other status gets the grey fallback. */
  function StatusBadgeClass(status: string): (cls: string)
    ensures forall k :: 0 <= k < |Columns| && status == Columns[k].id ==> cls == BadgeClasses[k].value
    ensures status in ColumnIds() <==> cls != DefaultBadgeClass
  {
    BadgeLookup(status);
    GetOr(BadgeClasses, status, DefaultBadgeClass)
  }

  lemma BadgeLookup(status: string)
    ensures forall k :: 0 <= k < |Columns| && status == Columns[k].id ==>
      GetOr(BadgeClasses, status, DefaultBadgeClass) == BadgeClasses[k].value
    ensures status in ColumnIds() <==> GetOr(BadgeClasses, status, DefaultBadgeClass) != DefaultBadgeClass
  {
    BadgeTableMatchesColumns();
    LookupInTable(BadgeClasses, status, DefaultBadgeClass);
  }

  /** `formatCurrency`: a number goes to the locale formatter `intl`, which is
      not part of this model; `null` and `undefined` both show zero reais. */
  function FormatCurrency(value: Amount, intl: real -> string): (text: string)
    ensures value.NullAmount? || value.UndefinedAmount? ==> text == "R$ 0,00"
    ensures value.Number? ==> text == intl(value.value)
  {
    match value
    case Number(v) => intl(v)
    case _ => "R$ 0,00"
  }

  /** A missing amount shows the same text as a zero amount whenever the
      formatter prints zero as "R$ 0,00"; the formatter matters only for a
      number, and only through the text it gives that number. */
  lemma MissingAmountReadsAsZero(intl: real -> string, other: real -> string, value: Amount)
    ensures intl(0.0) == "R$ 0,00" ==>
      FormatCurrency(NullAmount, intl) == FormatCurrency(UndefinedAmount, intl) == FormatCurrency(Number(0.0), intl)
    ensures !value.Number? ==> FormatCurrency(value, intl) == FormatCurrency(value, other)
    ensures value.Number? && intl(value.value) == other(value.value) ==>
      FormatCurrency(value, intl) == FormatCurrency(value, other)
  {
  }
}
