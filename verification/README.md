# onecrm bid and document views — a Dafny model

This project models the decision logic behind the bid ("licitação") and
document screens of the onecrm CRM, a Next.js/React application backed by
Supabase. It covers:

- **Kanban board** (`Kanban`): the eight fixed status columns, how bids are
  partitioned into them, the drag-end rule that decides whether
  `onUpdateStatus` fires, the status badge table and the null branch of the
  currency formatter.
- **Documents page** (`Documents`): API records formatted for the UI, the
  fallback to eight sample documents, the three guarded filters, the
  de-duplicated option lists for the filter selects, the category badge
  table and the download-link rule.
- **New-document dialog** (`NewDocument`): required-field validation, the
  category label table, resolution of the linked bid, the record handed to
  the caller, and the rule that the form is cleared only on success.
- **Simplified bid form** (`SimplifiedBidForm`): storage paths built from the
  file extension (`split('.').pop()`), and the all-or-nothing submission
  that uploads every file in order, stops at the first storage error, and
  inserts the bid with status `analise_interna` only after all uploads.
- **Bid fetch hook** (`BidsHook`): `fetchLicitacoes`, which turns every
  failure into the five static bids and never reports an error, and
  `fetchLicitacaoById`, which has no fallback and reports the status code
  and body of a failed request.
- **Organisation contacts panel** (`OrgaoPanel`): JavaScript `trim`,
  contact normalisation (empty optional fields become null), the
  add/edit/delete handlers with their ordered checks and error messages,
  the session marker that suppresses lookups of organisations missing from
  the database, and the panel's status colour and label tables.

Shared pieces are `Wrappers` (`Option`), `Ui` (the notification record),
`Seqs` (filter, map, first index and first-occurrence de-duplication, with
their proofs) and `Records` (a JavaScript string dictionary as a table of
entries, with the `table[key] || fallback` lookup).

Everything outside the browser is an input. A database call, `fetch` or a
storage upload becomes a datatype of its possible answers. A uuid, the
clock, the configured Supabase base URL and the locale currency formatter
become parameters. A handler becomes a pure function from the state and the
answers it received to the new state, the remote calls it made (in order)
and the notification it raised.

JavaScript details the model keeps explicit:

- The empty string is falsy, so `x || ""` and `table[key] || fallback` treat
  an empty value like a missing one.
- `${undefined}` prints `undefined`.
- `findIndex` and `indexOf` return -1 when nothing matches.
- `split('.').pop()` gives the whole name when there is no dot.
- `trim` removes exactly the ECMAScript white-space and line-terminator
  characters.

### Observations the proofs make precise

- When the API returns no documents, the page shows the eight samples
  (`Documents.Displayed`). But any filter change, even one that clears every
  filter, filters the API list instead, so the samples disappear
  (`Documents.NoFiltersShowAll`).
- The static fallback bids all have status `ativo`, which is not a kanban
  column, so on the board the fallback list is invisible
  (`BidsHook.StaticBidsHaveNoColumn`).
- The panel's status tables know `ativo`. They lack two kanban columns,
  `analise_edital` and `em_andamento`, which the panel labels "Status
  Desconhecido" (`OrgaoPanel.ColumnsWithoutPanelLabel`). Also, `concluida`
  is coloured exactly like an unknown status (`OrgaoPanel.PanelOnlyStatuses`).
- Three kinds of failure in `fetchLicitacoes` are indistinguishable to its
  caller: a non-OK status, an unreadable body and an unexpected JSON shape
  (`BidsHook.FallbacksIndistinguishable`). The hook's outer `catch`, which
  would set an error and return an empty list, cannot be reached, because
  the inner `try` already catches everything. So the list call never sets
  an error.
- Adding a contact with a blank name still makes the remote lookup of the
  organisation. The name is checked only after that lookup
  (components/licitacoes/detalhes-orgao.tsx:536-554). Only the insert is
  skipped (`OrgaoPanel.HandleAddContato`).
- A non-OK answer to the by-id request does not propagate. It is caught,
  recorded in `error`, and the call resolves to `null`
  (hooks/useLicitacoes.ts:143-153, `BidsHook.FetchLicitacaoById`).

## Model

Members with no row of their own are helpers whose meaning is carried by a
row that uses them: `Documents.FilterSteps` (stated through
`Documents.FilterStepsIsConjunction`), `Documents.ToBidOption` and
`Documents.CategoryOption` (through `Documents.LicitacoesUnicas` and
`Documents.CategoriasUnicas`), `NewDocument.MissingRequired` (through
`NewDocument.HandleSubmit`), `NewDocument.TemplateText` (through
`NewDocument.ResolveBid`), `OrgaoPanel.IsWhiteSpace` (through
`OrgaoPanel.Trim`), `BidsHook.Digit` (through `BidsHook.NatToString`),
the small step lemmas `OrgaoPanel.SliceOfSuffix`,
`OrgaoPanel.TrailingWhiteSpace`, `OrgaoPanel.AfterInsertIsExplained`,
`OrgaoPanel.StatusIdsDistinct`, `OrgaoPanel.StatusKeys`,
`OrgaoPanel.StatusValues`, `OrgaoPanel.LabelledColumns` and
`OrgaoPanel.UnlabelledColumns`, and the generic sequence and dictionary
lemmas of `Seqs` and `Records`. `SimplifiedBidForm.JoinedParts` and
`SimplifiedBidForm.SameLayout` are the position facts behind
`SimplifiedBidForm.StoragePath` and `SimplifiedBidForm.StoragePathDeterminesUuid`.

| member | source | states |
|---|---|---|
| Kanban.ColumnIds | components/licitacoes/licitacao-kanban-board.tsx:18-27 | the eight column ids, in board order |
| Kanban.ColumnIdsDistinct | components/licitacoes/licitacao-kanban-board.tsx:18-27 | no two columns share an id |
| Kanban.BidsByStatus | components/licitacoes/licitacao-kanban-board.tsx:34-36 | a column's list holds exactly the bids with that status, in input order, each as many times as it occurs in the input |
| Kanban.RenderColumn | components/licitacoes/licitacao-kanban-board.tsx:134-185 | the header count equals the number of cards; the placeholder appears exactly when no bid has the column's status |
| Kanban.Board | components/licitacoes/licitacao-kanban-board.tsx:134-151 | one view per column, in column order, each showing that column's filtered list |
| Kanban.BidInExactlyOneColumn | components/licitacoes/licitacao-kanban-board.tsx:18-36 | a bid with a known status is in exactly one column; a bid with any other status (e.g. "ativo") is in none |
| Kanban.CardsPartition | components/licitacoes/licitacao-kanban-board.tsx:34-36 | for distinct ids, the cards of those columns together are, as a multiset, the bids whose status is one of them |
| Kanban.BoardIsPartition | components/licitacoes/licitacao-kanban-board.tsx:134-151 | the whole board shows each bid with a known status once per occurrence and nothing else; a permutation of the input when every status is known |
| Kanban.HandleDragEnd | components/licitacoes/licitacao-kanban-board.tsx:39-48 | no destination or an unchanged position gives no call; any other drop calls onUpdateStatus once with the dragged id and the destination column |
| Kanban.ReorderInColumnFires | components/licitacoes/licitacao-kanban-board.tsx:44-47 | reordering inside one column still fires the status callback with that same column |
| Kanban.ApplyStatusUpdate | components/licitacoes/licitacao-kanban-board.tsx:12 | a caller honouring onUpdateStatus changes the status of the bids with that id and nothing else |
| Kanban.DropMovesBid | components/licitacoes/licitacao-kanban-board.tsx:39-48 | after an honoured drop the dragged bid is shown in the destination column and in no other |
| Kanban.BadgeTableMatchesColumns | components/licitacoes/licitacao-kanban-board.tsx:52-61 | the badge table has exactly the column ids as keys, in column order, and no value is empty or grey |
| Kanban.StatusBadgeClass | components/licitacoes/licitacao-kanban-board.tsx:51-63 | the k-th column id gets the k-th class; a status gets the grey class exactly when it is not a column id |
| Kanban.BadgeLookup | components/licitacoes/licitacao-kanban-board.tsx:62 | the badge lookup returns the column's class for a column id and the grey fallback otherwise |
| Kanban.FormatCurrency | components/licitacoes/licitacao-kanban-board.tsx:66-74 | null and undefined both show "R$ 0,00"; a number goes to the locale formatter |
| Kanban.MissingAmountReadsAsZero | components/licitacoes/licitacao-kanban-board.tsx:66-74 | a missing amount reads like the number 0 whenever the formatter prints 0 as "R$ 0,00"; the formatter affects numbers only |
| Records.GetOr | components/licitacoes/licitacao-kanban-board.tsx:62 | `table[key] \|\| fallback`: a missing key or an empty value gives the fallback, any other value is returned |
| BidsHook.StaticBidsHaveNoColumn | hooks/useLicitacoes.ts:38-74 | the five static bids all have status "ativo", which is not a kanban column |
| BidsHook.Classify | hooks/useLicitacoes.ts:87-113 | every fetch outcome falls in exactly one class: array body, envelope with an array, unexpected shape, non-OK status, or failure |
| BidsHook.Authorization | hooks/useLicitacoes.ts:78-82 | the header is empty exactly when there is no token or it is empty; otherwise it is "Bearer " followed by the token |
| BidsHook.FetchLicitacoes | hooks/useLicitacoes.ts:29-122 | sends the bearer token when there is one; an array or the envelope's array becomes the list, every other outcome gives the static bids; error stays null and loading ends false |
| BidsHook.FallbacksIndistinguishable | hooks/useLicitacoes.ts:99-113 | any two fallback outcomes leave the hook in the same state with the same result |
| BidsHook.NatToString | hooks/useLicitacoes.ts:145 | a status code prints as decimal digits with no leading zero |
| BidsHook.NatToStringRoundTrip | hooks/useLicitacoes.ts:145 | the printed status code reads back as the same number |
| BidsHook.FetchLicitacaoById | hooks/useLicitacoes.ts:125-157 | no token means no request and "Não autenticado"; non-OK records status and body, or the read error's message when the body cannot be read as text; a throw or an unreadable JSON body records its message; every failure resolves to null; the list is untouched |
| BidsHook.NotOkMessageCarriesStatusAndBody | hooks/useLicitacoes.ts:143-146 | the non-OK message starts with the prefix, then the status digits, which read back as the status, and ends with the body text |
| Documents.OrEmpty | app/documentos/page.tsx:219-229 | `x \|\| ""` is empty exactly when the field is missing or empty, and otherwise is the field |
| Documents.FormatForUI | app/documentos/page.tsx:199-234 | every missing text field becomes "", present ones are kept, the bid id is copied to both spellings, the storage path is carried over and no url is set |
| Documents.FormatAll | app/documentos/page.tsx:190 | one formatted document per API record, in order |
| Documents.Displayed | app/documentos/page.tsx:188-196 | an empty API list shows the eight samples; otherwise the formatted API list |
| Documents.FilterStepsIsConjunction | app/documentos/page.tsx:246-262 | the three guarded filters in sequence equal one filter by the conjunction of the non-empty criteria |
| Documents.FilterDocuments | app/documentos/page.tsx:246-262 | the result is the formatted API list filtered by every non-empty criterion: in order, each matching document as often as it occurs there, and nothing else |
| Documents.NoFiltersShowAll | app/documentos/page.tsx:246-262 | with no criteria the whole formatted API list is shown; with an empty API list that is nothing, not the samples |
| Documents.OnFilterChange | app/documentos/page.tsx:246-262 | a filter change leaves the API list alone and shows the formatted API list filtered by the criteria, in order and with each match as often as it occurs |
| Documents.FilterForgetsPrevious | app/documentos/page.tsx:246-262 | each filter change starts from the full API list, so earlier filters have no effect and repeating one changes nothing |
| Documents.TiposUnicos | app/documentos/page.tsx:380-382 | the type options are distinct, non-empty, each taken from a shown document, complete, and in first-appearance order |
| Documents.TiposOfDistinctDocuments | app/documentos/page.tsx:380-382 | when the shown documents already have distinct non-empty types, the type options are exactly those types in document order |
| Documents.LicitacoesUnicas | app/documentos/page.tsx:385-390 | the bid options have distinct ids, come only from documents with both bid id and name, cover every such id, each is the first option with its id, and they are listed in the order their ids first appear |
| Documents.CategoriasUnicas | app/documentos/page.tsx:392-400 | the category options have distinct ids, each comes from a shown document with a category, and every categorised document has an option with its id (the category id, or the slug of the name when it has none); each option is the one built from the first categorised document with its id, and they are listed in the order their ids first appear |
| Documents.CategoryTableMatchesIds | app/documentos/page.tsx:154-161 | the category badge table has exactly the six category ids as keys and no empty or grey value |
| Documents.CategoryBadgeClass | app/documentos/page.tsx:153-164 | the k-th category id gets the k-th class; an id gets the grey class exactly when it is unknown |
| Documents.CategoryBadgeLookup | app/documentos/page.tsx:163 | the category lookup returns the table's class for a known id and the grey fallback otherwise |
| Documents.Download | app/documentos/page.tsx:335-352 | a non-empty url wins; otherwise a non-empty storage path gives the public storage link; with neither, nothing opens and the destructive notification "Erro ao baixar documento" / "URL do documento não encontrada." is raised |
| Documents.DownloadSources | app/documentos/page.tsx:338-341 | a formatted API document downloads from its storage path or not at all; no sample document can be downloaded |
| NewDocument.CategoryTablesAgree | components/documentos/novo-documento.tsx:157-164 | the dialog labels exactly the six categories the documents page colours, in the same order, with no empty label |
| NewDocument.CategoryLabel | components/documentos/novo-documento.tsx:156-166 | a known category id gets its label; any other id is shown as it is |
| NewDocument.CategoryLabelLookup | components/documentos/novo-documento.tsx:165 | the label lookup returns the table's label for a known id and the id itself otherwise |
| NewDocument.FindBid | components/documentos/novo-documento.tsx:95 | absent exactly when no loaded bid has the id; otherwise the first bid with that id |
| NewDocument.ResolveBid | components/documentos/novo-documento.tsx:93-109 | "sem_licitacao" links nothing; a found bid is named "modalidade numero"; a missing one is named "Não vinculado" but its id is still recorded; a null or undefined field prints as "null" or "undefined" |
| NewDocument.ResolveLoadedBid | components/documentos/novo-documento.tsx:93-100 | with distinct loaded ids, selecting a loaded bid names it "modalidade numero" from that very bid |
| NewDocument.BuildRecord | components/documentos/novo-documento.tsx:103-117 | the record copies the form, labels the category, carries the resolved bid, and gives size "0 KB" without a file |
| NewDocument.HandleSubmit | components/documentos/novo-documento.tsx:78-153 | a missing name, type or category stops with no delivery; otherwise the record reaches the callback; the form is reset only if it did not throw, and the error text falls back to the default |
| NewDocument.ResetOnlyOnSuccess | components/documentos/novo-documento.tsx:119-153 | a filled form is cleared exactly when validation passed and the callback did not throw |
| SimplifiedBidForm.Extension | components/licitacoes/formulario-simplificado-licitacao.tsx:45 | the extension is a dot-free suffix of the name, the whole name when it has no dot, and otherwise preceded by the last dot |
| SimplifiedBidForm.ExtensionOfJoin | components/licitacoes/formulario-simplificado-licitacao.tsx:45-47 | joining a stem and a dot-free extension with a dot gives that extension back |
| SimplifiedBidForm.StoragePath | components/licitacoes/formulario-simplificado-licitacao.tsx:45-47 | the path lies under "licitacoes/", holds the uuid right after that prefix, and keeps the file's extension |
| SimplifiedBidForm.StoragePathDeterminesUuid | components/licitacoes/formulario-simplificado-licitacao.tsx:45-47 | equal storage paths come from equal uuids, whatever the file names, so files given different uuids never overwrite each other |
| SimplifiedBidForm.Paths | components/licitacoes/formulario-simplificado-licitacao.tsx:44-47 | one storage path per file, in file order |
| SimplifiedBidForm.FirstFailure | components/licitacoes/formulario-simplificado-licitacao.tsx:53 | the first failed upload, or -1 exactly when every upload succeeded |
| SimplifiedBidForm.PublicUrl | components/licitacoes/formulario-simplificado-licitacao.tsx:55-57 | the public link starts with the base URL and ends with the storage path |
| SimplifiedBidForm.PublicUrls | components/licitacoes/formulario-simplificado-licitacao.tsx:55-59 | one public link per path, in order |
| SimplifiedBidForm.StoredLinkIsDownloadLink | components/licitacoes/formulario-simplificado-licitacao.tsx:55-57 | a document listed with the stored path and no url downloads from exactly the link the form saved |
| SimplifiedBidForm.InitialStatusIsFirstColumn | components/licitacoes/formulario-simplificado-licitacao.tsx:72 | a new bid's status is the first kanban column |
| SimplifiedBidForm.UploadAll | components/licitacoes/formulario-simplificado-licitacao.tsx:43-60 | uploads in order and stops right after the first failure; when none fails, every path was sent and the links match the paths one for one |
| SimplifiedBidForm.HandleSubmit | components/licitacoes/formulario-simplificado-licitacao.tsx:37-96 | a bid is inserted only after every upload succeeded, with status "analise_interna", the files' links in order and the two clock readings as its timestamps; the success notification, onSuccess and then onClose come only after a successful insert; a throwing onSuccess skips onClose, and any throwing callback adds the destructive error notification after the success one; submitting always ends |
| OrgaoPanel.Trim | components/licitacoes/detalhes-orgao.tsx:552-562 | the trimmed text is the slice of the input between a run of leading and a run of trailing white space; it neither starts nor ends with white space, and is empty exactly when the input is all white space |
| OrgaoPanel.TrimStart | components/licitacoes/detalhes-orgao.tsx:552-562 | the result is the suffix left after the leading white space, and does not start with white space |
| OrgaoPanel.TrimEnd | components/licitacoes/detalhes-orgao.tsx:552-562 | the result is the prefix left before the trailing white space, and does not end with white space |
| OrgaoPanel.TrimIdempotent | components/licitacoes/detalhes-orgao.tsx:552-562 | trimming twice is trimming once |
| OrgaoPanel.NullIfBlank | components/licitacoes/detalhes-orgao.tsx:560-562 | `x?.trim() \|\| null` is null exactly when nothing is left after trimming, otherwise the trimmed text |
| OrgaoPanel.ErrorDescription | components/licitacoes/detalhes-orgao.tsx:597-603 | an Error shows its message, another object its JSON, anything else the default |
| OrgaoPanel.Caught | components/licitacoes/detalhes-orgao.tsx:595-610 | a caught failure leaves the list alone and raises a destructive notification with the extracted message |
| OrgaoPanel.EmptyDescription | components/licitacoes/detalhes-orgao.tsx:597-603 | the extracted message is empty exactly for an Error or object with empty text, or any other value when the default is empty |
| OrgaoPanel.NewRow | components/licitacoes/detalhes-orgao.tsx:556-566 | the inserted row has the trimmed name, trimmed-or-null optional fields, the panel's organisation id, and the two clock readings as creation and update times |
| OrgaoPanel.AfterInsert | components/licitacoes/detalhes-orgao.tsx:570-594 | code 23503 names the organisation; other errors use their message or the default; a thrown client error is caught with its extracted message; no rows is an error; success appends the first row and closes the dialog |
| OrgaoPanel.HandleAddContato | components/licitacoes/detalhes-orgao.tsx:527-611 | checks the id (no call), then the lookup, then the trimmed name, in that order; any failed check skips the insert and changes nothing; a thrown lookup is caught with its extracted message after the one lookup call |
| OrgaoPanel.AddInsertsOnlyWhenAllowed | components/licitacoes/detalhes-orgao.tsx:529-589 | an insert call happens exactly when all three checks pass; the list grows, by exactly the returned row, only after a successful insert |
| OrgaoPanel.AddFailureIsExplained | components/licitacoes/detalhes-orgao.tsx:527-611 | every failed add keeps the dialog open and the list unchanged and shows a destructive notification with a non-empty message, provided thrown values carry one |
| OrgaoPanel.InsertedRowIsNormalised | components/licitacoes/detalhes-orgao.tsx:552-566 | a row that passes the name check has a non-empty trimmed name and no empty or untrimmed optional field |
| OrgaoPanel.NullIfBlankNormalised | components/licitacoes/detalhes-orgao.tsx:560-562 | a kept optional field is non-empty and trimmed |
| OrgaoPanel.AdicionarContato | components/licitacoes/detalhes-orgao.tsx:364-385 | a successful insert appends the contact; a failure leaves the list and shows the fixed message |
| OrgaoPanel.RemoveById | components/licitacoes/detalhes-orgao.tsx:684 | removes every contact with the id and keeps every other one, in order and as often as it occurred |
| OrgaoPanel.ReplaceById | components/licitacoes/detalhes-orgao.tsx:644 | same length; contacts with the id are replaced, every other one stays in place |
| OrgaoPanel.RemoveUniqueRemovesOne | components/licitacoes/detalhes-orgao.tsx:684 | with unique ids, deleting a present contact shortens the list by exactly one |
| OrgaoPanel.AppendThenRemove | components/licitacoes/detalhes-orgao.tsx:684 | deleting a just-appended contact with a new id gives back the original list |
| OrgaoPanel.ReplaceThenRemove | components/licitacoes/detalhes-orgao.tsx:644 | editing a contact and then deleting its id equals deleting its id: the edit touches nothing else |
| OrgaoPanel.HandleEditContato | components/licitacoes/detalhes-orgao.tsx:613-666 | needs the organisation id; sends the contact re-linked to it; on success the returned row replaces the contacts with that id; errors use the message or the default |
| OrgaoPanel.OrNull | components/licitacoes/detalhes-orgao.tsx:416-418 | `x \|\| null` is null exactly when the field is missing or empty |
| OrgaoPanel.EditarContato | components/licitacoes/detalhes-orgao.tsx:410-437 | patches with empty optional fields as null; success puts the contact in place; failure shows the fixed non-destructive message |
| OrgaoPanel.HandleDeleteContato | components/licitacoes/detalhes-orgao.tsx:668-705 | one delete call; success drops the id from the list; errors use the message or the default |
| OrgaoPanel.ExcluirContato | components/licitacoes/detalhes-orgao.tsx:387-408 | one delete call; success drops the id; failure leaves the list and shows the fixed message |
| OrgaoPanel.AddThenDeleteRestores | components/licitacoes/detalhes-orgao.tsx:668-705 | a successful add followed by deleting the returned row restores the list |
| OrgaoPanel.CarregarContatos | components/licitacoes/detalhes-orgao.tsx:324-362 | no id or a marked organisation makes no call; otherwise one select, showing `data \|\| []` or a destructive error |
| OrgaoPanel.VerificarOrgaoExiste | components/licitacoes/detalhes-orgao.tsx:277-322 | no id or a marked organisation makes no call; the mark is added only for a lookup with no row and no error; contacts load only after a found lookup |
| OrgaoPanel.MarkSuppressesCalls | components/licitacoes/detalhes-orgao.tsx:286-308 | once a lookup finds nothing, later checks and loads for that id make no call and change nothing |
| OrgaoPanel.StatusTablesAgree | components/licitacoes/detalhes-orgao.tsx:131-155 | the colour and label tables have the same ten distinct keys and no empty value; no label is the unknown text |
| OrgaoPanel.StatusColor | components/licitacoes/detalhes-orgao.tsx:157-159 | the k-th status gets the k-th colour; an unknown status gets grey |
| OrgaoPanel.StatusColorLookup | components/licitacoes/detalhes-orgao.tsx:158 | the colour lookup returns the table's colour for a known status and grey otherwise |
| OrgaoPanel.StatusLabel | components/licitacoes/detalhes-orgao.tsx:161-163 | the k-th status gets the k-th label; the label is "Status Desconhecido" exactly for an unknown status |
| OrgaoPanel.StatusLabelLookup | components/licitacoes/detalhes-orgao.tsx:162 | the label lookup returns the table's label for a known status and the unknown text otherwise |
| OrgaoPanel.ColumnsWithoutPanelLabel | components/licitacoes/detalhes-orgao.tsx:144-155 | of the kanban column ids, exactly "analise_edital" and "em_andamento" have no panel label |
| OrgaoPanel.PanelOnlyStatuses | components/licitacoes/detalhes-orgao.tsx:131-155 | "ativo" has a panel label but no kanban column; "concluida" is coloured like an unknown status |

## Left out

- Rendering is not modelled: JSX, dialogs, tabs, sheets and toast display. The model keeps only the values they show (counts, placeholder, notification title and text, destructive flag).
- The drag-and-drop library is left out. The drop result it passes to `handleDragEnd` is an input.
- Supabase queries, storage uploads, `fetch` and `response.json()`/`response.text()` are foreign services. Their possible answers are input datatypes.
- `sessionStorage` is a set of marked organisation ids, and `localStorage`'s token is an optional string.
- uuid generation and `new Date().toISOString()` are opaque parameters.
- `formatFileSize` is floating-point arithmetic with `Math.log` and `toFixed`, and is left out. The new-document dialog's megabyte figure is taken as text (`SelectedFile.sizeInMb`).
- Kanban.FormatCurrency: `Intl.NumberFormat` for a number is the parameter `intl`, because locale formatting is outside the model.
- date-fns formatting of upload and expiry dates, and the 30-day expiry count of the documents page, depend on the date library and the clock.
- Documents.CategoriasUnicas: the lower-casing and blank-to-underscore slug for documents without a category id is a parameter, so the contract states that such a document gets an option keyed by `slug(categoria)` but not what that text is.
- OrgaoPanel.ErrorDescription: `JSON.stringify` of a non-Error object is taken as the text the thrown value carries.
- SimplifiedBidForm.PublicUrl assumes the storage client's public-link layout: base URL, `/storage/v1/object/public/documentos/`, then the path. This is the layout the documents page spells out for downloads.
- Lookups in JavaScript object literals are modelled on own keys only. A prototype key such as `"constructor"` would return a function, and that case is not modelled.
- The `licitacao_id` of a new contact row, always `null` when the panel adds a contact, is not represented.
- BidsHook.FetchLicitacaoById: a successful response whose JSON body is `null` (where `data.licitacao` would throw) is not modelled. The body is always an object, possibly without `licitacao`.
- The unreachable outer `catch` of `fetchLicitacoes` is not modelled.
- NewDocument.HandleSubmit: a thrown value without a `message` is represented by an empty message, which falls back to the default text.
- Overlapping async calls and their races are not modelled. Each handler runs to completion. The contact load that `verificarOrgaoExiste` starts without awaiting is modelled as finishing inside it.
- The panel's organisation editing and deletion, field-change handlers and demo data are not part of this model. Neither are the documents page's upload and delete handlers and the `useDocuments` hook.
- Only the identity and the number of the sample documents and the static bids matter to the properties, not their exact text.
