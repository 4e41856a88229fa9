/** The organisation panel's contact list and lookups
    (components/licitacoes/detalhes-orgao.tsx): contact validation and
    normalisation, the add/edit/delete handlers and their error messages,
    the session marker for organisations that are not in the database, and
    the status colour and label tables. Database calls are inputs; the model
    records which calls a handler makes, in order. */
module OrgaoPanel {
  import opened Wrappers
  import opened Seqs
  import opened Records
  import opened Ui
  import Kanban

  /** JavaScript's `WhiteSpace` and `LineTerminator` characters, the ones
      `String.prototype.trim` removes. */
  predicate IsWhiteSpace(c: char) {
    c == ' ' || c == '\t' || c == '\n' || c == '\r' || c == '\U{000B}' || c == '\U{000C}' ||
    c == '\U{00A0}' || c == '\U{1680}' || ('\U{2000}' <= c <= '\U{200A}') ||
    c == '\U{2028}' || c == '\U{2029}' || c == '\U{202F}' || c == '\U{205F}' ||
    c == '\U{3000}' || c == '\U{FEFF}'
  }

  /** `s` with its leading white space removed. */
  function TrimStart(s: string): (r: string)
    ensures |r| <= |s| && r == s[|s| - |r|..]
    ensures r == [] || !IsWhiteSpace(r[0])
    ensures forall i :: 0 <= i < |s| - |r| ==> IsWhiteSpace(s[i])
  {
    if |s| > 0 && IsWhiteSpace(s[0]) then TrimStart(s[1..]) else s
  }

  /** `s` with its trailing white space removed. */
  function TrimEnd(s: string): (r: string)
    ensures |r| <= |s| && r == s[..|r|]
    ensures r == [] || !IsWhiteSpace(r[|r| - 1])
    ensures forall i :: |r| <= i < |s| ==> IsWhiteSpace(s[i])
  {
    if |s| > 0 && IsWhiteSpace(s[|s| - 1]) then TrimEnd(s[..|s| - 1]) else s
  }

  /** `s.trim()`: the slice of `s` left after removing white space at both
      ends; it neither starts nor ends with white space, and it is empty
      exactly when `s` is all white space. */
  function Trim(s: string): (r: string)
    ensures |r| <= |s|
    ensures r == [] || (!IsWhiteSpace(r[0]) && !IsWhiteSpace(r[|r| - 1]))
    ensures r == "" <==> forall i :: 0 <= i < |s| ==> IsWhiteSpace(s[i])
    ensures exists i, j :: TrimmedAt(s, i, j) && r == s[i..j]
  {
    var t := TrimStart(s);
    var r := TrimEnd(t);
    assert r != [] ==> r[0] == t[0];
    assert r == [] ==> t == [];
    SliceOfSuffix(s, t, r);
    TrailingWhiteSpace(s, t, r);
    assert TrimmedAt(s, |s| - |t|, |s| - |t| + |r|);
    r
  }

  lemma SliceOfSuffix(s: string, t: string, r: string)
    requires |t| <= |s| && t == s[|s| - |t|..]
    requires |r| <= |t| && r == t[..|r|]
    ensures r == s[|s| - |t|..|s| - |t| + |r|]
  {
  }

  lemma TrailingWhiteSpace(s: string, t: string, r: string)
    requires |t| <= |s| && t == s[|s| - |t|..]
    requires |r| <= |t|
    requires forall k :: |r| <= k < |t| ==> IsWhiteSpace(t[k])
    ensures forall k :: |s| - |t| + |r| <= k < |s| ==> IsWhiteSpace(s[k])
  {
    forall k | |s| - |t| + |r| <= k < |s| ensures IsWhiteSpace(s[k]) {
      assert s[k] == t[k - (|s| - |t|)];
    }
  }

  /** `s[i..j]` is what remains of `s` once only white space is removed
      before `i` and from `j` on. */
  predicate TrimmedAt(s: string, i: int, j: int) {
    && 0 <= i <= j <= |s|
    && (forall k :: 0 <= k < i ==> IsWhiteSpace(s[k]))
    && (forall k :: j <= k < |s| ==> IsWhiteSpace(s[k]))
  }

  /** Trimming twice is trimming once. */
  lemma TrimIdempotent(s: string)
    ensures Trim(Trim(s)) == Trim(s)
  {
    var t := Trim(s);
    assert TrimStart(t) == t;
    assert TrimEnd(t) == t;
  }

  /** `text?.trim() || null`: the trimmed text, or null when nothing is left. */
  function NullIfBlank(text: string): (o: Option<string>)
    ensures o.None? <==> Trim(text) == ""
    ensures o.Some? ==> o.value == Trim(text)
  {
    var t := Trim(text);
    if t == "" then None else Some(t)
  }

  /** A contact row of `orgao_contatos`. */
  datatype Contato = Contato(
    id: string,
    orgao_id: string,
    nome: string,
    cargo: Option<string>,
    email: Option<string>,
    telefone: Option<string>)

  function ContatoId(c: Contato): string {
    c.id
  }

  /** The add-contact form. */
  datatype ContatoForm = ContatoForm(nome: string, cargo: string, email: string, telefone: string)

  /** The row `handleAddContato` inserts; its `licitacao_id` is always null
      and is not represented. */
  datatype NovoContato = NovoContato(
    id: string,
    orgao_id: string,
    nome: string,
    cargo: Option<string>,
    email: Option<string>,
    telefone: Option<string>,
    data_criacao: string,
    data_atualizacao: string)

  /** A value a `catch` block receives. */
  datatype Thrown = ErrorValue(message: string) | ObjectValue(json: string) | OtherValue

  /** The outcome of one database call: an `{ error }` answer, data, or a
      throw from the client itself. */
  datatype Remote<T> = Failed(code: string, message: string) | Returned(data: T) | Threw(thrown: Thrown)

  /** The database calls the panel makes. */
  datatype Call =
    | SelectOrgao(id: string)
    | SelectContatos(orgaoId: string)
    | InsertNovo(row: NovoContato)
    | InsertContato(contato: Contato)
    | UpdateContato(id: string, updated: Contato, updatedAt: string)
    | PatchContato(id: string, nome: string, cargo: Option<string>, email: Option<string>, telefone: Option<string>)
    | DeleteContato(id: string)

  /** The list after a handler, the calls it made, the notification it
      raised and whether it closed its dialog or edit mode. */
  datatype Outcome = Outcome(contatos: seq<Contato>, calls: seq<Call>, toast: Toast, closed: bool)

  /** The message a `catch` block shows: an `Error`'s message, the JSON of
      any other object, or `fallback` for anything else. */
  function ErrorDescription(thrown: Thrown, fallback: string): (text: string)
    ensures thrown.ErrorValue? ==> text == thrown.message
    ensures thrown.ObjectValue? ==> text == thrown.json
    ensures thrown.OtherValue? ==> text == fallback
  {
    match thrown
    case ErrorValue(m) => m
    case ObjectValue(json) => json
    case OtherValue => fallback
  }

  /** A handler's `catch`: nothing changes and a destructive notification
      carries the extracted message. */
  function Caught(contatos: seq<Contato>, calls: seq<Call>, thrown: Thrown, fallback: string): (o: Outcome)
    ensures o.contatos == contatos && o.calls == calls && !o.closed
    ensures o.toast == Toast("Erro", ErrorDescription(thrown, fallback), true)
  {
    Outcome(contatos, calls, Toast("Erro", ErrorDescription(thrown, fallback), true), false)
  }

  /** `orgao?.id` is truthy. */
  predicate HasId(orgaoId: Option<string>) {
    orgaoId.Some? && orgaoId.value != ""
  }

  const AddFallback := "Erro ao adicionar contato"
  const MissingOrgaoId := "ID do órgão não encontrado"
  const ForeignKeyViolation := "23503"

  /** The row built from the form: trimmed name, optional fields trimmed or
      null, linked to the panel's organisation. */
  function NewRow(orgaoId: string, form: ContatoForm, newId: string, created: string, updated: string): (row: NovoContato)
    ensures row.id == newId && row.orgao_id == orgaoId && row.nome == Trim(form.nome)
    ensures row.cargo == NullIfBlank(form.cargo) && row.email == NullIfBlank(form.email)
    ensures row.telefone == NullIfBlank(form.telefone)
    ensures row.data_criacao == created && row.data_atualizacao == updated
  {
    NovoContato(newId, orgaoId, Trim(form.nome), NullIfBlank(form.cargo), NullIfBlank(form.email),
                NullIfBlank(form.telefone), created, updated)
  }

  /** The three checks `handleAddContato` makes before inserting. */
  predicate AddAllowed(orgaoId: Option<string>, form: ContatoForm, lookup: Remote<bool>) {
    HasId(orgaoId) && lookup == Returned(true) && Trim(form.nome) != ""
  }

  /** The last stage of `handleAddContato`, after the insert call: a
      foreign-key violation names the organisation, another error shows its
      message or the default, an answer with no rows is an error, and
      success appends the first returned row and closes the dialog. */
  function AfterInsert(id: string, contatos: seq<Contato>, calls: seq<Call>, insert: Remote<seq<Contato>>)
    : (o: Outcome)
    ensures o.calls == calls
    ensures o.closed <==> insert.Returned? && |insert.data| > 0
    ensures o.closed ==> o.contatos == contatos + [insert.data[0]] && !o.toast.destructive
    ensures !o.closed ==> o.contatos == contatos && o.toast.destructive
    ensures insert.Failed? && insert.code == ForeignKeyViolation ==>
      o.toast.description == "Erro: O órgão com ID " + id + " não existe na tabela orgaos"
    ensures insert.Failed? && insert.code != ForeignKeyViolation ==>
      o.toast.description == (if insert.message != "" then insert.message else AddFallback)
    ensures insert.Threw? ==> o == Caught(contatos, calls, insert.thrown, AddFallback)
  {
    match insert
    case Threw(t) => Caught(contatos, calls, t, AddFallback)
    case Failed(code, m) =>
      if code == ForeignKeyViolation then
        Caught(contatos, calls, ErrorValue("Erro: O órgão com ID " + id + " não existe na tabela orgaos"), AddFallback)
      else Caught(contatos, calls, ErrorValue(if m != "" then m else AddFallback), AddFallback)
    case Returned(rows) =>
      if |rows| == 0 then Caught(contatos, calls, ErrorValue("Nenhum dado retornado após inserção"), AddFallback)
      else Outcome(contatos + [rows[0]], calls, Toast("Sucesso", "Contato adicionado com sucesso", false), true)
  }

  /** `handleAddContato`: checks, in order, that the panel has an
      organisation id, that the organisation exists, and that the trimmed
      name is not empty; only then inserts the normalised row and goes on as
      `AfterInsert` says. Any failed check leaves the list alone and shows a
      destructive notification. `newId` is the uuid drawn for the row;
      `created` and `updated` are the clock's two separate readings for its
      timestamps. */
  function HandleAddContato(orgaoId: Option<string>, contatos: seq<Contato>, form: ContatoForm,
                            newId: string, created: string, updated: string, lookup: Remote<bool>, insert: Remote<seq<Contato>>)
    : (o: Outcome)
    ensures !HasId(orgaoId) ==> o == Caught(contatos, [], ErrorValue(MissingOrgaoId), AddFallback)
    ensures HasId(orgaoId) && lookup.Threw? ==>
      o == Caught(contatos, [SelectOrgao(orgaoId.value)], lookup.thrown, AddFallback)
    ensures HasId(orgaoId) && !AddAllowed(orgaoId, form, lookup) ==>
      o.calls == [SelectOrgao(orgaoId.value)] && o.contatos == contatos && !o.closed && o.toast.destructive
    ensures AddAllowed(orgaoId, form, lookup) ==>
      var calls := [SelectOrgao(orgaoId.value), InsertNovo(NewRow(orgaoId.value, form, newId, created, updated))];
      o == AfterInsert(orgaoId.value, contatos, calls, insert)
  {
    if !HasId(orgaoId) then Caught(contatos, [], ErrorValue(MissingOrgaoId), AddFallback)
    else
      var id := orgaoId.value;
      var checked := [SelectOrgao(id)];
      match lookup
      case Threw(t) => Caught(contatos, checked, t, AddFallback)
      case Failed(_, m) => Caught(contatos, checked, ErrorValue("Erro ao verificar órgão: " + m), AddFallback)
      case Returned(false) =>
        Caught(contatos, checked, ErrorValue("Órgão com ID " + id + " não encontrado na tabela orgaos"), AddFallback)
      case Returned(true) =>
        if Trim(form.nome) == "" then Caught(contatos, checked, ErrorValue("Nome do contato é obrigatório"), AddFallback)
        else AfterInsert(id, contatos, [SelectOrgao(id), InsertNovo(NewRow(id, form, newId, created, updated))], insert)
  }

  /** No insert call is made unless all three checks pass; the contact list
      grows, by exactly the first returned row, only when the checks pass
      and the insert returns a row. */
  lemma AddInsertsOnlyWhenAllowed(orgaoId: Option<string>, contatos: seq<Contato>, form: ContatoForm,
                                  newId: string, created: string, updated: string, lookup: Remote<bool>, insert: Remote<seq<Contato>>)
    ensures var o := HandleAddContato(orgaoId, contatos, form, newId, created, updated, lookup, insert);
      && ((exists c :: c in o.calls && c.InsertNovo?) <==> AddAllowed(orgaoId, form, lookup))
      && (o.closed <==> AddAllowed(orgaoId, form, lookup) && insert.Returned? && |insert.data| > 0)
      && (o.closed ==> o.contatos == contatos + [insert.data[0]])
      && (!o.closed ==> o.contatos == contatos)
  {
    var o := HandleAddContato(orgaoId, contatos, form, newId, created, updated, lookup, insert);
    if AddAllowed(orgaoId, form, lookup) {
      assert o.calls[1].InsertNovo?;
    }
  }

  /** A caught value's message is empty only for an `Error` or object with
      empty text, or for any other value when the fallback itself is empty. */
  lemma EmptyDescription(thrown: Thrown, fallback: string)
    ensures ErrorDescription(thrown, fallback) == "" <==>
      thrown == ErrorValue("") || thrown == ObjectValue("") || (thrown.OtherValue? && fallback == "")
  {
  }

  /** Every failed `handleAddContato` explains itself: the dialog stays
      open, the list is unchanged, and a destructive notification carries a
      non-empty message, provided whatever the client itself throws does. */
  lemma AddFailureIsExplained(orgaoId: Option<string>, contatos: seq<Contato>, form: ContatoForm,
                              newId: string, created: string, updated: string, lookup: Remote<bool>, insert: Remote<seq<Contato>>)
    requires lookup.Threw? ==> ErrorDescription(lookup.thrown, AddFallback) != ""
    requires insert.Threw? ==> ErrorDescription(insert.thrown, AddFallback) != ""
    ensures var o := HandleAddContato(orgaoId, contatos, form, newId, created, updated, lookup, insert);
      !o.closed ==> o.contatos == contatos && o.toast.destructive && o.toast.description != ""
  {
    if AddAllowed(orgaoId, form, lookup) {
      var calls := [SelectOrgao(orgaoId.value), InsertNovo(NewRow(orgaoId.value, form, newId, created, updated))];
      AfterInsertIsExplained(orgaoId.value, contatos, calls, insert);
    } else if HasId(orgaoId) && lookup.Returned? && lookup.data {
      assert |"Nome do contato é obrigatório"| > 0;
    } else if HasId(orgaoId) && lookup.Returned? {
      assert |"Órgão com ID " + orgaoId.value + " não encontrado na tabela orgaos"| > 0;
    } else if HasId(orgaoId) && lookup.Failed? {
      assert |"Erro ao verificar órgão: " + lookup.message| > 0;
    } else if !HasId(orgaoId) {
      assert |MissingOrgaoId| > 0;
    }
  }

  lemma AfterInsertIsExplained(id: string, contatos: seq<Contato>, calls: seq<Call>, insert: Remote<seq<Contato>>)
    requires insert.Threw? ==> ErrorDescription(insert.thrown, AddFallback) != ""
    ensures var o := AfterInsert(id, contatos, calls, insert);
      !o.closed ==> o.toast.description != ""
  {
    if insert.Failed? && insert.code == ForeignKeyViolation {
      assert |"Erro: O órgão com ID " + id + " não existe na tabela orgaos"| > 0;
    } else if insert.Returned? {
      assert |"Nenhum dado retornado após inserção"| > 0;
    }
  }

  /** Every row `handleAddContato` can insert (its name passed the check) is
      normalised: a non-empty name and optional fields with no surrounding
      white space, none of them an empty string, and the panel's own
      organisation id. */
  lemma InsertedRowIsNormalised(orgaoId: string, form: ContatoForm, newId: string, created: string, updated: string)
    requires Trim(form.nome) != ""
    ensures var row := NewRow(orgaoId, form, newId, created, updated);
      && row.orgao_id == orgaoId
      && Normalised(row.nome)
      && (row.cargo.Some? ==> Normalised(row.cargo.value))
      && (row.email.Some? ==> Normalised(row.email.value))
      && (row.telefone.Some? ==> Normalised(row.telefone.value))
  {
    NullIfBlankNormalised(form.cargo);
    NullIfBlankNormalised(form.email);
    NullIfBlankNormalised(form.telefone);
  }

  /** Non-empty text with nothing left to trim. */
  predicate Normalised(s: string) {
    s != "" && !IsWhiteSpace(s[0]) && !IsWhiteSpace(s[|s| - 1])
  }

  lemma NullIfBlankNormalised(text: string)
    ensures NullIfBlank(text).Some? ==> Normalised(NullIfBlank(text).value)
  {
  }

  /** `adicionarContato`: inserts a complete contact and appends it on
      success; a failure leaves the list alone. */
  function AdicionarContato(contatos: seq<Contato>, contato: Contato, insert: Remote<()>): (o: Outcome)
    ensures o.calls == [InsertContato(contato)]
    ensures insert.Returned? ==> o.contatos == contatos + [contato] && !o.toast.destructive
    ensures !insert.Returned? ==> o.contatos == contatos && o.toast == Toast("Erro", AddFallback, false)
  {
    if insert.Returned? then
      Outcome(contatos + [contato], [InsertContato(contato)], Toast("Sucesso", "Contato adicionado com sucesso!", false), false)
    else Outcome(contatos, [InsertContato(contato)], Toast("Erro", AddFallback, false), false)
  }

  /** Keeps the contacts whose id is not `id`. */
  function IdIsNot(id: string): Contato -> bool {
    (c: Contato) => c.id != id
  }

  /** `contatos.filter(c => c.id !== id)`: removes every contact with that id
      and keeps every other one, in order. */
  function RemoveById(contatos: seq<Contato>, id: string): (r: seq<Contato>)
    ensures forall c :: c in r <==> c in contatos && c.id != id
    ensures forall c :: multiset(r)[c] == if c.id != id then multiset(contatos)[c] else 0
    ensures IsSubseq(r, contatos)
  {
    FilterCounts(IdIsNot(id), contatos);
    Filter(IdIsNot(id), contatos)
  }

  /** Replaces a contact with `id` by `replacement`. */
  function ReplaceIfId(id: string, replacement: Contato): Contato -> Contato {
    (c: Contato) => if c.id == id then replacement else c
  }

  /** `contatos.map(c => c.id === id ? replacement : c)`: same length, every
      contact with that id replaced, every other one kept in place. */
  function ReplaceById(contatos: seq<Contato>, id: string, replacement: Contato): (r: seq<Contato>)
    ensures |r| == |contatos|
    ensures forall i :: 0 <= i < |contatos| && contatos[i].id != id ==> r[i] == contatos[i]
    ensures forall i :: 0 <= i < |contatos| && contatos[i].id == id ==> r[i] == replacement
  {
    Map(ReplaceIfId(id, replacement), contatos)
  }

  /** With unique ids, removing a present id shortens the list by exactly one. */
  lemma RemoveUniqueRemovesOne(contatos: seq<Contato>, c: Contato)
    requires DistinctKeys(contatos, ContatoId)
    requires c in contatos
    ensures |RemoveById(contatos, c.id)| == |contatos| - 1
  {
    var k :| 0 <= k < |contatos| && contatos[k] == c;
    forall j | 0 <= j < |contatos| && j != k ensures IdIsNot(c.id)(contatos[j]) {
      if j < k {
        assert ContatoId(contatos[j]) != ContatoId(contatos[k]);
      } else {
        assert ContatoId(contatos[k]) != ContatoId(contatos[j]);
      }
    }
    FilterDropsOne(IdIsNot(c.id), contatos, k);
  }

  /** Deleting the contact that was just appended, when its id was new,
      gives back the list as it was. */
  lemma AppendThenRemove(contatos: seq<Contato>, c: Contato)
    requires forall x :: x in contatos ==> x.id != c.id
    ensures RemoveById(contatos + [c], c.id) == contatos
  {
    var s := contatos + [c];
    assert s[..|s| - 1] == contatos;
    FilterAll(IdIsNot(c.id), contatos);
  }

  /** Replacing a contact and then deleting its id is the same as deleting
      its id: nothing outside that id is touched by the edit. */
  lemma {:induction false} ReplaceThenRemove(contatos: seq<Contato>, id: string, replacement: Contato)
    requires replacement.id == id
    ensures RemoveById(ReplaceById(contatos, id, replacement), id) == RemoveById(contatos, id)
  {
    if |contatos| > 0 {
      var n := |contatos|;
      var r := ReplaceById(contatos, id, replacement);
      assert r[..n - 1] == ReplaceById(contatos[..n - 1], id, replacement);
      ReplaceThenRemove(contatos[..n - 1], id, replacement);
    }
  }

  const EditFallback := "Erro ao atualizar contato"

  /** `handleEditContato`: needs the panel's organisation id, sends the
      contact re-linked to it, and replaces every contact with the edited id
      by the first row the database returns. */
  function HandleEditContato(orgaoId: Option<string>, contatos: seq<Contato>, contato: Contato, now: string,
                             update: Remote<seq<Contato>>): (o: Outcome)
    ensures !HasId(orgaoId) ==> o == Caught(contatos, [], ErrorValue(MissingOrgaoId), EditFallback)
    ensures HasId(orgaoId) ==>
      o.calls == [UpdateContato(contato.id, contato.(orgao_id := orgaoId.value), now)]
    ensures o.closed <==> HasId(orgaoId) && update.Returned? && |update.data| > 0
    ensures o.closed ==> o.contatos == ReplaceById(contatos, contato.id, update.data[0]) && !o.toast.destructive
    ensures !o.closed ==> o.contatos == contatos && o.toast.destructive
    ensures HasId(orgaoId) && update.Failed? ==>
      o.toast.description == (if update.message != "" then update.message else EditFallback)
    ensures HasId(orgaoId) && update.Threw? ==> o.toast.description == ErrorDescription(update.thrown, EditFallback)
  {
    if !HasId(orgaoId) then Caught(contatos, [], ErrorValue(MissingOrgaoId), EditFallback)
    else
      var calls := [UpdateContato(contato.id, contato.(orgao_id := orgaoId.value), now)];
      match update
      case Threw(t) => Caught(contatos, calls, t, EditFallback)
      case Failed(_, m) => Caught(contatos, calls, ErrorValue(if m != "" then m else EditFallback), EditFallback)
      case Returned(rows) =>
        if |rows| == 0 then Caught(contatos, calls, ErrorValue("Nenhum dado retornado após atualização"), EditFallback)
        else Outcome(ReplaceById(contatos, contato.id, rows[0]), calls,
                     Toast("Sucesso", "Contato atualizado com sucesso", false), true)
  }

  /** `value || null` for an optional text. */
  function OrNull(o: Option<string>): (r: Option<string>)
    ensures r.None? <==> o.None? || o.value == ""
    ensures r.Some? ==> r == o
  {
    if o.Some? && o.value != "" then o else None
  }

  /** `editarContato`: patches the contact's fields (empty optional fields
      become null) and on success puts the contact itself in place of every
      contact with its id; a failure shows a fixed, non-destructive message. */
  function EditarContato(contatos: seq<Contato>, contato: Contato, update: Remote<()>): (o: Outcome)
    ensures o.calls == [PatchContato(contato.id, contato.nome, OrNull(contato.cargo), OrNull(contato.email),
                                     OrNull(contato.telefone))]
    ensures update.Returned? ==> o.contatos == ReplaceById(contatos, contato.id, contato) && o.closed
    ensures !update.Returned? ==>
      o.contatos == contatos && !o.closed &&
      o.toast == Toast("Erro", "Erro ao atualizar contato. Tente novamente.", false)
  {
    var calls := [PatchContato(contato.id, contato.nome, OrNull(contato.cargo), OrNull(contato.email),
                               OrNull(contato.telefone))];
    if update.Returned? then
      Outcome(ReplaceById(contatos, contato.id, contato), calls, Toast("Sucesso", "Contato atualizado com sucesso!", false), true)
    else Outcome(contatos, calls, Toast("Erro", "Erro ao atualizar contato. Tente novamente.", false), false)
  }

  const DeleteFallback := "Erro ao excluir contato"

  /** `handleDeleteContato`: deletes by id and, on success, drops every
      contact with that id from the list. */
  function HandleDeleteContato(contatos: seq<Contato>, contato: Contato, delete: Remote<()>): (o: Outcome)
    ensures o.calls == [DeleteContato(contato.id)]
    ensures delete.Returned? ==> o.contatos == RemoveById(contatos, contato.id) && !o.toast.destructive
    ensures !delete.Returned? ==> o.contatos == contatos && o.toast.destructive
    ensures delete.Failed? ==>
      o.toast.description == (if delete.message != "" then delete.message else DeleteFallback)
    ensures delete.Threw? ==> o.toast.description == ErrorDescription(delete.thrown, DeleteFallback)
  {
    var calls := [DeleteContato(contato.id)];
    match delete
    case Threw(t) => Caught(contatos, calls, t, DeleteFallback)
    case Failed(_, m) => Caught(contatos, calls, ErrorValue(if m != "" then m else DeleteFallback), DeleteFallback)
    case Returned(_) =>
      Outcome(RemoveById(contatos, contato.id), calls, Toast("Sucesso", "Contato excluído com sucesso", false), false)
  }

  /** `excluirContato`: the same deletion with a fixed, non-destructive error
      message. */
  function ExcluirContato(contatos: seq<Contato>, contato: Contato, delete: Remote<()>): (o: Outcome)
    ensures o.calls == [DeleteContato(contato.id)]
    ensures delete.Returned? ==> o.contatos == RemoveById(contatos, contato.id)
    ensures !delete.Returned? ==> o.contatos == contatos && o.toast == Toast("Erro", DeleteFallback, false)
  {
    if delete.Returned? then
      Outcome(RemoveById(contatos, contato.id), [DeleteContato(contato.id)],
              Toast("Sucesso", "Contato excluído com sucesso!", false), false)
    else Outcome(contatos, [DeleteContato(contato.id)], Toast("Erro", DeleteFallback, false), false)
  }

  /** A successful add followed by a successful delete of the added contact
      restores the list, when the database returned a row with a new id. */
  lemma AddThenDeleteRestores(orgaoId: Option<string>, contatos: seq<Contato>, form: ContatoForm,
                              newId: string, created: string, updated: string, row: Contato)
    requires AddAllowed(orgaoId, form, Returned(true))
    requires forall x :: x in contatos ==> x.id != row.id
    ensures var added := HandleAddContato(orgaoId, contatos, form, newId, created, updated, Returned(true), Returned([row]));
      HandleDeleteContato(added.contatos, row, Returned(())).contatos == contatos
  {
    AppendThenRemove(contatos, row);
  }

  /** The ids this browser session has marked as organisations missing from
      the database (`sessionStorage` key `temp_orgao_<id>` set to "true"). */
  type Session = set<string>

  datatype Load = Load(calls: seq<Call>, contatos: seq<Contato>, toast: Option<Toast>)

  /** `carregarContatos`: skips organisations without an id or marked in the
      session; otherwise selects the contacts and shows `data || []`, or a
      destructive notification on failure. */
  function CarregarContatos(orgaoId: Option<string>, session: Session, contatos: seq<Contato>,
                            load: Remote<Option<seq<Contato>>>): (l: Load)
    ensures !HasId(orgaoId) || orgaoId.value in session ==> l == Load([], contatos, None)
    ensures HasId(orgaoId) && orgaoId.value !in session ==> l.calls == [SelectContatos(orgaoId.value)]
    ensures HasId(orgaoId) && orgaoId.value !in session && load.Returned? ==>
      l.contatos == (if load.data.Some? then load.data.value else []) && l.toast.None?
    ensures HasId(orgaoId) && orgaoId.value !in session && !load.Returned? ==>
      l.contatos == contatos && l.toast == Some(Toast("Erro", "Erro ao carregar contatos", true))
  {
    if !HasId(orgaoId) || orgaoId.value in session then Load([], contatos, None)
    else
      var calls := [SelectContatos(orgaoId.value)];
      match load
      case Returned(data) => Load(calls, if data.Some? then data.value else [], None)
      case _ => Load(calls, contatos, Some(Toast("Erro", "Erro ao carregar contatos", true)))
  }

  datatype Check = Check(calls: seq<Call>, session: Session, contatos: seq<Contato>, toast: Option<Toast>)

  /** `verificarOrgaoExiste`: skips organisations without an id or marked in
      the session; otherwise looks the organisation up. A lookup error or a
      throw ends silently; a missing organisation is marked and an
      informative notification is shown; a found one has its contacts
      loaded. */
  function VerificarOrgaoExiste(orgaoId: Option<string>, session: Session, contatos: seq<Contato>,
                                lookup: Remote<bool>, load: Remote<Option<seq<Contato>>>): (c: Check)
    ensures !HasId(orgaoId) || orgaoId.value in session ==> c == Check([], session, contatos, None)
    ensures HasId(orgaoId) && orgaoId.value !in session ==> |c.calls| >= 1 && c.calls[0] == SelectOrgao(orgaoId.value)
    ensures c.session == session + (if HasId(orgaoId) && lookup == Returned(false) then {orgaoId.value} else {})
    ensures (exists call :: call in c.calls && call.SelectContatos?) ==> lookup == Returned(true)
    ensures HasId(orgaoId) && orgaoId.value !in session && lookup == Returned(true) ==>
      var l := CarregarContatos(orgaoId, session, contatos, load);
      c.calls == [SelectOrgao(orgaoId.value)] + l.calls && c.contatos == l.contatos && c.toast == l.toast
  {
    if !HasId(orgaoId) || orgaoId.value in session then Check([], session, contatos, None)
    else
      var id := orgaoId.value;
      match lookup
      case Returned(false) =>
        Check([SelectOrgao(id)], session + {id}, contatos,
              Some(Toast("Informação", "Este órgão ainda não está completamente cadastrado no sistema.", false)))
      case Returned(true) =>
        var l := CarregarContatos(orgaoId, session, contatos, load);
        Check([SelectOrgao(id)] + l.calls, session, l.contatos, l.toast)
      case _ => Check([SelectOrgao(id)], session, contatos, None)
  }

  /** Once an organisation is found missing, later checks and loads for it
      make no database call and change nothing, whatever the database
      would have answered. */
  lemma {:induction false} MarkSuppressesCalls(orgaoId: Option<string>, session: Session, contatos: seq<Contato>,
                                               load: Remote<Option<seq<Contato>>>, lookup2: Remote<bool>,
                                               load2: Remote<Option<seq<Contato>>>, contatos2: seq<Contato>)
    requires HasId(orgaoId)
    ensures var first := VerificarOrgaoExiste(orgaoId, session, contatos, Returned(false), load);
      && orgaoId.value in first.session
      && VerificarOrgaoExiste(orgaoId, first.session, contatos2, lookup2, load2) == Check([], first.session, contatos2, None)
      && CarregarContatos(orgaoId, first.session, contatos2, load2) == Load([], contatos2, None)
  {
    var first := VerificarOrgaoExiste(orgaoId, session, contatos, Returned(false), load);
    assert first.session == session + {orgaoId.value};
  }

  /** `statusColors`, in the order it is written. */
  const StatusColors: seq<Entry> := [
    Entry("ativo", "bg-green-100 text-green-800"),
    Entry("inativo", "bg-red-100 text-red-800"),
    Entry("pendente", "bg-yellow-100 text-yellow-800"),
    Entry("analise_interna", "bg-yellow-100 text-yellow-800"),
    Entry("aguardando_pregao", "bg-blue-100 text-blue-800"),
    Entry("vencida", "bg-red-100 text-red-800"),
    Entry("nao_vencida", "bg-green-100 text-green-800"),
    Entry("envio_documentos", "bg-purple-100 text-purple-800"),
    Entry("assinaturas", "bg-indigo-100 text-indigo-800"),
    Entry("concluida", "bg-gray-100 text-gray-800")
  ]

  /** `statusLabels`, in the order it is written. */
  const StatusLabels: seq<Entry> := [
    Entry("ativo", "Ativo"),
    Entry("inativo", "Inativo"),
    Entry("pendente", "Pendente"),
    Entry("analise_interna", "Em Análise Interna"),
    Entry("aguardando_pregao", "Aguardando Pregão"),
    Entry("vencida", "Vencida"),
    Entry("nao_vencida", "Não Vencida"),
    Entry("envio_documentos", "Envio de Documentos"),
    Entry("assinaturas", "Assinaturas"),
    Entry("concluida", "Concluída")
  ]

  const StatusIds: seq<string> := ["ativo", "inativo", "pendente", "analise_interna", "aguardando_pregao",
                                   "vencida", "nao_vencida", "envio_documentos", "assinaturas", "concluida"]

  const DefaultStatusColor := "bg-gray-100 text-gray-800"
  const UnknownStatusLabel := "Status Desconhecido"

  /** Both tables have the same ten distinct keys in the same order; every
      colour and label is non-empty and no label is the unknown-status text. */
  lemma StatusTablesAgree()
    ensures Keys(StatusColors) == StatusIds && Keys(StatusLabels) == StatusIds
    ensures UniqueKeys(StatusColors) && UniqueKeys(StatusLabels)
    ensures forall i, j :: 0 <= i < j < |StatusIds| ==> StatusIds[i] != StatusIds[j]
    ensures forall k :: 0 <= k < |StatusIds| ==> StatusColors[k].value != "" && StatusLabels[k].value != ""
    ensures forall k :: 0 <= k < |StatusIds| ==> StatusLabels[k].value != UnknownStatusLabel
  {
    StatusIdsDistinct();
    StatusKeys();
    UniqueKeysFromKeys(StatusColors);
    UniqueKeysFromKeys(StatusLabels);
    StatusValues();
  }

  lemma StatusIdsDistinct()
    ensures forall i, j :: 0 <= i < j < |StatusIds| ==> StatusIds[i] != StatusIds[j]
  {
  }

  lemma StatusKeys()
    ensures Keys(StatusColors) == StatusIds && Keys(StatusLabels) == StatusIds
  {
  }

  lemma StatusValues()
    ensures forall k :: 0 <= k < |StatusIds| ==> StatusColors[k].value != "" && StatusLabels[k].value != ""
    ensures forall k :: 0 <= k < |StatusIds| ==> StatusLabels[k].value != UnknownStatusLabel
  {
  }

  /** `getStatusColor`: the `k`-th status gets the `k`-th colour; any other
      status gets grey. */
  function StatusColor(status: string): (color: string)
    ensures forall k :: 0 <= k < |StatusIds| && status == StatusIds[k] ==> color == StatusColors[k].value
    ensures status !in StatusIds ==> color == DefaultStatusColor
  {
    StatusColorLookup(status);
    GetOr(StatusColors, status, DefaultStatusColor)
  }

  lemma StatusColorLookup(status: string)
    ensures forall k :: 0 <= k < |StatusIds| && status == StatusIds[k] ==>
      GetOr(StatusColors, status, DefaultStatusColor) == StatusColors[k].value
    ensures status !in StatusIds ==> GetOr(StatusColors, status, DefaultStatusColor) == DefaultStatusColor
  {
    StatusTablesAgree();
    LookupInTable(StatusColors, status, DefaultStatusColor);
  }

  /** `getStatusLabel`: the `k`-th status gets the `k`-th label; a status
      is shown as unknown exactly when it is not in the table. */
  function StatusLabel(status: string): (text: string)
    ensures forall k :: 0 <= k < |StatusIds| && status == StatusIds[k] ==> text == StatusLabels[k].value
    ensures status in StatusIds <==> text != UnknownStatusLabel
  {
    StatusLabelLookup(status);
    GetOr(StatusLabels, status, UnknownStatusLabel)
  }

  lemma StatusLabelLookup(status: string)
    ensures forall k :: 0 <= k < |StatusIds| && status == StatusIds[k] ==>
      GetOr(StatusLabels, status, UnknownStatusLabel) == StatusLabels[k].value
    ensures status in StatusIds <==> GetOr(StatusLabels, status, UnknownStatusLabel) != UnknownStatusLabel
  {
    StatusTablesAgree();
    LookupInTable(StatusLabels, status, UnknownStatusLabel);
  }

  /** Six of the eight kanban column ids have a panel label;
      "analise_edital" and "em_andamento" show as unknown. */
  lemma ColumnsWithoutPanelLabel()
    ensures forall id :: id in Kanban.ColumnIds() ==>
      (id in StatusIds <==> id != "analise_edital" && id != "em_andamento")
    ensures StatusLabel("analise_edital") == UnknownStatusLabel && StatusLabel("em_andamento") == UnknownStatusLabel
  {
    assert Kanban.ColumnIds() == ["analise_interna", "analise_edital", "aguardando_pregao", "em_andamento",
                                  "envio_documentos", "assinaturas", "vencida", "nao_vencida"];
    LabelledColumns();
    UnlabelledColumns();
  }

  lemma LabelledColumns()
    ensures "analise_interna" in StatusIds && "aguardando_pregao" in StatusIds
    ensures "vencida" in StatusIds && "nao_vencida" in StatusIds
    ensures "envio_documentos" in StatusIds && "assinaturas" in StatusIds
  {
    assert StatusIds[3] == "analise_interna" && StatusIds[4] == "aguardando_pregao";
    assert StatusIds[5] == "vencida" && StatusIds[6] == "nao_vencida";
    assert StatusIds[7] == "envio_documentos" && StatusIds[8] == "assinaturas";
  }

  lemma UnlabelledColumns()
    ensures "analise_edital" !in StatusIds && "em_andamento" !in StatusIds
  {
  }

  /** The static bids' "ativo" has a panel label but no kanban column, and
      "concluida" is coloured like an unknown status although it has a
      label. */
  lemma PanelOnlyStatuses()
    ensures StatusLabel("ativo") == "Ativo" && "ativo" !in Kanban.ColumnIds()
    ensures StatusColor("concluida") == DefaultStatusColor && StatusLabel("concluida") == "Concluída"
  {
    assert Kanban.ColumnIds() == ["analise_interna", "analise_edital", "aguardando_pregao", "em_andamento",
                                  "envio_documentos", "assinaturas", "vencida", "nao_vencida"];
    assert StatusIds[0] == "ativo";
    assert StatusIds[9] == "concluida";
  }
}
