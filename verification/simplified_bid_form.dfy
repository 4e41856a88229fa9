/** The simplified new-bid form
    (components/licitacoes/formulario-simplificado-licitacao.tsx): storage
    paths built from file extensions, and the all-or-nothing submission that
    uploads every file before inserting the bid. Storage, the database, uuid
    generation and the clock are inputs. */
module SimplifiedBidForm {
  import opened Wrappers
  import opened Seqs
  import opened Ui
  import Kanban
  import Documents

  /** `name.split('.').pop()`: the text after the last '.', or the whole name
      when it has no '.'. */
  function Extension(name: string): (ext: string)
    ensures '.' !in ext
    ensures |ext| <= |name| && ext == name[|name| - |ext|..]
    ensures '.' !in name ==> ext == name
    ensures '.' in name ==> |ext| < |name| && name[|name| - |ext| - 1] == '.'
  {
    if |name| == 0 then ""
    else if name[|name| - 1] == '.' then ""
    else
      var e := Extension(name[..|name| - 1]);
      assert '.' in name ==> '.' in name[..|name| - 1] by {
        if '.' in name {
          var i :| 0 <= i < |name| && name[i] == '.';
          assert i < |name| - 1;
          assert name[..|name| - 1][i] == '.';
        }
      }
      e + [name[|name| - 1]]
  }

  /** Joining a stem and a dot-free extension with '.' gives that extension
      back. */
  lemma {:induction false} ExtensionOfJoin(stem: string, ext: string)
    requires '.' !in ext
    ensures Extension(stem + "." + ext) == ext
    decreases |ext|
  {
    if |ext| == 0 {
      assert (stem + "." + ext)[|stem + "." + ext| - 1] == '.';
    } else {
      var last := ext[|ext| - 1];
      var init := ext[..|ext| - 1];
      ExtensionOfJoin(stem, init);
      var joined := stem + "." + ext;
      assert joined[..|joined| - 1] == stem + "." + init;
      assert joined[|joined| - 1] == last;
    }
  }

  /** The storage key of one uploaded file: "licitacoes/" + uuid + "." + extension. */
  function StoragePath(uuid: string, fileName: string): (path: string)
    ensures |path| > |"licitacoes/"| && path[..|"licitacoes/"|] == "licitacoes/"
    ensures Extension(path) == Extension(fileName)
    ensures |path| == |"licitacoes/"| + |uuid| + 1 + |Extension(fileName)|
    ensures path[|"licitacoes/"|..|"licitacoes/"| + |uuid|] == uuid
  {
    var stem := "licitacoes/" + uuid;
    var path := stem + "." + Extension(fileName);
    ExtensionOfJoin(stem, Extension(fileName));
    JoinedParts(uuid, Extension(fileName));
    path
  }

  /** The pieces of `"licitacoes/" + uuid + "." + ext` can be read back by
      position. */
  lemma JoinedParts(uuid: string, ext: string)
    ensures var path := "licitacoes/" + uuid + "." + ext;
      && |path| == |"licitacoes/"| + |uuid| + 1 + |ext|
      && path[..|"licitacoes/"|] == "licitacoes/"
      && path[|"licitacoes/"|..|"licitacoes/"| + |uuid|] == uuid
  {
    var path := "licitacoes/" + uuid + "." + ext;
    assert path[..|"licitacoes/"| + |uuid|] == "licitacoes/" + uuid;
  }

  /** A storage path determines the uuid it was built from, whatever the
      file names: the extension has no '.', so the last '.' of the path
      marks where the uuid ends. Files given different uuids therefore never
      share a path. */
  lemma StoragePathDeterminesUuid(u1: string, n1: string, u2: string, n2: string)
    ensures StoragePath(u1, n1) == StoragePath(u2, n2) ==> u1 == u2
  {
    var p1 := StoragePath(u1, n1);
    var p2 := StoragePath(u2, n2);
    if p1 == p2 {
      SameLayout(p1, u1, u2, |Extension(n1)|, |Extension(n2)|);
    }
  }

  /** Two uuids that sit at the same place of one path, before tails of the
      same length, are the same uuid. */
  lemma SameLayout(path: string, u1: string, u2: string, k1: nat, k2: nat)
    requires |path| == |"licitacoes/"| + |u1| + 1 + k1 == |"licitacoes/"| + |u2| + 1 + k2
    requires k1 == k2
    requires path[|"licitacoes/"|..|"licitacoes/"| + |u1|] == u1
    requires path[|"licitacoes/"|..|"licitacoes/"| + |u2|] == u2
    ensures u1 == u2
  {
  }

  datatype BidForm = BidForm(titulo: string, orgao: string, dataAbertura: string, responsavel: string,
                             documentos: seq<string>)

  /** What storage answers to one upload. */
  datatype UploadOutcome = Uploaded | UploadFailed(error: string)

  /** What the database answers to the insert. */
  datatype InsertOutcome = Inserted | InsertFailed(error: string)

  /** The row inserted into `licitacoes`; its two timestamps are separate clock readings. */
  datatype BidRow = BidRow(id: string, titulo: string, orgao: string, data_abertura: string,
                           responsavel: string, documentos: seq<string>, status: string,
                           data_criacao: string, data_atualizacao: string)

  datatype Notified = OnSuccess | OnClose

  /** What a caller's `onSuccess` or `onClose` does when called: return, or
      throw into the form's own `catch`. */
  datatype CallbackRun = Returns | Throws

  /** One submission: the storage paths it tried to upload, the row it tried
      to insert, the callbacks it called, the notifications in the order they
      were raised and the final `isSubmitting`. */
  datatype Submission = Submission(uploads: seq<string>, insert: Option<BidRow>, notified: seq<Notified>,
                                   toasts: seq<Toast>, isSubmitting: bool)

  const SuccessToast := Toast("Sucesso", "Licitação cadastrada com sucesso", false)
  const FailureToast := Toast("Erro", "Erro ao cadastrar licitação", true)

  /** The storage paths of every file, in file order. */
  function Paths(fileIds: seq<string>, names: seq<string>): (paths: seq<string>)
    requires |fileIds| == |names|
    ensures |paths| == |names|
    ensures forall i :: 0 <= i < |names| ==> paths[i] == StoragePath(fileIds[i], names[i])
  {
    seq(|names|, i requires 0 <= i < |names| => StoragePath(fileIds[i], names[i]))
  }

  function IsFailure(u: UploadOutcome): bool {
    u.UploadFailed?
  }

  /** The index of the first failed upload, -1 when every upload succeeded. */
  function FirstFailure(storage: seq<UploadOutcome>): (k: int)
    ensures -1 <= k < |storage|
    ensures k == -1 <==> forall j :: 0 <= j < |storage| ==> storage[j].Uploaded?
    ensures 0 <= k ==> storage[k].UploadFailed? && forall j :: 0 <= j < k ==> storage[j].Uploaded?
  {
    FirstIndex(storage, IsFailure, true)
  }

  /** `getPublicUrl(path)` on the `documentos` bucket: the public object
      link under the configured base URL. */
  function PublicUrl(supabaseUrl: string, path: string): (url: string)
    ensures |url| == |supabaseUrl| + |Documents.StoragePrefix| + |path|
    ensures url[..|supabaseUrl|] == supabaseUrl && url[|url| - |path|..] == path
  {
    supabaseUrl + Documents.StoragePrefix + path
  }

  function PublicUrls(supabaseUrl: string, paths: seq<string>): (urls: seq<string>)
    ensures |urls| == |paths|
    ensures forall i :: 0 <= i < |paths| ==> urls[i] == PublicUrl(supabaseUrl, paths[i])
  {
    seq(|paths|, i requires 0 <= i < |paths| => PublicUrl(supabaseUrl, paths[i]))
  }

  /** A stored file that the documents page lists with this path and no
      `url` of its own downloads from exactly the link this form saved. */
  lemma StoredLinkIsDownloadLink(d: Documents.Documento, uuid: string, fileName: string, supabaseUrl: string)
    requires d.arquivo_path == Some(StoragePath(uuid, fileName))
    requires d.url.None? || d.url.value == ""
    ensures Documents.Download(d, supabaseUrl) == Documents.OpenInNewTab(PublicUrl(supabaseUrl, StoragePath(uuid, fileName)))
  {
  }

  /** The status every new bid starts in: the first kanban column. */
  const InitialStatus := "analise_interna"

  lemma InitialStatusIsFirstColumn()
    ensures InitialStatus == Kanban.Columns[0].id
  {
  }

  /** The upload loop of `handleSubmit`: uploads to `paths` in order and
      stops at the first storage error. `tried` holds the paths it sent;
      `urls` holds the public links of all of them, or `None` after an
      error. `storage[i]` is the answer to the `i`-th upload. */
  method UploadAll(paths: seq<string>, storage: seq<UploadOutcome>, supabaseUrl: string)
    returns (tried: seq<string>, urls: Option<seq<string>>)
    requires |storage| == |paths|
    ensures FirstFailure(storage) == -1 ==> tried == paths && urls == Some(PublicUrls(supabaseUrl, paths))
    ensures FirstFailure(storage) >= 0 ==> tried == paths[..FirstFailure(storage) + 1] && urls.None?
  {
    var done: seq<string> := [];
    var i := 0;
    while i < |paths|
      invariant 0 <= i <= |paths|
      invariant forall j :: 0 <= j < i ==> storage[j].Uploaded?
      invariant done == PublicUrls(supabaseUrl, paths[..i])
    {
      if storage[i].UploadFailed? {
        assert FirstFailure(storage) == i;
        return paths[..i + 1], None;
      }
      assert paths[..i + 1] == paths[..i] + [paths[i]];
      done := done + [PublicUrl(supabaseUrl, paths[i])];
      i := i + 1;
    }
    assert paths[..i] == paths;
    return paths, Some(done);
  }

  /** `handleSubmit`: inserts one bid with status "analise_interna" and the
      public links of its files, in file order, only when every upload
      succeeded; raises the success notification and calls `onSuccess` then
      `onClose` only if that insert succeeded. Any throw inside the `try` --
      a storage or database error, or a throwing callback -- ends in the
      destructive error notification, so a throwing `onSuccess` leaves
      `onClose` uncalled and follows the success notification with the error
      one. `isSubmitting` is false on every path. `fileIds[i]` is the uuid
      drawn for file `i`, `bidId` the one drawn for the bid, and `created`
      and `updated` the clock's two ISO readings for the row's timestamps. */
  method HandleSubmit(form: BidForm, fileIds: seq<string>, bidId: string, created: string, updated: string,
                      storage: seq<UploadOutcome>, supabaseUrl: string, db: InsertOutcome,
                      onSuccess: CallbackRun, onClose: CallbackRun)
    returns (s: Submission)
    requires |fileIds| == |form.documentos| && |storage| == |form.documentos|
    ensures !s.isSubmitting
    ensures FirstFailure(storage) == -1 ==>
      && s.uploads == Paths(fileIds, form.documentos)
      && s.insert == Some(BidRow(bidId, form.titulo, form.orgao, form.dataAbertura, form.responsavel,
                                 PublicUrls(supabaseUrl, Paths(fileIds, form.documentos)), InitialStatus, created, updated))
    ensures FirstFailure(storage) >= 0 ==>
      && s.uploads == Paths(fileIds, form.documentos)[..FirstFailure(storage) + 1]
      && s.insert.None?
    ensures s.notified != [] <==> s.insert.Some? && db.Inserted?
    ensures s.notified != [] ==>
      && (onSuccess.Returns? ==> s.notified == [OnSuccess, OnClose])
      && (onSuccess.Throws? ==> s.notified == [OnSuccess])
    ensures s.notified == [] ==> s.toasts == [FailureToast]
    ensures s.notified != [] ==>
      s.toasts == if onSuccess.Returns? && onClose.Returns? then [SuccessToast] else [SuccessToast, FailureToast]
    ensures s.toasts != [] && s.toasts[0].destructive <==> s.notified == []
    ensures s.toasts[|s.toasts| - 1].destructive <==>
      !(s.insert.Some? && db.Inserted? && onSuccess.Returns? && onClose.Returns?)
  {
    var tried, urls := UploadAll(Paths(fileIds, form.documentos), storage, supabaseUrl);
    if urls.None? {
      return Submission(tried, None, [], [FailureToast], false);
    }
    var row := BidRow(bidId, form.titulo, form.orgao, form.dataAbertura, form.responsavel, urls.value,
                      InitialStatus, created, updated);
    if db.InsertFailed? {
      return Submission(tried, Some(row), [], [FailureToast], false);
    }
    if onSuccess.Throws? {
      return Submission(tried, Some(row), [OnSuccess], [SuccessToast, FailureToast], false);
    }
    if onClose.Throws? {
      return Submission(tried, Some(row), [OnSuccess, OnClose], [SuccessToast, FailureToast], false);
    }
    return Submission(tried, Some(row), [OnSuccess, OnClose], [SuccessToast], false);
  }
}
