/** The store side of a submission (app/components/a.tsx:490-654): insert
    the record, upload the attached files one at a time, write their paths
    back into the record, and on any failure undo what was done, driven by
    the ledger of files the storage confirmed. The database and the file
    storage are an oracle that answers each call; the generated file names
    are an input. */
module Saga {
  import opened Text
  import opened Formatters
  import opened Form

  // ---------------------------------------------------------------------
  // The store's answers and the calls made to it.
  // ---------------------------------------------------------------------

  /** The insert's answer: the new record's id, no record, or a database
      error with its SQLSTATE code and message. */
  datatype InsertReply = Inserted(id: int) | NoRow | InsertFailed(code: string, message: string)

  /** One upload's answer: the path the storage reports, or an error. */
  datatype UploadReply = Stored(path: string) | UploadFailed(message: string)

  /** The answer of the path update, of the file removal and of the record delete. */
  datatype Reply = Ok | Error(message: string)

  /** How the store answers one submission; `uploads[j]` answers the j-th upload. */
  datatype StoreScript = StoreScript(
    insert: InsertReply, uploads: seq<UploadReply>, update: Reply, remove: Reply, delete: Reply)

  /** The columns the insert writes: every text field, the second mobile
      number as null when empty, and the consent flag. */
  datatype Row = Row(
    nome: string, sexo: string, conselho: string, tipoProfissional: string,
    banco: string, agencia: string, conta: string, digito: string,
    pix: string, pixType: string,
    enderecoRua: string, enderecoNumero: string, enderecoBairro: string,
    enderecoCidade: string, enderecoComplemento: string, cep: string,
    estadoCivil: string, email: string, celular: string, celular2: Option<string>,
    termoPrivacidade: bool)

  /** A call to the store, as it is made. */
  datatype StoreCall =
    | InsertRow(row: Row)
    | PutFile(path: StoragePath, file: File)
    | UpdatePaths(id: int, columns: map<string, string>)
    | RemoveFiles(paths: seq<StoragePath>)
    | DeleteRow(id: int)

  /** What the user is told: success, or why it failed. */
  datatype Outcome = Success | Failure(problem: Problem)

  /** A submission's outcome and the calls it made, in order. */
  datatype Run = Run(outcome: Outcome, trace: seq<StoreCall>)

  // ---------------------------------------------------------------------
  // The record, the files and their paths.
  // ---------------------------------------------------------------------

  /** The record inserted for a form: every typed text and the declaration,
      with an empty second mobile number stored as null. */
  function RowOf(f: FormData): Row {
    Row(f.nome, f.sexo, f.conselho, f.tipoProfissional, f.banco, f.agencia, f.conta, f.digito,
        f.pix, f.pixType, f.enderecoRua, f.enderecoNumero, f.enderecoBairro, f.enderecoCidade,
        f.enderecoComplemento, f.cep, f.estadoCivil, f.email, f.celular,
        if f.celular2 == "" then None else Some(f.celular2), f.termoPrivacidade)
  }

  /** The attachments never reach the inserted record: choosing or
      dropping a file leaves the row unchanged. */
  lemma RowIgnoresFiles(f: FormData, s: FileField, file: Option<File>)
    ensures RowOf(WithFile(f, s, file)) == RowOf(f)
  {
    match s
    case DocumentoNadaConsta =>
    case DocumentoResidencia =>
    case AnexoEstadoCivil =>
    case CadernetaVacina =>
    case CertificadoReservista =>
    case Foto =>
  }

  /** The file inputs in the order their uploads are queued. */
  const Slots: seq<FileField> :=
    [DocumentoNadaConsta, DocumentoResidencia, AnexoEstadoCivil, CadernetaVacina, CertificadoReservista, Foto]

  /** A file input's place in the upload order. */
  function Rank(s: FileField): (n: nat)
    ensures n < |Slots| && Slots[n] == s
  {
    match s
    case DocumentoNadaConsta => 0
    case DocumentoResidencia => 1
    case AnexoEstadoCivil => 2
    case CadernetaVacina => 3
    case CertificadoReservista => 4
    case Foto => 5
  }

  /** The record column that receives a file's path. */
  function Column(s: FileField): string {
    match s
    case DocumentoNadaConsta => "documento_nada_consta"
    case DocumentoResidencia => "documento_residencia"
    case AnexoEstadoCivil => "anexo_estado_civil"
    case CadernetaVacina => "caderneta_vacina"
    case CertificadoReservista => "certificado_reservista"
    case Foto => "foto"
  }

  /** The storage folder a file is put under. */
  function Folder(s: FileField): string {
    match s
    case DocumentoNadaConsta => "documentos-nada-consta"
    case DocumentoResidencia => "documentos-residencia"
    case AnexoEstadoCivil => "anexo-estado-civil"
    case CadernetaVacina => "caderneta-vacina"
    case CertificadoReservista => "certificado-reservista"
    case Foto => "fotos-perfil"
  }

  /** One queued upload: the input it comes from and the chosen file. */
  datatype PlannedUpload = PlannedUpload(slot: FileField, file: File)

  /** The chosen files among `ss`, in the order of `ss`. */
  function Planned(f: FormData, ss: seq<FileField>): (plan: seq<PlannedUpload>)
    ensures |plan| <= |ss|
  {
    if ss == [] then []
    else
      (if FileOf(f, ss[0]).Some? then [PlannedUpload(ss[0], FileOf(f, ss[0]).value)] else [])
      + Planned(f, ss[1..])
  }

  /** The upload queue the submission builds from the form. */
  function UploadPlan(f: FormData): (plan: seq<PlannedUpload>)
    ensures |plan| <= 6
  {
    Planned(f, Slots)
  }

  /** Each queued upload carries the file chosen on its own input. */
  lemma {:induction false} PlannedEntries(f: FormData, ss: seq<FileField>)
    ensures forall j :: 0 <= j < |Planned(f, ss)| ==>
      Planned(f, ss)[j].slot in ss && FileOf(f, Planned(f, ss)[j].slot) == Some(Planned(f, ss)[j].file)
  {
    if ss != [] {
      PlannedEntries(f, ss[1..]);
      var rest := Planned(f, ss[1..]);
      var plan := Planned(f, ss);
      if FileOf(f, ss[0]).Some? {
        assert plan == [PlannedUpload(ss[0], FileOf(f, ss[0]).value)] + rest;
        forall j | 0 < j < |plan| ensures plan[j].slot in ss && FileOf(f, plan[j].slot) == Some(plan[j].file) {
          assert plan[j] == rest[j - 1];
          assert rest[j - 1].slot in ss[1..];
        }
      } else {
        assert plan == rest;
        forall j | 0 <= j < |plan| ensures plan[j].slot in ss {
          assert rest[j].slot in ss[1..];
        }
      }
    }
  }

  /** Every chosen file among `ss` is queued. */
  lemma {:induction false} PlannedComplete(f: FormData, ss: seq<FileField>, s: FileField)
    requires s in ss && FileOf(f, s).Some?
    ensures exists j :: 0 <= j < |Planned(f, ss)| && Planned(f, ss)[j].slot == s
  {
    var plan := Planned(f, ss);
    var head := if FileOf(f, ss[0]).Some? then [PlannedUpload(ss[0], FileOf(f, ss[0]).value)] else [];
    assert plan == head + Planned(f, ss[1..]);
    if s == ss[0] {
      assert plan[0].slot == s;
    } else {
      PlannedComplete(f, ss[1..], s);
      var j :| 0 <= j < |Planned(f, ss[1..])| && Planned(f, ss[1..])[j].slot == s;
      assert plan[|head| + j].slot == s;
    }
  }

  predicate RankOrdered(ss: seq<FileField>) {
    forall i, j :: 0 <= i < j < |ss| ==> Rank(ss[i]) < Rank(ss[j])
  }

  function SlotsOf(plan: seq<PlannedUpload>): (ss: seq<FileField>)
    ensures |ss| == |plan| && forall j :: 0 <= j < |plan| ==> ss[j] == plan[j].slot
  {
    seq(|plan|, j requires 0 <= j < |plan| => plan[j].slot)
  }

  /** The queue keeps the order of `ss`. */
  lemma {:induction false} PlannedOrdered(f: FormData, ss: seq<FileField>)
    requires RankOrdered(ss)
    ensures RankOrdered(SlotsOf(Planned(f, ss)))
  {
    if ss != [] {
      var rest := Planned(f, ss[1..]);
      assert RankOrdered(ss[1..]) by {
        forall i, j | 0 <= i < j < |ss[1..]| ensures Rank(ss[1..][i]) < Rank(ss[1..][j]) {
          assert ss[1..][i] == ss[i + 1] && ss[1..][j] == ss[j + 1];
        }
      }
      PlannedOrdered(f, ss[1..]);
      if FileOf(f, ss[0]).Some? {
        var plan := Planned(f, ss);
        assert plan == [PlannedUpload(ss[0], FileOf(f, ss[0]).value)] + rest;
        PlannedEntries(f, ss[1..]);
        forall i, j | 0 <= i < j < |plan| ensures Rank(plan[i].slot) < Rank(plan[j].slot) {
          assert plan[j] == rest[j - 1];
          if i > 0 {
            assert plan[i] == rest[i - 1];
            assert SlotsOf(rest)[i - 1] == rest[i - 1].slot && SlotsOf(rest)[j - 1] == rest[j - 1].slot;
          } else {
            assert rest[j - 1].slot in ss[1..];
            var n :| 0 <= n < |ss[1..]| && ss[1..][n] == rest[j - 1].slot;
            assert ss[n + 1] == rest[j - 1].slot;
          }
        }
      } else {
        assert Planned(f, ss) == rest;
      }
    }
  }

  /** The queue holds exactly the chosen files, each with its own input,
      in the fixed input order (so once each). */
  lemma UploadPlanFaithful(f: FormData)
    ensures var plan := UploadPlan(f);
      (forall j :: 0 <= j < |plan| ==> FileOf(f, plan[j].slot) == Some(plan[j].file))
      && (forall s :: FileOf(f, s).Some? <==> exists j :: 0 <= j < |plan| && plan[j].slot == s)
      && (forall i, j :: 0 <= i < j < |plan| ==> Rank(plan[i].slot) < Rank(plan[j].slot))
  {
    var plan := UploadPlan(f);
    PlannedEntries(f, Slots);
    forall s | FileOf(f, s).Some? ensures exists j :: 0 <= j < |plan| && plan[j].slot == s {
      assert Slots[Rank(s)] == s;
      PlannedComplete(f, Slots, s);
    }
    assert RankOrdered(Slots) by {
      forall i, j | 0 <= i < j < |Slots| ensures Rank(Slots[i]) < Rank(Slots[j]) {
        SlotRank(i);
        SlotRank(j);
      }
    }
    PlannedOrdered(f, Slots);
    forall i, j | 0 <= i < j < |plan| ensures Rank(plan[i].slot) < Rank(plan[j].slot) {
      assert SlotsOf(plan)[i] == plan[i].slot && SlotsOf(plan)[j] == plan[j].slot;
    }
  }

  lemma SlotRank(i: nat)
    requires i < |Slots|
    ensures Rank(Slots[i]) == i
  {
  }

  /** `name.split('.').pop()`: what follows the last '.', or the whole name
      when it has none. */
  function Extension(name: string): (r: string)
    ensures forall i :: 0 <= i < |r| ==> r[i] != '.'
    ensures |r| <= |name| && r == name[|name| - |r|..]
    ensures |r| < |name| ==> name[|name| - |r| - 1] == '.'
  {
    if name == [] then []
    else if name[|name| - 1] == '.' then []
    else
      var init := name[..|name| - 1];
      var e := Extension(init);
      var r := e + [name[|name| - 1]];
      assert e == init[|init| - |e|..];
      assert init[|init| - |e|..] == name[|name| - |r|..|name| - 1];
      assert name[|name| - |r|..] == name[|name| - |r|..|name| - 1] + [name[|name| - 1]];
      assert forall i :: 0 <= i < |r| ==> r[i] != '.' by {
        forall i | 0 <= i < |r| ensures r[i] != '.' {
          if i < |e| { assert r[i] == e[i]; }
        }
      }
      r
  }

  /** A storage path, kept by its parts: the input's folder, the record id,
      the generated name and the chosen file's name (for its extension). */
  datatype StoragePath = StoragePath(slot: FileField, id: int, name: string, fileName: string)

  /** The path as the storage receives it: `folder/id/name.ext`; the stored
      object keeps the chosen file's extension. */
  function PathText(sp: StoragePath): (t: string)
    ensures Extension(t) == Extension(sp.fileName)
  {
    var e := Extension(sp.fileName);
    var head := Folder(sp.slot) + "/" + IntText(sp.id) + "/" + sp.name;
    ExtensionAfterDot(head, e);
    head + "." + e
  }

  /** A name followed by '.' and a dot-free suffix has that suffix as its
      extension. */
  lemma {:induction false} ExtensionAfterDot(head: string, e: string)
    requires forall i :: 0 <= i < |e| ==> e[i] != '.'
    ensures Extension(head + "." + e) == e
  {
    var t := head + "." + e;
    if e != [] {
      assert t[..|t| - 1] == head + "." + e[..|e| - 1];
      ExtensionAfterDot(head, e[..|e| - 1]);
      assert e == e[..|e| - 1] + [e[|e| - 1]];
    }
  }

  /** Where a queued file is stored, with a generated name. */
  function FilePath(p: PlannedUpload, id: int, name: string): (sp: StoragePath)
    ensures sp.slot == p.slot && sp.id == id && sp.name == name && sp.fileName == p.file.name
  {
    StoragePath(p.slot, id, name, p.file.name)
  }

  // ---------------------------------------------------------------------
  // Messages.
  // ---------------------------------------------------------------------

  /** PostgreSQL's SQLSTATE for a unique-key violation. */
  const UniqueViolation := "23505"

  /** Why a submission failed. */
  datatype Problem =
    | Duplicate(field: string)          // a unique key already taken
    | InsertRejected(message: string)   // any other database error on insert
    | NoRecord                          // the insert answered no row
    | UploadRejected(column: string)    // a file upload failed
    | PathsRejected(message: string)    // the path update failed
    | CleanupFailed                     // the record of a failed submission could not be deleted

  /** The text the user is shown for each failure. */
  function Describe(p: Problem): string {
    match p
    case Duplicate(field) =>
      "O valor " + field + " já está cadastrado em nosso sistema. Por favor, verifique os dados ou entre em contato com o suporte."
    case InsertRejected(message) => "Falha ao salvar o registro no banco de dados: " + message
    case NoRecord => "Não foi possível criar o registro no banco de dados após a inserção."
    case UploadRejected(column) => "Falha no upload do documento " + column + ". O envio foi cancelado."
    case PathsRejected(message) => "Falha ao salvar os caminhos dos arquivos: " + message
    case CleanupFailed => "Ocorreu um erro e a limpeza automática falhou. Por favor, contate o suporte."
  }

  /** Which value a unique violation is blamed on, read off the database's
      message: an e-mail constraint first, then a council-number one. */
  function DuplicateHint(message: string): string {
    if Contains(Lower(message), "email") then "de e-mail"
    else if Contains(Lower(message), "conselho") then "de número do conselho"
    else "fornecido"
  }

  /** The hint does not depend on the case of the database's message. */
  lemma DuplicateHintIgnoresCase(message: string)
    ensures DuplicateHint(Lower(message)) == DuplicateHint(message)
  {
    LowerIdempotent(message);
  }

  /** How a failed insert is reported: a unique violation names the value
      that clashed, any other error passes the database's message on. */
  function InsertProblem(code: string, message: string): Problem {
    if code == UniqueViolation then Duplicate(DuplicateHint(message)) else InsertRejected(message)
  }

  // ---------------------------------------------------------------------
  // The submission as a function of the store's answers.
  // ---------------------------------------------------------------------

  /** The store answers every upload the queue can ask for, and there is a
      generated name for each. */
  predicate Covers(f: FormData, store: StoreScript, names: seq<string>) {
    |UploadPlan(f)| <= |names| && |UploadPlan(f)| <= |store.uploads|
  }

  /** How many uploads among the first `n` succeed before the first failure. */
  function FirstFailure(replies: seq<UploadReply>, n: nat): (k: nat)
    requires n <= |replies|
    ensures k <= n
    ensures forall j :: 0 <= j < k ==> replies[j].Stored?
    ensures k < n ==> replies[k].UploadFailed?
  {
    if n == 0 then 0
    else
      var k := FirstFailure(replies, n - 1);
      if k < n - 1 || replies[n - 1].UploadFailed? then k else n
  }

  /** `FirstFailure` is the only count with its defining properties. */
  lemma {:induction false} FirstFailureIs(replies: seq<UploadReply>, n: nat, k: nat)
    requires k <= n <= |replies|
    requires forall j :: 0 <= j < k ==> replies[j].Stored?
    requires k < n ==> replies[k].UploadFailed?
    ensures FirstFailure(replies, n) == k
  {
    if k < n {
      FirstFailureIs(replies, n - 1, k);
    } else if n > 0 {
      FirstFailureIs(replies, n - 1, n - 1);
    }
  }

  /** The storage path of every queued file, each with its generated name. */
  function QueuePaths(plan: seq<PlannedUpload>, id: int, names: seq<string>): (ps: seq<StoragePath>)
    requires |plan| <= |names|
    ensures |ps| == |plan|
    ensures forall j :: 0 <= j < |plan| ==>
      ps[j].slot == plan[j].slot && ps[j].id == id && ps[j].name == names[j]
      && ps[j].fileName == plan[j].file.name
  {
    seq(|plan|, j requires 0 <= j < |plan| => FilePath(plan[j], id, names[j]))
  }

  /** The upload calls for the first `k` queued files. */
  function Puts(plan: seq<PlannedUpload>, paths: seq<StoragePath>, k: nat): (cs: seq<StoreCall>)
    requires k <= |plan| && k <= |paths|
    ensures |cs| == k
  {
    if k == 0 then [] else Puts(plan, paths, k - 1) + [PutFile(paths[k - 1], plan[k - 1].file)]
  }

  /** The column-to-path update after the first `k` uploads succeeded. */
  function PathColumns(plan: seq<PlannedUpload>, replies: seq<UploadReply>, k: nat): map<string, string>
    requires k <= |plan| && k <= |replies|
    requires forall j :: 0 <= j < k ==> replies[j].Stored?
  {
    if k == 0 then map[]
    else PathColumns(plan, replies, k - 1)[Column(plan[k - 1].slot) := replies[k - 1].path]
  }

  /** The clean-up after a failure: remove the confirmed files if there are
      any, delete the record if an id was obtained (an id of 0 counts as
      none), and report the clean-up's own failure over the original error.
      The trace holds the clean-up's calls only. */
  function Rollback(error: Problem, ledger: seq<StoragePath>, submissionId: Option<int>, store: StoreScript): Run {
    var removal := if |ledger| > 0 then [RemoveFiles(ledger)] else [];
    if submissionId.Some? && submissionId.value != 0 then
      Run(Failure(if store.delete.Error? then CleanupFailed else error), removal + [DeleteRow(submissionId.value)])
    else Run(Failure(error), removal)
  }

  /** Where a phase left off: the calls it made, its error if it threw one,
      and the ledger of confirmed uploads. */
  datatype Progress = Progress(calls: seq<StoreCall>, error: Option<Problem>, ledger: seq<StoragePath>)

  /** Uploads of the queue `plan` to `paths` and the path update, after the
      record got id `id`. */
  function Transfer(plan: seq<PlannedUpload>, paths: seq<StoragePath>, store: StoreScript, id: int): Progress
    requires |plan| == |paths| <= |store.uploads|
  {
    var k := FirstFailure(store.uploads, |plan|);
    if k < |plan| then
      Progress(Puts(plan, paths, k + 1), Some(UploadRejected(Column(plan[k].slot))), paths[..k])
    else
      var columns := PathColumns(plan, store.uploads, k);
      if columns == map[] then Progress(Puts(plan, paths, k), None, paths)
      else
        Progress(Puts(plan, paths, k) + [UpdatePaths(id, columns)],
                 if store.update.Error? then Some(PathsRejected(store.update.message)) else None,
                 paths)
  }

  /** The end of a submission: success, or the clean-up after the error. */
  function Settle(done: seq<StoreCall>, p: Progress, submissionId: Option<int>, store: StoreScript): Run {
    match p.error
    case None => Run(Success, done + p.calls)
    case Some(e) =>
      var rb := Rollback(e, p.ledger, submissionId, store);
      Run(rb.outcome, done + p.calls + rb.trace)
  }

  /** The submission of an accepted form against the store's answers. */
  function Saga(f: FormData, store: StoreScript, names: seq<string>): Run
    requires Covers(f, store, names)
  {
    var insert := [InsertRow(RowOf(f))];
    match store.insert
    case InsertFailed(code, message) => Settle(insert, Progress([], Some(InsertProblem(code, message)), []), None, store)
    case NoRow => Settle(insert, Progress([], Some(NoRecord), []), None, store)
    case Inserted(id) =>
      var plan := UploadPlan(f);
      Settle(insert, Transfer(plan, QueuePaths(plan, id, names), store, id), Some(id), store)
  }

  /** The upload loop: one file at a time, each path entering the ledger
      once the storage confirms it, stopping at the first failure. Returns
      how many uploads were confirmed. */
  method UploadQueue(plan: seq<PlannedUpload>, paths: seq<StoragePath>, replies: seq<UploadReply>)
    returns (k: nat, calls: seq<StoreCall>, ledger: seq<StoragePath>, columns: map<string, string>)
    requires |plan| == |paths| <= |replies|
    ensures k == FirstFailure(replies, |plan|)
    ensures ledger == paths[..k]
    ensures calls == Puts(plan, paths, if k < |plan| then k + 1 else k)
    ensures k == |plan| ==> columns == PathColumns(plan, replies, k)
  {
    calls, ledger, columns := [], [], map[];
    k := 0;
    while k < |plan|
      invariant k <= |plan|
      invariant forall j :: 0 <= j < k ==> replies[j].Stored?
      invariant ledger == paths[..k]
      invariant columns == PathColumns(plan, replies, k)
      invariant calls == Puts(plan, paths, k)
    {
      calls := calls + [PutFile(paths[k], plan[k].file)];
      if replies[k].UploadFailed? {
        break;
      }
      ledger := ledger + [paths[k]];
      columns := columns[Column(plan[k].slot) := replies[k].path];
      k := k + 1;
    }
    FirstFailureIs(replies, |plan|, k);
  }

  /** The uploads, then the path update if any file was stored. */
  method TransferFiles(plan: seq<PlannedUpload>, paths: seq<StoragePath>, store: StoreScript, id: int)
    returns (p: Progress)
    requires |plan| == |paths| <= |store.uploads|
    ensures p == Transfer(plan, paths, store, id)
  {
    var k, calls, ledger, columns := UploadQueue(plan, paths, store.uploads);
    if k < |plan| {
      p := Progress(calls, Some(UploadRejected(Column(plan[k].slot))), ledger);
    } else if columns == map[] {
      p := Progress(calls, None, ledger);
    } else {
      calls := calls + [UpdatePaths(id, columns)];
      match store.update {
        case Ok => p := Progress(calls, None, ledger);
        case Error(message) => p := Progress(calls, Some(PathsRejected(message)), ledger);
      }
    }
  }

  /** The catch block: remove the ledger, delete the record, pick the message. */
  method CleanUp(error: Problem, ledger: seq<StoragePath>, submissionId: Option<int>, store: StoreScript)
    returns (outcome: Outcome, calls: seq<StoreCall>)
    ensures Run(outcome, calls) == Rollback(error, ledger, submissionId, store)
  {
    calls := [];
    if |ledger| > 0 {
      calls := calls + [RemoveFiles(ledger)];
    }
    if submissionId.Some? && submissionId.value != 0 {
      calls := calls + [DeleteRow(submissionId.value)];
      if store.delete.Error? {
        outcome := Failure(CleanupFailed);
      } else {
        outcome := Failure(error);
      }
    } else {
      outcome := Failure(error);
    }
  }

  /** The submission, step by step: insert, transfer the files, and clean up
      after the first failure. */
  method RunSaga(f: FormData, store: StoreScript, names: seq<string>) returns (outcome: Outcome, trace: seq<StoreCall>)
    requires Covers(f, store, names)
    ensures Run(outcome, trace) == Saga(f, store, names)
  {
    trace := [InsertRow(RowOf(f))];
    var submissionId: Option<int> := None;
    var p: Progress;
    match store.insert {
      case InsertFailed(code, message) =>
        p := Progress([], Some(InsertProblem(code, message)), []);
      case NoRow =>
        p := Progress([], Some(NoRecord), []);
      case Inserted(id) =>
        submissionId := Some(id);
        var plan := UploadPlan(f);
        p := TransferFiles(plan, QueuePaths(plan, id, names), store, id);
    }
    trace := trace + p.calls;
    if p.error.None? {
      outcome := Success;
    } else {
      var cleanup;
      outcome, cleanup := CleanUp(p.error.value, p.ledger, submissionId, store);
      trace := trace + cleanup;
    }
  }

  // ---------------------------------------------------------------------
  // What the trace shows.
  // ---------------------------------------------------------------------

  /** The paths the trace uploads to, in order. */
  function PutPaths(trace: seq<StoreCall>): seq<StoragePath> {
    if trace == [] then []
    else (if trace[0].PutFile? then [trace[0].path] else []) + PutPaths(trace[1..])
  }

  /** Among the uploads to `puts`, the ones the storage confirmed; the j-th
      upload is answered by `replies[j]`. */
  function Confirmed(puts: seq<StoragePath>, replies: seq<UploadReply>): seq<StoragePath> {
    if puts == [] then []
    else
      var j := |puts| - 1;
      Confirmed(puts[..j], replies) + (if j < |replies| && replies[j].Stored? then [puts[j]] else [])
  }

  lemma {:induction false} PutPathsAppend(a: seq<StoreCall>, b: seq<StoreCall>)
    ensures PutPaths(a + b) == PutPaths(a) + PutPaths(b)
  {
    if a != [] {
      assert (a + b)[0] == a[0];
      assert (a + b)[1..] == a[1..] + b;
      PutPathsAppend(a[1..], b);
    } else {
      assert a + b == b;
    }
  }

  lemma {:induction false} PutsShape(plan: seq<PlannedUpload>, paths: seq<StoragePath>, k: nat)
    requires k <= |plan| && k <= |paths|
    ensures PutPaths(Puts(plan, paths, k)) == paths[..k]
    ensures forall c :: c in Puts(plan, paths, k) ==> c.PutFile?
  {
    if k > 0 {
      PutsShape(plan, paths, k - 1);
      PutPathsAppend(Puts(plan, paths, k - 1), [PutFile(paths[k - 1], plan[k - 1].file)]);
      assert paths[..k] == paths[..k - 1] + [paths[k - 1]];
    }
  }

  lemma {:induction false} ConfirmedPrefix(paths: seq<StoragePath>, replies: seq<UploadReply>, n: nat)
    requires n <= |paths| && n <= |replies|
    requires forall j :: 0 <= j < n ==> replies[j].Stored?
    ensures Confirmed(paths[..n], replies) == paths[..n]
  {
    if n > 0 {
      ConfirmedPrefix(paths, replies, n - 1);
      assert paths[..n][..n - 1] == paths[..n - 1];
    }
  }

  lemma {:induction false} PathColumnsEmpty(plan: seq<PlannedUpload>, replies: seq<UploadReply>, k: nat)
    requires k <= |plan| && k <= |replies|
    requires forall j :: 0 <= j < k ==> replies[j].Stored?
    ensures PathColumns(plan, replies, k) == map[] <==> k == 0
  {
    if k > 0 {
      assert Column(plan[k - 1].slot) in PathColumns(plan, replies, k);
    }
  }

  /** What the transfer phase leaves: it tried the queue's first uploads up
      to the first failure, its ledger is what the storage confirmed among
      them, its calls are uploads and at most one path update, and it fails
      exactly when an upload or the update does. */
  lemma TransferShape(plan: seq<PlannedUpload>, paths: seq<StoragePath>, store: StoreScript, id: int)
    requires |plan| == |paths| <= |store.uploads|
    ensures var p := Transfer(plan, paths, store, id);
      var k := FirstFailure(store.uploads, |plan|);
      PutPaths(p.calls) == paths[..if k < |plan| then k + 1 else k]
      && Confirmed(PutPaths(p.calls), store.uploads) == p.ledger
      && (forall c :: c in p.calls ==> c.PutFile? || c.UpdatePaths?)
      && (p.error.None? <==> k == |plan| && (|plan| == 0 || store.update.Ok?))
      && (p.error.Some? ==> p.error.value != CleanupFailed)
  {
    var k := FirstFailure(store.uploads, |plan|);
    if k < |plan| {
      TransferStopsAtFailure(plan, paths, store, id, k);
    } else {
      TransferCompletes(plan, paths, store, id);
    }
  }

  lemma TransferStopsAtFailure(plan: seq<PlannedUpload>, paths: seq<StoragePath>, store: StoreScript, id: int, k: nat)
    requires |plan| == |paths| <= |store.uploads|
    requires k == FirstFailure(store.uploads, |plan|) < |plan|
    ensures var p := Transfer(plan, paths, store, id);
      PutPaths(p.calls) == paths[..k + 1]
      && Confirmed(paths[..k + 1], store.uploads) == p.ledger
      && (forall c :: c in p.calls ==> c.PutFile?)
      && p.error == Some(UploadRejected(Column(plan[k].slot)))
  {
    PutsShape(plan, paths, k + 1);
    ConfirmedPrefix(paths, store.uploads, k);
    assert paths[..k + 1][..k] == paths[..k];
  }

  lemma TransferCompletes(plan: seq<PlannedUpload>, paths: seq<StoragePath>, store: StoreScript, id: int)
    requires |plan| == |paths| <= |store.uploads|
    requires FirstFailure(store.uploads, |plan|) == |plan|
    ensures var p := Transfer(plan, paths, store, id);
      PutPaths(p.calls) == paths
      && Confirmed(paths, store.uploads) == p.ledger == paths
      && (forall c :: c in p.calls ==> c.PutFile? || c.UpdatePaths?)
      && (p.error.None? <==> |plan| == 0 || store.update.Ok?)
      && (p.error.Some? ==> p.error == Some(PathsRejected(store.update.message)))
  {
    var k := |plan|;
    PutsShape(plan, paths, k);
    ConfirmedPrefix(paths, store.uploads, k);
    assert paths[..k] == paths;
    PathColumnsEmpty(plan, store.uploads, k);
    PutPathsAppend(Puts(plan, paths, k), [UpdatePaths(id, PathColumns(plan, store.uploads, k))]);
  }

  /** The clean-up's calls: a removal of exactly the ledger when it is not
      empty, then a delete of exactly the obtained id when it is not 0. */
  lemma RollbackShape(error: Problem, ledger: seq<StoragePath>, submissionId: Option<int>, store: StoreScript)
    ensures var rb := Rollback(error, ledger, submissionId, store);
      PutPaths(rb.trace) == []
      && (forall c :: c in rb.trace ==> c.RemoveFiles? || c.DeleteRow?)
      && (forall ps :: RemoveFiles(ps) in rb.trace <==> |ledger| > 0 && ps == ledger)
      && (forall x :: DeleteRow(x) in rb.trace <==> submissionId == Some(x) && x != 0)
  {
    var removal := if |ledger| > 0 then [RemoveFiles(ledger)] else [];
    PutPathsAppend(removal, [DeleteRow(if submissionId.Some? then submissionId.value else 0)]);
  }

  /** The files removed after a failure are exactly the uploads the storage
      confirmed, in order; they are removed (once) exactly when the
      submission fails with at least one file stored. */
  lemma RollbackRemovesConfirmed(f: FormData, store: StoreScript, names: seq<string>)
    requires Covers(f, store, names)
    ensures var r := Saga(f, store, names);
      var confirmed := Confirmed(PutPaths(r.trace), store.uploads);
      (forall ps :: RemoveFiles(ps) in r.trace ==> ps == confirmed)
      && ((exists ps :: RemoveFiles(ps) in r.trace) <==> r.outcome.Failure? && confirmed != [])
  {
    var p, sid := SagaSteps(f, store, names);
    SettleRemovesConfirmed(RowOf(f), p, sid, store);
  }

  lemma SettleRemovesConfirmed(row: Row, p: Progress, sid: Option<int>, store: StoreScript)
    requires Confirmed(PutPaths(p.calls), store.uploads) == p.ledger
    requires forall c :: c in p.calls ==> c.PutFile? || c.UpdatePaths?
    ensures var r := Settle([InsertRow(row)], p, sid, store);
      var confirmed := Confirmed(PutPaths(r.trace), store.uploads);
      (forall ps :: RemoveFiles(ps) in r.trace ==> ps == confirmed)
      && ((exists ps :: RemoveFiles(ps) in r.trace) <==> r.outcome.Failure? && confirmed != [])
  {
    var done := [InsertRow(row)];
    PutPathsAppend(done, p.calls);
    assert PutPaths(done) == [];
    if p.error.Some? {
      FailedSettleRemoves(done, p, sid, store);
    } else {
      var r := Settle(done, p, sid, store);
      assert r.trace == done + p.calls;
      forall ps ensures RemoveFiles(ps) !in r.trace {
        assert RemoveFiles(ps) !in p.calls;
      }
    }
  }

  lemma FailedSettleRemoves(done: seq<StoreCall>, p: Progress, sid: Option<int>, store: StoreScript)
    requires p.error.Some?
    requires PutPaths(done + p.calls) == PutPaths(p.calls)
    requires forall c :: c in done ==> c.InsertRow?
    requires forall c :: c in p.calls ==> c.PutFile? || c.UpdatePaths?
    ensures var r := Settle(done, p, sid, store);
      (forall ps :: RemoveFiles(ps) in r.trace <==> |p.ledger| > 0 && ps == p.ledger)
      && PutPaths(r.trace) == PutPaths(p.calls)
      && r.outcome.Failure?
  {
    var rb := Rollback(p.error.value, p.ledger, sid, store);
    RollbackShape(p.error.value, p.ledger, sid, store);
    PutPathsAppend(done + p.calls, rb.trace);
  }

  /** The phase after the insert and the id the clean-up sees, for any run. */
  lemma SagaSteps(f: FormData, store: StoreScript, names: seq<string>) returns (p: Progress, sid: Option<int>)
    requires Covers(f, store, names)
    ensures Saga(f, store, names) == Settle([InsertRow(RowOf(f))], p, sid, store)
    ensures Confirmed(PutPaths(p.calls), store.uploads) == p.ledger
    ensures forall c :: c in p.calls ==> c.PutFile? || c.UpdatePaths?
    ensures p.error.Some? ==> p.error.value != CleanupFailed
    ensures store.insert.Inserted? <==> sid.Some?
    ensures sid.Some? ==> sid.value == store.insert.id
    ensures !store.insert.Inserted? ==> p.calls == [] && p.ledger == [] && p.error.Some?
    ensures store.insert.Inserted? ==> p == Transfer(UploadPlan(f), QueuePaths(UploadPlan(f), store.insert.id, names), store, store.insert.id)
  {
    match store.insert
    case InsertFailed(code, message) =>
      p, sid := Progress([], Some(InsertProblem(code, message)), []), None;
    case NoRow =>
      p, sid := Progress([], Some(NoRecord), []), None;
    case Inserted(id) =>
      var plan := UploadPlan(f);
      p, sid := Transfer(plan, QueuePaths(plan, id, names), store, id), Some(id);
      TransferShape(plan, QueuePaths(plan, id, names), store, id);
  }

  /** How the clean-up decides the record delete and the message. */
  lemma SettleDeletes(row: Row, p: Progress, sid: Option<int>, store: StoreScript)
    requires forall c :: c in p.calls ==> c.PutFile? || c.UpdatePaths?
    requires p.error.Some? ==> p.error.value != CleanupFailed
    ensures var r := Settle([InsertRow(row)], p, sid, store);
      (forall x :: DeleteRow(x) in r.trace <==> p.error.Some? && sid == Some(x) && x != 0)
      && (r.outcome == Success <==> p.error.None?)
      && (r.outcome == Failure(CleanupFailed) <==> (exists x :: DeleteRow(x) in r.trace) && store.delete.Error?)
      && (r.outcome.Failure? && r.outcome != Failure(CleanupFailed) ==> r.outcome == Failure(p.error.value))
  {
    var done := [InsertRow(row)];
    var r := Settle(done, p, sid, store);
    if p.error.Some? {
      RollbackShape(p.error.value, p.ledger, sid, store);
      var rb := Rollback(p.error.value, p.ledger, sid, store);
      assert r.trace == done + p.calls + rb.trace;
      forall x ensures DeleteRow(x) !in done + p.calls {
        assert DeleteRow(x) !in p.calls;
      }
      if sid.Some? && sid.value != 0 {
        assert DeleteRow(sid.value) in rb.trace;
      }
    } else {
      assert r.trace == done + p.calls;
      forall x ensures DeleteRow(x) !in r.trace {
        assert DeleteRow(x) !in p.calls;
      }
    }
  }

  /** The record is deleted exactly when the submission fails after an id
      was obtained, and only that id; an id of 0 is never deleted. */
  lemma DeleteIffIdObtained(f: FormData, store: StoreScript, names: seq<string>)
    requires Covers(f, store, names)
    ensures var r := Saga(f, store, names);
      forall x :: DeleteRow(x) in r.trace <==> r.outcome.Failure? && store.insert == Inserted(x) && x != 0
  {
    var p, sid := SagaSteps(f, store, names);
    SettleDeletes(RowOf(f), p, sid, store);
  }

  /** The user is told to contact support exactly when the record delete
      was attempted and failed; otherwise a failure reports its own cause. */
  lemma CriticalIffDeleteFails(f: FormData, store: StoreScript, names: seq<string>)
    requires Covers(f, store, names)
    ensures var r := Saga(f, store, names);
      r.outcome == Failure(CleanupFailed) <==> (exists x :: DeleteRow(x) in r.trace) && store.delete.Error?
    ensures var r := Saga(f, store, names);
      var plan := UploadPlan(f);
      var k := FirstFailure(store.uploads, |plan|);
      store.insert.Inserted? && r.outcome.Failure? && r.outcome != Failure(CleanupFailed) ==>
        r.outcome == Failure(if k < |plan| then UploadRejected(Column(plan[k].slot))
                             else PathsRejected(store.update.message))
  {
    var p, sid := SagaSteps(f, store, names);
    SettleDeletes(RowOf(f), p, sid, store);
    if store.insert.Inserted? {
      var plan := UploadPlan(f);
      var paths := QueuePaths(plan, store.insert.id, names);
      if FirstFailure(store.uploads, |plan|) < |plan| {
        TransferStopsAtFailure(plan, paths, store, store.insert.id, FirstFailure(store.uploads, |plan|));
      } else {
        TransferCompletes(plan, paths, store, store.insert.id);
      }
    }
  }

  /** A failed insert ends the submission at once: nothing is uploaded,
      removed or deleted, and the insert's own failure is reported. */
  lemma InsertFailureStops(f: FormData, store: StoreScript, names: seq<string>)
    requires Covers(f, store, names) && !store.insert.Inserted?
    ensures Saga(f, store, names) == Run(
      Failure(if store.insert.NoRow? then NoRecord else InsertProblem(store.insert.code, store.insert.message)),
      [InsertRow(RowOf(f))])
  {
  }

  /** The answer to the file removal never changes the submission. */
  lemma RemoveReplyIgnored(f: FormData, store: StoreScript, names: seq<string>, reply: Reply)
    requires Covers(f, store, names)
    ensures Saga(f, store.(remove := reply), names) == Saga(f, store, names)
  {
    var p, sid := SagaSteps(f, store, names);
    var q, tid := SagaSteps(f, store.(remove := reply), names);
    assert p == q && sid == tid;
  }

  /** A submission succeeds exactly when the insert returns a record, every
      queued upload is confirmed, and the path update (made only when
      something was uploaded) succeeds. */
  lemma SuccessIff(f: FormData, store: StoreScript, names: seq<string>)
    requires Covers(f, store, names)
    ensures var plan := UploadPlan(f);
      Saga(f, store, names).outcome == Success <==>
        store.insert.Inserted?
        && (forall j :: 0 <= j < |plan| ==> store.uploads[j].Stored?)
        && (|plan| == 0 || store.update.Ok?)
  {
    var plan := UploadPlan(f);
    var p, sid := SagaSteps(f, store, names);
    SettleDeletes(RowOf(f), p, sid, store);
    if store.insert.Inserted? {
      var k := FirstFailure(store.uploads, |plan|);
      if k < |plan| {
        assert !store.uploads[k].Stored?;
      } else {
        TransferCompletes(plan, QueuePaths(plan, store.insert.id, names), store, store.insert.id);
      }
    }
  }

  /** The clean-up uploads nothing and updates nothing. */
  lemma SettleKeepsTransfer(row: Row, p: Progress, sid: Option<int>, store: StoreScript)
    ensures var r := Settle([InsertRow(row)], p, sid, store);
      PutPaths(r.trace) == PutPaths(p.calls)
      && forall x, m :: UpdatePaths(x, m) in r.trace <==> UpdatePaths(x, m) in p.calls
  {
    var done := [InsertRow(row)];
    PutPathsAppend(done, p.calls);
    assert PutPaths(done) == [];
    if p.error.Some? {
      RollbackShape(p.error.value, p.ledger, sid, store);
      var rb := Rollback(p.error.value, p.ledger, sid, store);
      PutPathsAppend(done + p.calls, rb.trace);
    }
  }

  /** Uploads happen only after a record was created, in queue order, up to
      and including the first one that fails and none after it. */
  lemma UploadsFollowQueue(f: FormData, store: StoreScript, names: seq<string>)
    requires Covers(f, store, names)
    ensures var r := Saga(f, store, names);
      var plan := UploadPlan(f);
      var k := FirstFailure(store.uploads, |plan|);
      (store.insert.Inserted? ==>
        PutPaths(r.trace) == QueuePaths(plan, store.insert.id, names)[..if k < |plan| then k + 1 else k])
      && (!store.insert.Inserted? ==> PutPaths(r.trace) == [])
  {
    var p, sid := SagaSteps(f, store, names);
    SettleKeepsTransfer(RowOf(f), p, sid, store);
    if store.insert.Inserted? {
      var plan := UploadPlan(f);
      TransferShape(plan, QueuePaths(plan, store.insert.id, names), store, store.insert.id);
    }
  }

  /** Each input writes its own column. */
  lemma ColumnInjective(s: FileField, u: FileField)
    requires Column(s) == Column(u)
    ensures s == u
  {
    assert |Column(s)| == |Column(u)|;
  }

  /** After `k` confirmed uploads of distinct inputs, the update names each
      of their columns with the path the storage reported. */
  lemma {:induction false} PathColumnsAt(plan: seq<PlannedUpload>, replies: seq<UploadReply>, k: nat)
    requires k <= |plan| && k <= |replies|
    requires forall j :: 0 <= j < k ==> replies[j].Stored?
    requires forall i, j :: 0 <= i < j < k ==> plan[i].slot != plan[j].slot
    ensures forall j :: 0 <= j < k ==>
      Column(plan[j].slot) in PathColumns(plan, replies, k)
      && PathColumns(plan, replies, k)[Column(plan[j].slot)] == replies[j].path
  {
    if k > 0 {
      PathColumnsAt(plan, replies, k - 1);
      var m := PathColumns(plan, replies, k - 1);
      var c := Column(plan[k - 1].slot);
      forall j | 0 <= j < k - 1 ensures Column(plan[j].slot) != c {
        if Column(plan[j].slot) == c {
          ColumnInjective(plan[j].slot, plan[k - 1].slot);
        }
      }
    }
  }

  /** The update names no column but those of the first `k` uploads. */
  lemma {:induction false} PathColumnsOnly(plan: seq<PlannedUpload>, replies: seq<UploadReply>, k: nat)
    requires k <= |plan| && k <= |replies|
    requires forall j :: 0 <= j < k ==> replies[j].Stored?
    ensures forall c :: c in PathColumns(plan, replies, k) ==> exists j :: 0 <= j < k && c == Column(plan[j].slot)
  {
    if k > 0 {
      PathColumnsOnly(plan, replies, k - 1);
    }
  }

  /** The path update is made once every queued file is stored and there was
      at least one, on the new record, naming every uploaded file's column
      with the path the storage reported for it and no other column. */
  lemma PatchNamesEveryUpload(f: FormData, store: StoreScript, names: seq<string>)
    requires Covers(f, store, names)
    ensures var r := Saga(f, store, names);
      var plan := UploadPlan(f);
      forall x, m :: UpdatePaths(x, m) in r.trace ==>
        store.insert == Inserted(x) && |plan| > 0
        && (forall j :: 0 <= j < |plan| ==>
              store.uploads[j].Stored? && Column(plan[j].slot) in m && m[Column(plan[j].slot)] == store.uploads[j].path)
        && (forall c :: c in m ==> exists j :: 0 <= j < |plan| && c == Column(plan[j].slot))
  {
    var plan := UploadPlan(f);
    var p, sid := SagaSteps(f, store, names);
    SettleKeepsTransfer(RowOf(f), p, sid, store);
    if store.insert.Inserted? {
      var id := store.insert.id;
      var paths := QueuePaths(plan, id, names);
      var k := FirstFailure(store.uploads, |plan|);
      if k < |plan| {
        TransferStopsAtFailure(plan, paths, store, id, k);
      } else {
        UploadPlanFaithful(f);
        PathColumnsAt(plan, store.uploads, k);
        PathColumnsOnly(plan, store.uploads, k);
        PathColumnsEmpty(plan, store.uploads, k);
        forall x, m | UpdatePaths(x, m) in p.calls ensures x == id && m == PathColumns(plan, store.uploads, k) {
          assert UpdatePaths(x, m) !in Puts(plan, paths, k) by { PutsShape(plan, paths, k); }
        }
      }
    }
  }

  /** A first upload that fails leaves nothing to remove: the record is
      deleted and the user sees the upload failure, or the clean-up failure
      when the delete fails. */
  lemma FirstUploadFails(f: FormData, store: StoreScript, names: seq<string>, id: int)
    requires Covers(f, store, names)
    requires store.insert == Inserted(id) && id != 0
    requires |UploadPlan(f)| > 0 && store.uploads[0].UploadFailed?
    ensures var plan := UploadPlan(f);
      var paths := QueuePaths(plan, id, names);
      Saga(f, store, names) == Run(
        Failure(if store.delete.Error? then CleanupFailed else UploadRejected(Column(plan[0].slot))),
        [InsertRow(RowOf(f)), PutFile(paths[0], plan[0].file), DeleteRow(id)])
  {
    var plan := UploadPlan(f);
    var paths := QueuePaths(plan, id, names);
    var p, sid := SagaSteps(f, store, names);
    assert p == Progress([PutFile(paths[0], plan[0].file)], Some(UploadRejected(Column(plan[0].slot))), []) by {
      FirstFailureIs(store.uploads, |plan|, 0);
      assert Puts(plan, paths, 1) == [PutFile(paths[0], plan[0].file)];
    }
  }

  /** With three files queued and the third upload failing, the two
      confirmed files are removed, in upload order, before the record is
      deleted. */
  lemma ThirdUploadFails(f: FormData, store: StoreScript, names: seq<string>, id: int)
    requires Covers(f, store, names)
    requires store.insert == Inserted(id) && id != 0 && |UploadPlan(f)| == 3
    requires store.uploads[0].Stored? && store.uploads[1].Stored? && store.uploads[2].UploadFailed?
    ensures var plan := UploadPlan(f);
      var paths := QueuePaths(plan, id, names);
      Saga(f, store, names) == Run(
        Failure(if store.delete.Error? then CleanupFailed else UploadRejected(Column(plan[2].slot))),
        [InsertRow(RowOf(f)), PutFile(paths[0], plan[0].file), PutFile(paths[1], plan[1].file),
         PutFile(paths[2], plan[2].file), RemoveFiles([paths[0], paths[1]]), DeleteRow(id)])
  {
    var plan := UploadPlan(f);
    var paths := QueuePaths(plan, id, names);
    var p, sid := SagaSteps(f, store, names);
    var puts := [PutFile(paths[0], plan[0].file), PutFile(paths[1], plan[1].file), PutFile(paths[2], plan[2].file)];
    assert p == Progress(puts, Some(UploadRejected(Column(plan[2].slot))), [paths[0], paths[1]]) by {
      FirstFailureIs(store.uploads, 3, 2);
      assert paths[..2] == [paths[0], paths[1]];
      assert Puts(plan, paths, 1) == puts[..1];
      assert Puts(plan, paths, 2) == puts[..2];
      assert Puts(plan, paths, 3) == puts;
    }
  }
}
