/**
 * Backup documents (src/components/Backup/BackupManager.tsx): building a
 * snapshot of the five stores, labelling its size, the list of recent
 * backups, validating a document read back from a file, and the exports of
 * a single collection.
 *
 * JSON text is not modelled. A document read back is represented by `Doc`:
 * just the properties restore looks at, each reduced to what the checks
 * can tell apart (missing, falsy, some other truthy value, or a list).
 */
module Backup {
  import opened Wrappers
  import opened Text
  import opened Types

  const Version := "1.0.0"

  /** `estatisticas`: one count per collection. */
  datatype Stats = Stats(
    totalProdutos: nat,
    totalVendas: nat,
    totalTiposDespesa: nat,
    totalDespesas: nat,
    totalHistoricoEstoque: nat)

  /** A backup made on demand carries no `tipo`; the scheduler's carries `tipo: 'automatico'`. */
  datatype BackupKind = Manual | Automatic

  /** `BackupData`: the document written to a backup file or to the emergency list. */
  datatype Snapshot = Snapshot(
    versao: string,
    dataBackup: Timestamp,
    tipo: BackupKind,
    dados: Collections,
    estatisticas: Stats)

  /** `gerarDadosBackup` (and the document `createAutoBackup` builds): the stores verbatim and their sizes. */
  function BuildSnapshot(c: Collections, agora: Timestamp, tipo: BackupKind): (s: Snapshot)
    ensures s.versao == Version && s.dataBackup == agora && s.tipo == tipo && s.dados == c
    ensures s.estatisticas.totalProdutos == |c.produtos| && s.estatisticas.totalVendas == |c.vendas|
    ensures s.estatisticas.totalTiposDespesa == |c.tiposDespesa| && s.estatisticas.totalDespesas == |c.despesas|
    ensures s.estatisticas.totalHistoricoEstoque == |c.historicoEstoque|
  {
    Snapshot(Version, agora, tipo, c,
             Stats(|c.produtos|, |c.vendas|, |c.tiposDespesa|, |c.despesas|, |c.historicoEstoque|))
  }

  datatype SizeUnit = B | KB | MB

  /** A size as shown: a magnitude in a unit. */
  datatype Size = Size(magnitude: real, unit: SizeUnit)

  /**
   * `calcularTamanhoBackup` on a document of `bytes` bytes: bytes below 1024,
   * kilobytes below 1024 * 1024, megabytes otherwise. The one-decimal rounding
   * of `toFixed(1)` is not modelled.
   */
  function SizeLabel(bytes: nat): (r: Size)
    ensures r.unit == B <==> bytes < 1024
    ensures r.unit == KB <==> 1024 <= bytes < 1024 * 1024
    ensures r.unit == MB <==> 1024 * 1024 <= bytes
    ensures r.unit == B ==> r.magnitude == bytes as real
    ensures r.unit == KB ==> r.magnitude * 1024.0 == bytes as real && 1.0 <= r.magnitude < 1024.0
    ensures r.unit == MB ==> r.magnitude * (1024.0 * 1024.0) == bytes as real && 1.0 <= r.magnitude
  {
    if bytes < 1024 then Size(bytes as real, B)
    else if bytes < 1024 * 1024 then Size(bytes as real / 1024.0, KB)
    else Size(bytes as real / (1024.0 * 1024.0), MB)
  }

  /** An entry of the list of recent backups (`historicosBackup`). */
  datatype HistoryEntry = HistoryEntry(id: Id, nome: string, data: Timestamp, tamanho: Size)

  const MaxHistory := 10

  /**
   * `[novo, ...historicosBackup.slice(0, 9)]`: the new entry first, then the
   * nine most recent earlier ones.
   */
  function RotateHistory(hist: seq<HistoryEntry>, novo: HistoryEntry): (r: seq<HistoryEntry>)
    ensures |r| <= MaxHistory
    ensures |r| == if |hist| < MaxHistory then |hist| + 1 else MaxHistory
    ensures r[0] == novo
    ensures r[1..] == hist[..|r| - 1]
  {
    [novo] + (if |hist| < 9 then hist else hist[..9])
  }

  /** The name a manual backup file gets: `backup-produtos-<date>-<ms>.json`. */
  function BackupFileName(date: string, millis: string): (r: string)
    ensures StartsWith(r, "backup-produtos-") && EndsWith(r, ".json")
  {
    var r := "backup-produtos-" + date + "-" + millis + ".json";
    assert r[..|"backup-produtos-"|] == "backup-produtos-";
    assert r[|r| - |".json"|..] == ".json";
    r
  }

  /** What a property of the parsed document holds, as far as the restore checks can tell. */
  datatype Value<T> =
    | Undefined          // the property is not there
    | Null               // null
    | Falsy              // false, 0 or ""
    | Truthy             // any other value that is not a list
    | List(items: seq<T>)

  /**
   * `dadosBackup.dados`: absent or falsy, or a value whose five properties are
   * read. A truthy value that is not an object reads as `Dados` with every
   * property `Undefined`.
   */
  datatype DadosField =
    | NoDados
    | Dados(produtos: Value<Product>, vendas: Value<Sale>, tiposDespesa: Value<ExpenseType>,
            despesas: Value<Expense>, historicoEstoque: Value<Movement>)

  /** A parsed backup document: whether `versao` is truthy, and `dados`. */
  datatype Doc = Doc(versaoSet: bool, dados: DadosField)

  /** The document a snapshot is written as. */
  function Encode(s: Snapshot): (d: Doc)
    ensures d.versaoSet <==> s.versao != []
    ensures d.dados.Dados? && d.dados.produtos == List(s.dados.produtos) && d.dados.vendas == List(s.dados.vendas)
    ensures d.dados.Dados? && d.dados.tiposDespesa == List(s.dados.tiposDespesa)
            && d.dados.despesas == List(s.dados.despesas)
            && d.dados.historicoEstoque == List(s.dados.historicoEstoque)
  {
    Doc(s.versao != [],
        Dados(List(s.dados.produtos), List(s.dados.vendas), List(s.dados.tiposDespesa),
              List(s.dados.despesas), List(s.dados.historicoEstoque)))
  }

  /**
   * The collections handed to the restore callback. `historicoEstoque` is
   * `None` when the document's history is falsy: the callback then keeps the
   * live history.
   */
  datatype RestoreData = RestoreData(
    produtos: seq<Product>,
    vendas: seq<Sale>,
    tiposDespesa: seq<ExpenseType>,
    despesas: seq<Expense>,
    historicoEstoque: Option<seq<Movement>>)

  /** The four collections restore requires to be lists. */
  predicate ListsPresent(d: DadosField)
    requires d.Dados?
  {
    d.produtos.List? && d.vendas.List? && d.tiposDespesa.List? && d.despesas.List?
  }

  /**
   * The checks of `restaurarBackup` exactly as written: `versao` and `dados`,
   * then the four lists. `historicoEstoque` is never checked; only a null one
   * is stopped, by the throw when the confirmation text reads its length.
   */
  predicate PassesGuardAsWritten(doc: Doc) {
    doc.versaoSet && doc.dados.Dados? && ListsPresent(doc.dados) && !doc.dados.historicoEstoque.Null?
  }

  /**
   * What the live history becomes after the as-written restore: a missing
   * history defaults to `[]`, a falsy one keeps the live list, and anything
   * else truthy is stored as it is. A null one stops the restore, so the live
   * list stays.
   */
  function HistoryAfterAsWritten(live: seq<Movement>, h: Value<Movement>): (r: Value<Movement>)
    ensures h.List? ==> r == h
    ensures h.Undefined? ==> r == List([])
    ensures h.Falsy? || h.Null? ==> r == List(live)
    ensures h.Truthy? ==> r.Truthy?
  {
    match h
    case Undefined => List([])
    case Null => List(live)
    case Falsy => List(live)
    case Truthy => Truthy
    case List(_) => h
  }

  /**
   * A document whose history is a truthy non-list (say the string "x") passes
   * the as-written checks, and the live stock history stops being a list.
   */
  lemma JunkHistoryPassesGuard(live: seq<Movement>)
    ensures var doc := Doc(true, Dados(List([]), List([]), List([]), List([]), Truthy));
            PassesGuardAsWritten(doc)
            && !HistoryAfterAsWritten(live, doc.dados.historicoEstoque).List?
  {
  }

  /**
   * The validation inside `restaurarBackup`, with the history held to the same
   * standard as the other collections: lacking `dados` or `versao` is an
   * invalid backup; a collection that is not a list (including a truthy
   * non-list history) is a corrupted one; a null history is refused as the
   * source's throw refuses it. A missing history reads as `[]`.
   */
  function Validate(doc: Doc): (r: Outcome<RestoreData>)
    ensures !doc.versaoSet || doc.dados.NoDados? <==> r == Err(InvalidBackup)
    ensures r == Err(UnreadableHistory) <==>
              doc.versaoSet && doc.dados.Dados? && ListsPresent(doc.dados) && doc.dados.historicoEstoque.Null?
    ensures r.Ok? <==> PassesGuardAsWritten(doc) && !doc.dados.historicoEstoque.Truthy?
    ensures r.Ok? ==>
      && r.value.produtos == doc.dados.produtos.items && r.value.vendas == doc.dados.vendas.items
      && r.value.tiposDespesa == doc.dados.tiposDespesa.items && r.value.despesas == doc.dados.despesas.items
      && r.value.historicoEstoque == match doc.dados.historicoEstoque
                                     case Undefined => Some([])
                                     case List(h) => Some(h)
                                     case _ => None
  {
    if !doc.versaoSet || doc.dados.NoDados? then Err(InvalidBackup)
    else
      var d := doc.dados;
      if !ListsPresent(d) || d.historicoEstoque.Truthy? then Err(CorruptedBackup)
      else if d.historicoEstoque.Null? then Err(UnreadableHistory)
      else
        var h := match d.historicoEstoque
                 case Undefined => Some([])
                 case List(items) => Some(items)
                 case _ => None;
        Ok(RestoreData(d.produtos.items, d.vendas.items, d.tiposDespesa.items, d.despesas.items, h))
  }

  /** The corrected check and the as-written one agree on every document whose history is not junk. */
  lemma ValidateAgreesWithGuard(doc: Doc)
    requires !(doc.dados.Dados? && doc.dados.historicoEstoque.Truthy?)
    ensures Validate(doc).Ok? <==> PassesGuardAsWritten(doc)
  {
  }

  /** How a restore attempt ends. */
  datatype RestoreOutcome =
    | Refused(error: Error)       // an error message, nothing changes
    | Declined                    // nothing happens: no file chosen, or the confirmation was cancelled
    | Accepted(data: RestoreData) // the data goes to the restore callback

  /**
   * `restaurarBackup`: with no file chosen nothing happens; a name not ending
   * in `.json` is refused before the file is read; text that is not JSON, or a
   * document that fails validation, is refused; then the user confirms.
   */
  function RestoreFile(arquivo: Option<string>, parsed: Option<Doc>, confirmed: bool): (r: RestoreOutcome)
    ensures arquivo.None? ==> r == Declined
    ensures arquivo.Some? && !EndsWith(arquivo.value, ".json") ==> r == Refused(NotJsonFile)
    ensures r.Accepted? <==> arquivo.Some? && EndsWith(arquivo.value, ".json") && parsed.Some?
                             && Validate(parsed.value).Ok? && confirmed
    ensures r.Accepted? ==> r.data == Validate(parsed.value).value
  {
    match arquivo
    case None => Declined
    case Some(nome) =>
      if !EndsWith(nome, ".json") then Refused(NotJsonFile)
      else match parsed
        case None => Refused(MalformedJson)
        case Some(doc) =>
          match Validate(doc)
          case Err(e) => Refused(e)
          case Ok(data) => if confirmed then Accepted(data) else Declined
  }

  /** The restore data that puts exactly the given collections back. */
  function RestoreDataOf(c: Collections): (d: RestoreData)
    ensures d.historicoEstoque == Some(c.historicoEstoque)
  {
    RestoreData(c.produtos, c.vendas, c.tiposDespesa, c.despesas, Some(c.historicoEstoque))
  }

  /** A snapshot written to a backup file and read back is accepted and yields the same five collections. */
  lemma SnapshotRoundTrip(c: Collections, agora: Timestamp, tipo: BackupKind, date: string, millis: string)
    ensures var s := BuildSnapshot(c, agora, tipo);
            RestoreFile(Some(BackupFileName(date, millis)), Some(Encode(s)), true) == Accepted(RestoreDataOf(c))
  {
  }

  /** `exportarDadosEspecificos`: which collection to export. */
  datatype ExportKind = ExportProdutos | ExportVendas | ExportDespesas | ExportHistorico

  /** The document each single-collection export writes. */
  datatype Export =
    | ProductList(produtos: seq<Product>)
    | SaleList(vendas: seq<Sale>)
    | ExpensePair(tiposDespesa: seq<ExpenseType>, despesas: seq<Expense>)
    | HistoryList(historicoEstoque: seq<Movement>)

  /** The export of one kind: the raw list, or the pair of expense lists. */
  function ExportOf(c: Collections, kind: ExportKind): (e: Export)
    ensures kind == ExportProdutos <==> e == ProductList(c.produtos)
    ensures kind == ExportVendas <==> e == SaleList(c.vendas)
    ensures kind == ExportDespesas <==> e == ExpensePair(c.tiposDespesa, c.despesas)
    ensures kind == ExportHistorico <==> e == HistoryList(c.historicoEstoque)
  {
    match kind
    case ExportProdutos => ProductList(c.produtos)
    case ExportVendas => SaleList(c.vendas)
    case ExportDespesas => ExpensePair(c.tiposDespesa, c.despesas)
    case ExportHistorico => HistoryList(c.historicoEstoque)
  }

  /**
   * A single-collection export holds the same lists that a full backup of the
   * same stores, read back, hands to the restore callback.
   */
  lemma ExportMatchesBackup(c: Collections, kind: ExportKind, agora: Timestamp, date: string, millis: string)
    ensures var r := RestoreFile(Some(BackupFileName(date, millis)), Some(Encode(BuildSnapshot(c, agora, Manual))), true);
            && r.Accepted?
            && match ExportOf(c, kind)
               case ProductList(ps) => r.data.produtos == ps
               case SaleList(vs) => r.data.vendas == vs
               case ExpensePair(ts, ds) => r.data.tiposDespesa == ts && r.data.despesas == ds
               case HistoryList(h) => r.data.historicoEstoque == Some(h)
  {
    SnapshotRoundTrip(c, agora, Manual, date, millis);
  }

  /** The file name of an export: `<prefix>-<date>.json`. */
  function ExportFileName(kind: ExportKind, date: string): (r: string)
    ensures EndsWith(r, ".json")
  {
    var prefix := match kind
      case ExportProdutos => "produtos-"
      case ExportVendas => "vendas-"
      case ExportDespesas => "despesas-"
      case ExportHistorico => "historico-estoque-";
    var r := prefix + date + ".json";
    assert r[|r| - |".json"|..] == ".json";
    r
  }

  /**
   * An export read back as a backup document: a list has no `versao` or
   * `dados`, and neither has the `{tiposDespesa, despesas}` object.
   */
  function ExportAsDoc(e: Export): (d: Doc)
    ensures !d.versaoSet && d.dados.NoDados?
  {
    Doc(false, NoDados)
  }

  /** Exports of a single collection are not backups: restoring one is refused as invalid. */
  lemma ExportNotRestorable(c: Collections, kind: ExportKind, date: string, confirmed: bool)
    ensures var e := ExportOf(c, kind);
            RestoreFile(Some(ExportFileName(kind, date)), Some(ExportAsDoc(e)), confirmed) == Refused(InvalidBackup)
  {
  }
}
