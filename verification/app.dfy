/**
 * The application's stores (src/App.tsx): their initial contents and the
 * wholesale replacement a restore performs.
 */
module App {
  import opened Wrappers
  import opened Types
  import opened Backup
  import opened Scheduler
  import opened Settings

  /** Every store starts as the empty list. */
  function Initial(): (c: Collections)
    ensures c.produtos == [] && c.vendas == [] && c.tiposDespesa == [] && c.despesas == []
    ensures c.historicoEstoque == []
  {
    Collections([], [], [], [], [])
  }

  /**
   * `restaurarDados`: the four main stores are replaced, not merged; the
   * stock history is replaced only when the data carries one.
   */
  function Restore(live: Collections, d: RestoreData): (r: Collections)
    ensures r.produtos == d.produtos && r.vendas == d.vendas
    ensures r.tiposDespesa == d.tiposDespesa && r.despesas == d.despesas
    ensures d.historicoEstoque.Some? ==> r.historicoEstoque == d.historicoEstoque.value
    ensures d.historicoEstoque.None? ==> r.historicoEstoque == live.historicoEstoque
  {
    Collections(d.produtos, d.vendas, d.tiposDespesa, d.despesas,
                d.historicoEstoque.GetOr(live.historicoEstoque))
  }

  /** Whatever the live stores hold, restoring the data of a collection set gives back exactly that set. */
  lemma RestoreOfCollections(live: Collections, c: Collections)
    ensures Restore(live, RestoreDataOf(c)) == c
  {
  }

  /** A backup file taken of `c` and restored later, over any live state, brings back exactly `c`. */
  lemma FileBackupRestores(c: Collections, live: Collections, agora: Timestamp, date: string, millis: string)
    ensures var r := RestoreFile(Some(BackupFileName(date, millis)), Some(Encode(BuildSnapshot(c, agora, Manual))), true);
            r.Accepted? && Restore(live, r.data) == c
  {
    SnapshotRoundTrip(c, agora, Manual, date, millis);
  }

  /** A document without a history clears the live history; a falsy history keeps it. */
  lemma HistoryDefault(live: Collections, doc: Doc)
    requires Validate(doc).Ok?
    ensures doc.dados.historicoEstoque.Undefined? ==> Restore(live, Validate(doc).value).historicoEstoque == []
    ensures doc.dados.historicoEstoque.Falsy? ==>
              Restore(live, Validate(doc).value).historicoEstoque == live.historicoEstoque
  {
  }

  /**
   * An automatic backup of `c` that kept at least one entry, restored from the
   * emergency panel over any live state, brings back exactly `c`.
   */
  lemma EmergencyBackupRestores(st: SchedulerState, c: Collections, sink: Sink, stored: bool, id: Id, date: string,
                                agora: Timestamp, now: int, live: Collections)
    requires st.cfg.maxKeep >= 1
    requires AutoBackup(st, c, sink, stored, id, date, agora, now).0
    ensures var r := RestoreFromEmergency(AutoBackup(st, c, sink, stored, id, date, agora, now).1.slot, id, true);
            r.Accepted? && Restore(live, r.data) == c
  {
    AutoBackupThenRestore(st, c, sink, stored, id, date, agora, now);
  }
}
