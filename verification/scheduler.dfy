/**
 * The automatic backup scheduler (src/hooks/useBackupScheduler.ts): its
 * configuration, the due check, the emergency-backup list kept in local
 * storage, and lookups in that list.
 *
 * Times are integer milliseconds since the epoch (`getTime()`); the ISO
 * strings the source stores are passed alongside where they are kept.
 */
module Scheduler {
  import opened Wrappers
  import opened Lists
  import opened Types
  import opened Backup

  /** `BackupConfig`; `lastBackup` is `lastBackupDate` as milliseconds. */
  datatype Config = Config(enabled: bool, interval: int, lastBackup: Option<int>, maxKeep: int)

  /** The configuration used before anything is stored. */
  function DefaultConfig(): (c: Config)
    ensures !c.enabled && c.interval == 7 && c.lastBackup.None? && c.maxKeep == 5
  {
    Config(false, 7, None, 5)
  }

  /** `1000 * 60 * 60 * 24` */
  const DayMs := 86_400_000

  /**
   * `shouldCreateBackup`: never when disabled, always when no backup was ever
   * made, otherwise when the whole days elapsed (`Math.floor` of the quotient)
   * reach the interval.
   */
  function ShouldBackup(cfg: Config, now: int): (r: bool)
    ensures !cfg.enabled ==> !r
    ensures cfg.enabled && cfg.lastBackup.None? ==> r
    ensures cfg.enabled && cfg.lastBackup.Some? ==>
              (r <==> now - cfg.lastBackup.value >= cfg.interval * DayMs)
  {
    if !cfg.enabled then false
    else if cfg.lastBackup.None? then true
    else
      var days := (now - cfg.lastBackup.value) / DayMs;
      FloorDivBound(now - cfg.lastBackup.value, DayMs, cfg.interval);
      days >= cfg.interval
  }

  /** For a positive divisor, the floored quotient reaches `n` exactly when the dividend reaches `n * d`. */
  lemma FloorDivBound(x: int, d: int, n: int)
    requires d > 0
    ensures x / d >= n <==> x >= n * d
  {
    var q, m := x / d, x % d;
    assert x == q * d + m && 0 <= m < d;
    if q >= n {
      assert q * d >= n * d by { MulMonotone(n, q, d); }
    } else {
      assert (q + 1) * d <= n * d by { MulMonotone(q + 1, n, d); }
    }
  }

  lemma MulMonotone(a: int, b: int, d: int)
    requires a <= b && d > 0
    ensures a * d <= b * d
  {
  }

  /** A clock that went backwards never makes a backup due under a positive interval. */
  lemma NotDueBeforeLastBackup(cfg: Config, now: int)
    requires cfg.interval > 0 && cfg.lastBackup.Some? && now < cfg.lastBackup.value
    ensures !ShouldBackup(cfg, now)
  {
  }

  /** One emergency backup (`backupsEmergencia` entry); `dados` is `None` when the stored entry lacks it. */
  datatype EmergencyEntry = EmergencyEntry(id: Id, nome: string, data: Timestamp, dados: Option<Snapshot>)

  /** The `backupsEmergencia` item of local storage. */
  datatype Slot =
    | Unset                           // never written: reads as "[]"
    | Corrupt                         // text that does not parse as JSON
    | Stored(entries: seq<EmergencyEntry>)

  /** `getEmergencyBackups`: the stored list, with an unset or unreadable item read as empty. */
  function Emergencies(slot: Slot): (r: seq<EmergencyEntry>)
    ensures slot.Stored? ==> r == slot.entries
    ensures !slot.Stored? ==> r == []
  {
    if slot.Stored? then slot.entries else []
  }

  /**
   * `xs.slice(0, k)` for an integer `k`: the first `k` entries, or for a
   * negative `k` all but the last `-k`, clamped to the list.
   */
  function SliceTo<T>(xs: seq<T>, k: int): (r: seq<T>)
    ensures 0 <= k ==> |r| == if k < |xs| then k else |xs|
    ensures k < 0 ==> |r| == if |xs| + k < 0 then 0 else |xs| + k
    ensures r == xs[..|r|]
  {
    var n := if k >= 0 then k else |xs| + k;
    if n <= 0 then [] else if n < |xs| then xs[..n] else xs
  }

  /** What `window.electron.saveBackup` does; its boolean result is never looked at. */
  datatype Sink =
    | NoElectron           // `window.electron` is absent: nothing is written
    | Saved(ok: bool)      // the call returned `ok`
    | Throws               // the call threw

  /** The scheduler's state: its configuration and the emergency list. */
  datatype SchedulerState = SchedulerState(cfg: Config, slot: Slot)

  /** The name of an automatic backup: `backup-auto-produtos-<date>.json`. */
  function AutoFileName(date: string): string {
    "backup-auto-produtos-" + date + ".json"
  }

  /** The emergency entry `createAutoBackup` writes for the current stores. */
  function AutoEntry(c: Collections, id: Id, date: string, agora: Timestamp): (e: EmergencyEntry)
    ensures e.id == id && e.nome == AutoFileName(date) && e.data == agora
    ensures e.dados.Some? && e.dados.value.tipo == Automatic && e.dados.value.dados == c
    ensures e.dados.value.estatisticas.totalProdutos == |c.produtos|
  {
    EmergencyEntry(id, AutoFileName(date), agora, Some(BuildSnapshot(c, agora, Automatic)))
  }

  /**
   * `createAutoBackup`: a throwing sink, an unreadable emergency list, or a
   * `localStorage.setItem` that throws (`stored` false, e.g. the quota is
   * exceeded) makes it return false with nothing changed; the file the sink
   * wrote before that stays written. Otherwise the new entry goes first,
   * the list is cut to `maxKeep` entries, and only then is the last backup
   * time set. The sink's own result makes no difference.
   */
  function AutoBackup(st: SchedulerState, c: Collections, sink: Sink, stored: bool, id: Id, date: string,
                      agora: Timestamp, now: int): (r: (bool, SchedulerState))
    ensures !r.0 <==> sink.Throws? || st.slot.Corrupt? || !stored
    ensures !r.0 ==> r.1 == st
    ensures r.0 ==>
      var novo := AutoEntry(c, id, date, agora);
      var all := [novo] + Emergencies(st.slot);
      && r.1.cfg == st.cfg.(lastBackup := Some(now))
      && r.1.slot.Stored?
      && |r.1.slot.entries| <= |all|
      && r.1.slot.entries == all[..|r.1.slot.entries|]
      && (st.cfg.maxKeep >= 0 ==> |r.1.slot.entries| == if st.cfg.maxKeep < |all| then st.cfg.maxKeep else |all|)
  {
    if sink.Throws? || st.slot.Corrupt? || !stored then (false, st)
    else
      var kept := SliceTo([AutoEntry(c, id, date, agora)] + Emergencies(st.slot), st.cfg.maxKeep);
      (true, SchedulerState(st.cfg.(lastBackup := Some(now)), Stored(kept)))
  }

  /** The sink's answer does not matter: a failed save and a successful one leave the same state. */
  lemma SinkResultIgnored(st: SchedulerState, c: Collections, stored: bool, id: Id, date: string, agora: Timestamp, now: int)
    ensures AutoBackup(st, c, Saved(false), stored, id, date, agora, now) == AutoBackup(st, c, Saved(true), stored, id, date, agora, now)
    ensures AutoBackup(st, c, Saved(false), stored, id, date, agora, now) == AutoBackup(st, c, NoElectron, stored, id, date, agora, now)
  {
  }

  /** With a positive limit the newest backup is kept first and the list never holds more than the limit. */
  lemma AutoBackupBounded(st: SchedulerState, c: Collections, sink: Sink, stored: bool, id: Id, date: string, agora: Timestamp, now: int)
    requires st.cfg.maxKeep >= 1
    requires AutoBackup(st, c, sink, stored, id, date, agora, now).0
    ensures var s := AutoBackup(st, c, sink, stored, id, date, agora, now).1.slot.entries;
            1 <= |s| <= st.cfg.maxKeep && s[0] == AutoEntry(c, id, date, agora)
            && s[1..] == Emergencies(st.slot)[..|s| - 1]
  {
    var s := AutoBackup(st, c, sink, stored, id, date, agora, now).1.slot.entries;
    var all := [AutoEntry(c, id, date, agora)] + Emergencies(st.slot);
    assert s == all[..|s|];
    assert s[1..] == all[1..|s|];
  }

  /** `Partial<BackupConfig>`: each field either supplied or left out. */
  datatype ConfigPatch = ConfigPatch(enabled: Option<bool>, interval: Option<int>,
                                     lastBackup: Option<Option<int>>, maxKeep: Option<int>)

  /** `{ ...prev, ...config }`: the supplied fields replace, the rest are kept. */
  function Configure(cfg: Config, p: ConfigPatch): (r: Config)
    ensures r.enabled == p.enabled.GetOr(cfg.enabled)
    ensures r.interval == p.interval.GetOr(cfg.interval)
    ensures r.lastBackup == p.lastBackup.GetOr(cfg.lastBackup)
    ensures r.maxKeep == p.maxKeep.GetOr(cfg.maxKeep)
  {
    Config(p.enabled.GetOr(cfg.enabled), p.interval.GetOr(cfg.interval),
           p.lastBackup.GetOr(cfg.lastBackup), p.maxKeep.GetOr(cfg.maxKeep))
  }

  /** `q` laid over `p`: the fields of `q` win where both supply one. */
  function Overlay(p: ConfigPatch, q: ConfigPatch): ConfigPatch {
    ConfigPatch(if q.enabled.Some? then q.enabled else p.enabled,
                if q.interval.Some? then q.interval else p.interval,
                if q.lastBackup.Some? then q.lastBackup else p.lastBackup,
                if q.maxKeep.Some? then q.maxKeep else p.maxKeep)
  }

  /** Two successive configurations are one with the later patch laid over the earlier. */
  lemma ConfigureTwice(cfg: Config, p: ConfigPatch, q: ConfigPatch)
    ensures Configure(Configure(cfg, p), q) == Configure(cfg, Overlay(p, q))
  {
  }

  /** An empty patch changes nothing, and applying the same patch twice is applying it once. */
  lemma ConfigureIdempotent(cfg: Config, p: ConfigPatch)
    ensures Configure(cfg, ConfigPatch(None, None, None, None)) == cfg
    ensures Configure(Configure(cfg, p), p) == Configure(cfg, p)
  {
  }

  function EntryId(e: EmergencyEntry): Id { e.id }
  function EntryIndex(es: seq<EmergencyEntry>, id: Id): nat { IndexById(es, EntryId, id) }

  /**
   * `restoreEmergencyBackup`: the `dados` of the first entry with that id, or
   * nothing when there is no such entry (or it has no `dados`).
   */
  function RestoreEmergency(slot: Slot, id: Id): (r: Option<Snapshot>)
    ensures var es := Emergencies(slot);
            r.Some? <==> exists i :: 0 <= i < |es| && es[i].id == id && es[i].dados.Some?
                                     && forall j :: 0 <= j < i ==> es[j].id != id
    ensures var es := Emergencies(slot);
            forall i :: 0 <= i < |es| && es[i].id == id && (forall j :: 0 <= j < i ==> es[j].id != id)
                        ==> r == es[i].dados
    ensures (forall i :: 0 <= i < |Emergencies(slot)| ==> Emergencies(slot)[i].id != id) ==> r.None?
  {
    var es := Emergencies(slot);
    var i := EntryIndex(es, id);
    if i < |es| then es[i].dados else None
  }

  /** Right after an automatic backup that kept at least one entry, its id finds the snapshot just taken. */
  lemma AutoBackupThenRestore(st: SchedulerState, c: Collections, sink: Sink, stored: bool, id: Id, date: string,
                              agora: Timestamp, now: int)
    requires st.cfg.maxKeep >= 1
    requires AutoBackup(st, c, sink, stored, id, date, agora, now).0
    ensures RestoreEmergency(AutoBackup(st, c, sink, stored, id, date, agora, now).1.slot, id)
            == Some(BuildSnapshot(c, agora, Automatic))
  {
    AutoBackupBounded(st, c, sink, stored, id, date, agora, now);
  }
}
