/**
 * The emergency-backup panel (src/components/Backup/BackupSettings.tsx):
 * removing an emergency backup and restoring one.
 */
module Settings {
  import opened Wrappers
  import opened Lists
  import opened Types
  import opened Backup
  import opened Scheduler

  /**
   * `removerBackupEmergencia`: once confirmed, writes back the list read from
   * storage without the entries carrying that id, in their order.
   */
  function RemoveEmergency(slot: Slot, id: Id, confirmed: bool): (r: Slot)
    ensures !confirmed ==> r == slot
    ensures confirmed ==> r.Stored? && SubseqOf(r.entries, Emergencies(slot))
    ensures confirmed ==> r.Stored? && forall e {:trigger multiset(r.entries)[e]} ::
              multiset(r.entries)[e] == if e.id != id then multiset(Emergencies(slot))[e] else 0
    ensures confirmed ==> r.Stored? && forall e :: e in r.entries <==> e in Emergencies(slot) && e.id != id
    ensures (forall i :: 0 <= i < |Emergencies(slot)| ==> Emergencies(slot)[i].id != id)
            ==> Emergencies(r) == Emergencies(slot)
  {
    if !confirmed then slot
    else Stored(Filter(Emergencies(slot), (e: EmergencyEntry) => e.id != id))
  }

  /** After a confirmed removal no entry with that id can be restored. */
  lemma RemovedNotRestorable(slot: Slot, id: Id)
    ensures RestoreEmergency(RemoveEmergency(slot, id, true), id).None?
  {
    var es := Emergencies(RemoveEmergency(slot, id, true));
    forall i | 0 <= i < |es| ensures es[i].id != id {
      assert es[i] in es;
    }
  }

  /**
   * `restaurarBackupEmergencia`: an error when nothing usable is found under
   * that id; otherwise, once confirmed, the snapshot's collections go to the
   * restore callback, history included.
   */
  function RestoreFromEmergency(slot: Slot, id: Id, confirmed: bool): (r: RestoreOutcome)
    ensures r == Refused(BackupNotFound) <==> RestoreEmergency(slot, id).None?
    ensures r.Accepted? <==> RestoreEmergency(slot, id).Some? && confirmed
    ensures r.Accepted? ==> r.data == RestoreDataOf(RestoreEmergency(slot, id).value.dados)
  {
    match RestoreEmergency(slot, id)
    case None => Refused(BackupNotFound)
    case Some(s) => if confirmed then Accepted(RestoreDataOf(s.dados)) else Declined
  }
}
