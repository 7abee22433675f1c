/**
 * The settings page's counter (MTH) dialog: the typed value is parsed,
 * checked, sent through the machine hook, and the machine reloaded.
 * The parsed value is `None` when `parseFloat` gives NaN.
 */
module SettingsPage {
  import opened Common
  import opened Domain
  import opened OfflineQueue
  import opened MachineModel

  /** The checks made before anything is sent. */
  datatype InputCheck = InvalidValue | BelowMachine(current: real) | Acceptable(value: real)

  /** How the dialog handler ends, by the toast it shows. */
  datatype DialogOutcome = Refused(check: InputCheck) | UpdateSucceeded(value: real) | UpdateFailed

  /**
   * NaN and negative values are refused; so is a value below the loaded
   * machine's counter. Without a loaded machine only the first check applies.
   */
  function CheckMthInput(parsed: Option<real>, machine: Option<Machine>): InputCheck
  {
    if parsed.None? || parsed.value < 0.0 then InvalidValue
    else if machine.Some? && parsed.value < machine.value.aktualniMth then BelowMachine(machine.value.aktualniMth)
    else Acceptable(parsed.value)
  }

  /** The input check accepts exactly the non-negative values the machine hook would not refuse. */
  lemma CheckMatchesHookGuard(parsed: Option<real>, machine: Option<Machine>)
    ensures CheckMthInput(parsed, machine).Acceptable? <==>
      parsed.Some? && parsed.value >= 0.0
      && (machine.Some? ==> AcceptsMth(machine.value.aktualniMth, parsed.value))
    ensures CheckMthInput(parsed, machine).Acceptable? ==> CheckMthInput(parsed, machine).value == parsed.value
  {
  }

  class MthDialog {
    var open: bool
    var saving: bool

    constructor ()
      ensures !open && !saving
    {
      open := false;
      saving := false;
    }

    /**
     * `handleUpdateMth`. The dialog closes only after the update and the reload
     * both returned; once the value passed the checks, `saving` is false
     * afterwards. With no machine loaded the hook returns without writing and
     * the dialog still reports success.
     */
    method HandleUpdateMth(parsed: Option<real>, store: MachineStore, queue: PendingQueue,
                           online: bool, remoteOk: bool, id: string, now: string, reload: FetchResult)
      returns (outcome: DialogOutcome, sent: seq<RemoteWrite>)
      modifies this, store, queue`stored, queue`events
      ensures var c := CheckMthInput(parsed, old(store.machine));
        && (c.Acceptable? ==> !saving)
        && (!c.Acceptable? ==>
              outcome == Refused(c) && sent == [] && open == old(open) && saving == old(saving)
              && store.machine == old(store.machine) && queue.stored == old(queue.stored))
        && (c.Acceptable? && old(store.machine).None? ==> outcome == UpdateSucceeded(c.value) && sent == [] && !open)
        && (c.Acceptable? && old(store.machine).Some? ==>
              sent == (if online then [MthWrite(old(store.machine).value.id, c.value, now)] else [])
              && (outcome == UpdateFailed <==> !(online && remoteOk) && !queue.writable)
              && (outcome == UpdateFailed ==> open == old(open))
              && (outcome != UpdateFailed ==> outcome == UpdateSucceeded(c.value) && !open))
    {
      sent := [];
      var c := CheckMthInput(parsed, store.machine);
      if !c.Acceptable? {
        return Refused(c), sent;
      }
      saving := true;
      var u;
      u, sent := store.UpdateMth(c.value, queue, online, remoteOk, id, now);
      if u == SaveFailed || u.BelowCurrent? {
        outcome := UpdateFailed;
      } else {
        store.FetchMachine(reload);
        outcome := UpdateSucceeded(c.value);
        open := false;
      }
      saving := false;
    }
  }
}
