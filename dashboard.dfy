/**
 * The dashboard's two effects around live telemetry: copying a higher
 * telemetry counter (MTH) into the machine record at most once every
 * 30 seconds, and starting the background telemetry sync once per machine.
 */
module Dashboard {
  import opened Common
  import opened Domain
  import opened OfflineQueue
  import opened MachineModel

  const MthSyncIntervalMs: int := 30000

  /**
   * The auto-sync effect's decision: forward the telemetry counter when a
   * machine is loaded, the telemetry counter is positive and above the
   * machine's, and 30 s have passed since the last forward (`lastSync` starts at 0).
   */
  function AutoSyncDecision(machine: Option<Machine>, telemetryMth: Option<real>, lastSync: int, now: int): (r: Option<real>)
    ensures r.Some? <==>
      machine.Some? && telemetryMth.Some? && telemetryMth.value > 0.0
      && telemetryMth.value > machine.value.aktualniMth && now - lastSync >= MthSyncIntervalMs
    ensures r.Some? ==> r == telemetryMth
  {
    if machine.None? || telemetryMth.None? || telemetryMth.value <= 0.0 then None
    else if telemetryMth.value <= machine.value.aktualniMth then None
    else if now - lastSync < MthSyncIntervalMs then None
    else telemetryMth
  }

  /** A forwarded value always passes the machine hook's guard, so auto-sync never lowers the counter. */
  lemma ForwardedPassesGuard(machine: Option<Machine>, telemetryMth: Option<real>, lastSync: int, now: int)
    requires AutoSyncDecision(machine, telemetryMth, lastSync, now).Some?
    ensures AcceptsMth(machine.value.aktualniMth, AutoSyncDecision(machine, telemetryMth, lastSync, now).value)
  {
  }

  /** The times at which forwards happened are at least 30 s apart, the first at least 30 s after time 0. */
  ghost predicate Spaced(times: seq<int>)
  {
    (|times| > 0 ==> times[0] >= MthSyncIntervalMs)
    && forall i :: 0 < i < |times| ==> times[i] - times[i - 1] >= MthSyncIntervalMs
  }

  class DashboardEffects {
    /** `lastMthSyncRef`. */
    var lastMthSync: int
    /** `telemetrySyncStarted`. */
    var syncStarted: bool
    /** Times of all forwards so far. */
    ghost var forwards: seq<int>
    /** Background telemetry syncs currently running: one more per start, none after the cleanup. */
    ghost var runningSyncs: nat

    ghost predicate Valid()
      reads this
    {
      Spaced(forwards)
      && (forwards == [] ==> lastMthSync == 0)
      && (forwards != [] ==> lastMthSync == forwards[|forwards| - 1])
      && runningSyncs <= 1
      && (!syncStarted ==> runningSyncs == 0)
    }

    constructor ()
      ensures Valid() && lastMthSync == 0 && !syncStarted && forwards == []
    {
      lastMthSync := 0;
      syncStarted := false;
      forwards := [];
      runningSyncs := 0;
    }

    /**
     * The auto-sync effect. A forwarded value goes to the machine hook; a
     * refusal or failure there is only logged. `now` is `Date.now()` and
     * `nowIso` the same instant as ISO text.
     */
    method OnTelemetry(telemetryMth: Option<real>, now: int, nowIso: string, store: MachineStore, queue: PendingQueue,
                       online: bool, remoteOk: bool, id: string)
      returns (forwarded: Option<real>, sent: seq<RemoteWrite>)
      requires Valid()
      modifies this`lastMthSync, this`forwards, store`machine, queue`stored, queue`events
      ensures Valid()
      ensures forwarded == AutoSyncDecision(old(store.machine), telemetryMth, old(lastMthSync), now)
      ensures forwarded.None? ==>
        lastMthSync == old(lastMthSync) && forwards == old(forwards) && sent == []
        && store.machine == old(store.machine) && queue.stored == old(queue.stored)
      ensures forwarded.Some? ==> lastMthSync == now && forwards == old(forwards) + [now]
      ensures forwarded.Some? ==>
        sent == (if online then [MthWrite(old(store.machine).value.id, forwarded.value, nowIso)] else [])
      ensures store.machine.Some? && old(store.machine).Some? ==>
        old(store.machine).value.aktualniMth <= store.machine.value.aktualniMth
    {
      forwarded := AutoSyncDecision(store.machine, telemetryMth, lastMthSync, now);
      sent := [];
      if forwarded.Some? {
        lastMthSync := now;
        forwards := forwards + [now];
        var outcome;
        outcome, sent := store.UpdateMth(forwarded.value, queue, online, remoteOk, id, nowIso);
      }
    }

    /** The telemetry-start effect: starts once per loaded machine until its cleanup runs. */
    method StartTelemetrySync(machine: Option<Machine>) returns (started: bool)
      requires Valid()
      modifies this`syncStarted, this`runningSyncs
      ensures Valid()
      ensures started <==> machine.Some? && !old(syncStarted)
      ensures syncStarted == (old(syncStarted) || started)
      ensures runningSyncs <= 1
    {
      started := machine.Some? && !syncStarted;
      if started {
        runningSyncs := runningSyncs + 1;
        syncStarted := true;
      }
    }

    /** The effect's cleanup: stops the background sync and clears the flag. */
    method StopTelemetrySync()
      requires Valid()
      modifies this`syncStarted, this`runningSyncs
      ensures Valid() && !syncStarted && runningSyncs == 0
    {
      runningSyncs := 0;
      syncStarted := false;
    }
  }
}
