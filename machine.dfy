/**
 * The machine hook: loads the active machine and records new values of its
 * engine-hour counter (MTH). The counter is never lowered through this path:
 * a value below the current one is refused before anything is written, and
 * the local copy changes only after the write was accepted online or queued.
 */
module MachineModel {
  import opened Common
  import opened Domain
  import opened OfflineQueue

  /** The database client's error code for "no rows" on a single-row select. */
  const NoRowsCode: string := "PGRST116"
  const DefaultFetchError: string := "Chyba při načítání stroje"

  /** What the single-row select of the active machine returns. */
  datatype FetchResult =
    | Found(machine: Machine)
    | FetchFailed(code: string, message: Option<string>)

  /** How `updateMth` ends: a silent return, a thrown refusal, success, or a rethrown save error. */
  datatype UpdateOutcome = NoMachine | BelowCurrent(current: real) | Applied(offline: bool) | SaveFailed

  /** The guard of `updateMth`: a value is refused only when strictly below the current counter. */
  predicate AcceptsMth(current: real, newMth: real)
  {
    !(newMth < current)
  }

  /** The machine after a counter update was accepted. */
  function WithMth(m: Machine, newMth: real, now: string): (r: Machine)
    ensures r.id == m.id && r.aktualniMth == newMth && r.lastMthUpdate == Some(now)
  {
    m.(aktualniMth := newMth, lastMthUpdate := Some(now))
  }

  /** Successive accepted updates never lower the counter. */
  lemma {:induction false} AcceptedChainNonDecreasing(start: real, values: seq<real>)
    requires |values| > 0 ==> AcceptsMth(start, values[0])
    requires forall i :: 0 < i < |values| ==> AcceptsMth(values[i - 1], values[i])
    ensures forall i :: 0 <= i < |values| ==> start <= values[i]
    ensures forall i, j :: 0 <= i <= j < |values| ==> values[i] <= values[j]
  {
    if values != [] {
      var n := |values| - 1;
      var init := values[..n];
      assert forall i :: 0 <= i < |init| ==> init[i] == values[i];
      AcceptedChainNonDecreasing(start, init);
      assert n > 0 ==> values[n - 1] <= values[n];
    }
  }

  class MachineStore {
    var machine: Option<Machine>
    var loading: bool
    var error: Option<string>

    constructor ()
      ensures machine == None && loading && error == None
    {
      machine := None;
      loading := true;
      error := None;
    }

    /**
     * `fetchMachine`: "no rows" means there is no machine yet and is not an
     * error; any other failure keeps the old machine and sets the error text
     * (the default text when the failure is not an `Error` instance). A
     * successful fetch does not clear an earlier error.
     */
    method FetchMachine(result: FetchResult)
      modifies this
      ensures !loading
      ensures result.Found? ==> machine == Some(result.machine) && error == old(error)
      ensures result.FetchFailed? && result.code == NoRowsCode ==> machine == None && error == old(error)
      ensures result.FetchFailed? && result.code != NoRowsCode ==>
        machine == old(machine) && error == Some(Coalesce(result.message, DefaultFetchError))
    {
      loading := true;
      match result {
        case Found(m) =>
          machine := Some(m);
        case FetchFailed(code, message) =>
          if code == NoRowsCode {
            machine := None;
          } else {
            error := Some(Coalesce(message, DefaultFetchError));
          }
      }
      loading := false;
    }

    /**
     * `updateMth`: without a machine it returns silently; a value below the
     * current counter is refused; otherwise the write goes through the offline
     * queue and the local copy takes the new value, unless the queue write
     * threw, in which case the error is passed on and nothing local changes.
     */
    method UpdateMth(newMth: real, queue: PendingQueue, online: bool, remoteOk: bool, id: string, now: string)
      returns (outcome: UpdateOutcome, sent: seq<RemoteWrite>)
      modifies this`machine, queue`stored, queue`events
      ensures old(machine).None? ==>
        outcome == NoMachine && machine == old(machine) && sent == []
        && queue.stored == old(queue.stored) && queue.events == old(queue.events)
      ensures old(machine).Some? && !AcceptsMth(old(machine).value.aktualniMth, newMth) ==>
        outcome == BelowCurrent(old(machine).value.aktualniMth) && machine == old(machine) && sent == []
        && queue.stored == old(queue.stored) && queue.events == old(queue.events)
      ensures old(machine).Some? && AcceptsMth(old(machine).value.aktualniMth, newMth) ==>
        && sent == (if online then [MthWrite(old(machine).value.id, newMth, now)] else [])
        && (outcome.Applied? || outcome == SaveFailed)
        && (outcome == Applied(false) <==> online && remoteOk)
        && (outcome == SaveFailed <==> !(online && remoteOk) && !old(queue.writable))
        && (outcome.Applied? ==> machine == Some(WithMth(old(machine).value, newMth, now)))
        && (outcome == SaveFailed ==> machine == old(machine))
        && (outcome == Applied(true) ==>
              Load(queue.stored) == old(Load(queue.stored)) + [PendingRecord(id, MthUpdate(old(machine).value.id, newMth, now), now, 0)])
      ensures machine.Some? && old(machine).Some? ==> old(machine).value.aktualniMth <= machine.value.aktualniMth
    {
      sent := [];
      if machine.None? {
        return NoMachine, sent;
      }
      var m := machine.value;
      if newMth < m.aktualniMth {
        return BelowCurrent(m.aktualniMth), sent;
      }
      var r;
      r, sent := queue.SaveMthUpdate(m.id, newMth, online, remoteOk, id, now);
      if r == StorageError {
        return SaveFailed, sent;
      }
      machine := Some(WithMth(m, newMth, now));
      outcome := Applied(r == SavedOffline);
    }
  }
}
