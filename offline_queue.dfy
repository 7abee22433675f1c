/**
 * The offline write queue. Service records, operation records and machine
 * counter (MTH) updates are written to the database when the browser is
 * online; when it is offline, or the online write fails, they are appended
 * to a queue kept in local storage under the key `pendingSync`. Draining
 * replays each queued entry in order, drops the ones that succeeded, and
 * keeps a failed entry only until its fifth failure.
 *
 * The database is an oracle: `remoteOk` for one online write, `ok(i)` for
 * the i-th replayed write of a drain. The entry id (`crypto.randomUUID`) and
 * the clock are parameters.
 */
module OfflineQueue {
  import opened Common
  import opened Domain

  const StorageKey: string := "pendingSync"
  const MaxRetries: nat := 5

  /** What an entry replays; the entry's `type` tag and its `data` in one value. */
  datatype Payload =
    | ServiceRow(row: Row)
    | OperationRow(row: Row)
    | MthUpdate(machineId: string, newMth: real, timestamp: string)

  datatype PendingRecord = PendingRecord(id: string, data: Payload, createdAt: string, retries: nat)

  /** The local-storage value under `pendingSync`: missing, unparsable, or a queue. */
  datatype Stored = Absent | Malformed | Queue(items: seq<PendingRecord>)

  /** Events dispatched on `window`. */
  datatype QueueEvent = PendingChanged(count: nat) | SyncComplete(synced: nat, failed: nat)

  /** How a save ended: written online, queued, or the queue write itself threw. */
  datatype SaveResult = SavedOnline | SavedOffline | StorageError

  datatype SyncResult = Synced(synced: nat, failed: nat) | SyncStorageError

  /** `getPendingItems`: a missing or unparsable value reads as the empty queue. */
  function Load(s: Stored): seq<PendingRecord>
  {
    if s.Queue? then s.items else []
  }

  /** The database write that an entry replays. */
  function WriteFor(p: Payload): RemoteWrite
  {
    match p
    case ServiceRow(row) => Insert("servisni_zaznamy", row)
    case OperationRow(row) => Insert("provozni_zaznamy", row)
    case MthUpdate(m, v, ts) => MthWrite(m, v, ts)
  }

  function WritesFor(items: seq<PendingRecord>): (ws: seq<RemoteWrite>)
    ensures |ws| == |items|
    ensures forall i :: 0 <= i < |items| ==> ws[i] == WriteFor(items[i].data)
  {
    seq(|items|, i requires 0 <= i < |items| => WriteFor(items[i].data))
  }

  /** The outcomes of the first `n` replayed writes of a drain. */
  function Outcomes(ok: nat -> bool, n: nat): (r: seq<bool>)
    ensures |r| == n && forall i :: 0 <= i < n ==> r[i] == ok(i)
  {
    seq(n, i requires 0 <= i < n => ok(i))
  }

  function Retried(p: PendingRecord): PendingRecord
  {
    p.(retries := p.retries + 1)
  }

  /** What one entry leaves in the queue after its replay. */
  function KeptOne(p: PendingRecord, succeeded: bool): seq<PendingRecord>
  {
    if succeeded || p.retries + 1 >= MaxRetries then [] else [Retried(p)]
  }

  /** The queue a drain leaves behind, in the original order. */
  function Kept(items: seq<PendingRecord>, outs: seq<bool>): seq<PendingRecord>
    requires |outs| == |items|
  {
    if items == [] then []
    else Kept(items[..|items| - 1], outs[..|outs| - 1]) + KeptOne(items[|items| - 1], outs[|outs| - 1])
  }

  function CountOk(outs: seq<bool>): nat
  {
    if outs == [] then 0 else CountOk(outs[..|outs| - 1]) + (if outs[|outs| - 1] then 1 else 0)
  }

  function CountFailed(outs: seq<bool>): nat
  {
    if outs == [] then 0 else CountFailed(outs[..|outs| - 1]) + (if outs[|outs| - 1] then 0 else 1)
  }

  /** Every replayed entry is counted exactly once, as synced or as failed. */
  lemma {:induction false} CountsPartition(outs: seq<bool>)
    ensures CountOk(outs) + CountFailed(outs) == |outs|
  {
    if outs != [] {
      CountsPartition(outs[..|outs| - 1]);
    }
  }

  /** Only failed entries stay queued. */
  lemma {:induction false} KeptOnlyFailures(items: seq<PendingRecord>, outs: seq<bool>)
    requires |outs| == |items|
    ensures |Kept(items, outs)| <= CountFailed(outs)
  {
    if items != [] {
      KeptOnlyFailures(items[..|items| - 1], outs[..|outs| - 1]);
    }
  }

  /** Draining two stretches of the queue keeps their survivors in the same relative order. */
  lemma {:induction false} KeptAppend(a: seq<PendingRecord>, oa: seq<bool>, b: seq<PendingRecord>, ob: seq<bool>)
    requires |oa| == |a| && |ob| == |b|
    ensures Kept(a + b, oa + ob) == Kept(a, oa) + Kept(b, ob)
    decreases |b|
  {
    if b == [] {
      assert a + b == a && oa + ob == oa;
    } else {
      var b', ob' := b[..|b| - 1], ob[..|ob| - 1];
      assert (a + b)[..|a + b| - 1] == a + b';
      assert (oa + ob)[..|oa + ob| - 1] == oa + ob';
      KeptAppend(a, oa, b', ob');
    }
  }

  /** Each entry left in the queue comes from an entry whose replay failed with retries to spare. */
  lemma {:induction false} KeptWitness(items: seq<PendingRecord>, outs: seq<bool>, p: PendingRecord) returns (k: nat)
    requires |outs| == |items| && p in Kept(items, outs)
    ensures k < |items| && !outs[k] && items[k].retries + 1 < MaxRetries && p == Retried(items[k])
  {
    var n := |items| - 1;
    var init, io := items[..n], outs[..n];
    assert Kept(items, outs) == Kept(init, io) + KeptOne(items[n], outs[n]);
    if p in Kept(init, io) {
      k := KeptWitness(init, io, p);
      assert items[k] == init[k] && outs[k] == io[k];
    } else {
      k := n;
    }
  }

  /** Each entry whose replay failed with retries to spare stays, its retry count raised. */
  lemma {:induction false} KeptRetried(items: seq<PendingRecord>, outs: seq<bool>, k: nat)
    requires |outs| == |items| && k < |items| && !outs[k] && items[k].retries + 1 < MaxRetries
    ensures Retried(items[k]) in Kept(items, outs)
  {
    var n := |items| - 1;
    var init, io := items[..n], outs[..n];
    assert Kept(items, outs) == Kept(init, io) + KeptOne(items[n], outs[n]);
    if k < n {
      assert init[k] == items[k] && io[k] == outs[k];
      KeptRetried(init, io, k);
    } else {
      assert KeptOne(items[n], outs[n]) == [Retried(items[k])];
    }
  }

  /**
   * An entry is left in the queue exactly when its replay failed and it had
   * failed fewer than five times in all; it stays with its retry count raised by one.
   */
  lemma KeptMembers(items: seq<PendingRecord>, outs: seq<bool>, p: PendingRecord)
    requires |outs| == |items|
    ensures p in Kept(items, outs) <==>
      exists k :: 0 <= k < |items| && !outs[k] && items[k].retries + 1 < MaxRetries && p == Retried(items[k])
  {
    if p in Kept(items, outs) {
      var k := KeptWitness(items, outs, p);
    }
    if exists k :: 0 <= k < |items| && !outs[k] && items[k].retries + 1 < MaxRetries && p == Retried(items[k]) {
      var k :| 0 <= k < |items| && !outs[k] && items[k].retries + 1 < MaxRetries && p == Retried(items[k]);
      KeptRetried(items, outs, k);
    }
  }

  /** One more replayed entry extends each drain summary by that entry's contribution. */
  lemma DrainStep(items: seq<PendingRecord>, ok: nat -> bool, i: nat)
    requires i < |items|
    ensures Kept(items[..i + 1], Outcomes(ok, i + 1)) == Kept(items[..i], Outcomes(ok, i)) + KeptOne(items[i], ok(i))
    ensures CountOk(Outcomes(ok, i + 1)) == CountOk(Outcomes(ok, i)) + (if ok(i) then 1 else 0)
    ensures CountFailed(Outcomes(ok, i + 1)) == CountFailed(Outcomes(ok, i)) + (if ok(i) then 0 else 1)
    ensures WritesFor(items[..i + 1]) == WritesFor(items[..i]) + [WriteFor(items[i].data)]
  {
    assert items[..i + 1][..i] == items[..i];
    assert Outcomes(ok, i + 1)[..i] == Outcomes(ok, i);
  }

  predicate DistinctIds(items: seq<PendingRecord>)
  {
    forall i, j :: 0 <= i < j < |items| ==> items[i].id != items[j].id
  }

  /** With distinct entry ids, an entry whose replay succeeded is gone from the queue. */
  lemma SyncedRemoved(items: seq<PendingRecord>, outs: seq<bool>, k: nat)
    requires |outs| == |items| && DistinctIds(items)
    requires k < |items| && outs[k]
    ensures forall p :: p in Kept(items, outs) ==> p.id != items[k].id
  {
    forall p | p in Kept(items, outs) ensures p.id != items[k].id {
      KeptMembers(items, outs, p);
      var j :| 0 <= j < |items| && !outs[j] && items[j].retries + 1 < MaxRetries && p == Retried(items[j]);
      assert j != k;
    }
  }

  /** Whether an entry is still queued after `n` drains in which its replay fails. */
  function StillQueuedAfter(p: PendingRecord, n: nat): bool
    decreases n
  {
    n == 0 || (var rest := KeptOne(p, false); rest != [] && StillQueuedAfter(rest[0], n - 1))
  }

  /**
   * Retry exhaustion: an entry survives `n >= 1` failing drains iff its retry
   * count plus `n` stays below five. A fresh entry (retries 0) is replayed at
   * most five times.
   */
  lemma {:induction false} RetryExhaustion(p: PendingRecord, n: nat)
    requires n >= 1
    ensures StillQueuedAfter(p, n) <==> p.retries + n < MaxRetries
    decreases n
  {
    if n > 1 && p.retries + 1 < MaxRetries {
      RetryExhaustion(Retried(p), n - 1);
    }
  }

  class PendingQueue {
    /** The local-storage value under `pendingSync`. */
    var stored: Stored
    /** Whether local storage accepts writes (false once its quota is exhausted). */
    var writable: bool
    /** Events dispatched so far, oldest first. */
    var events: seq<QueueEvent>

    constructor (initial: Stored, storageWritable: bool)
      ensures stored == initial && writable == storageWritable && events == []
    {
      stored := initial;
      writable := storageWritable;
      events := [];
    }

    /** `getPendingItems`. */
    method GetPendingItems() returns (items: seq<PendingRecord>)
      ensures items == Load(stored)
      ensures stored.Queue? ==> items == stored.items
      ensures !stored.Queue? ==> items == []
    {
      if stored.Queue? {
        items := stored.items;
      } else {
        items := [];
      }
    }

    /** `getPendingCount`. */
    method GetPendingCount() returns (count: nat)
      ensures count == |Load(stored)|
    {
      var items := GetPendingItems();
      count := |items|;
    }

    /**
     * `savePendingItems`: stores the queue and announces its new length; when
     * local storage refuses the write it throws before announcing anything.
     */
    method SavePendingItems(items: seq<PendingRecord>) returns (ok: bool)
      modifies this`stored, this`events
      ensures ok == writable
      ensures ok ==> Load(stored) == items && events == old(events) + [PendingChanged(|items|)]
      ensures !ok ==> stored == old(stored) && events == old(events)
    {
      ok := writable;
      if ok {
        stored := Queue(items);
        events := events + [PendingChanged(|items|)];
      }
    }

    /** Appends a fresh entry (retry count 0) to the stored queue. */
    method Enqueue(data: Payload, id: string, now: string) returns (r: SaveResult)
      modifies this`stored, this`events
      ensures r != SavedOnline
      ensures r == SavedOffline <==> writable
      ensures r == SavedOffline ==> Load(stored) == old(Load(stored)) + [PendingRecord(id, data, now, 0)]
      ensures r == SavedOffline ==> events == old(events) + [PendingChanged(|old(Load(stored))| + 1)]
      ensures r == StorageError ==> stored == old(stored) && events == old(events)
    {
      var items := GetPendingItems();
      items := items + [PendingRecord(id, data, now, 0)];
      var ok := SavePendingItems(items);
      r := if ok then SavedOffline else StorageError;
    }

    /**
     * The shared shape of `saveServiceRecord`, `saveOperationRecord` and
     * `saveMthUpdate`: try the write when online, queue it otherwise or when it fails.
     */
    method Save(data: Payload, online: bool, remoteOk: bool, id: string, now: string)
      returns (r: SaveResult, sent: seq<RemoteWrite>)
      modifies this`stored, this`events
      ensures sent == (if online then [WriteFor(data)] else [])
      ensures r == SavedOnline <==> online && remoteOk
      ensures r == SavedOnline ==> stored == old(stored) && events == old(events)
      ensures r != SavedOnline ==> (r == SavedOffline <==> writable)
      ensures r == SavedOffline ==> Load(stored) == old(Load(stored)) + [PendingRecord(id, data, now, 0)]
      ensures r == SavedOffline ==> events == old(events) + [PendingChanged(|old(Load(stored))| + 1)]
      ensures r == StorageError ==> stored == old(stored) && events == old(events)
    {
      sent := [];
      if online {
        sent := [WriteFor(data)];
        if remoteOk {
          return SavedOnline, sent;
        }
      }
      r := Enqueue(data, id, now);
    }

    /** `saveServiceRecord`. */
    method SaveServiceRecord(record: Row, online: bool, remoteOk: bool, id: string, now: string)
      returns (r: SaveResult, sent: seq<RemoteWrite>)
      modifies this`stored, this`events
      ensures sent == (if online then [Insert("servisni_zaznamy", record)] else [])
      ensures r == SavedOnline <==> online && remoteOk
      ensures r == SavedOnline ==> stored == old(stored) && events == old(events)
      ensures r != SavedOnline ==> (r == SavedOffline <==> writable)
      ensures r == SavedOffline ==> Load(stored) == old(Load(stored)) + [PendingRecord(id, ServiceRow(record), now, 0)]
      ensures r == SavedOffline ==> events == old(events) + [PendingChanged(|old(Load(stored))| + 1)]
      ensures r == StorageError ==> stored == old(stored) && events == old(events)
    {
      r, sent := Save(ServiceRow(record), online, remoteOk, id, now);
    }

    /** `saveOperationRecord`. */
    method SaveOperationRecord(record: Row, online: bool, remoteOk: bool, id: string, now: string)
      returns (r: SaveResult, sent: seq<RemoteWrite>)
      modifies this`stored, this`events
      ensures sent == (if online then [Insert("provozni_zaznamy", record)] else [])
      ensures r == SavedOnline <==> online && remoteOk
      ensures r == SavedOnline ==> stored == old(stored) && events == old(events)
      ensures r != SavedOnline ==> (r == SavedOffline <==> writable)
      ensures r == SavedOffline ==> Load(stored) == old(Load(stored)) + [PendingRecord(id, OperationRow(record), now, 0)]
      ensures r == SavedOffline ==> events == old(events) + [PendingChanged(|old(Load(stored))| + 1)]
      ensures r == StorageError ==> stored == old(stored) && events == old(events)
    {
      r, sent := Save(OperationRow(record), online, remoteOk, id, now);
    }

    /**
     * `saveMthUpdate`: no check of the new value against the current one happens
     * here; the entry carries the machine id, the value and the time of the call.
     */
    method SaveMthUpdate(machineId: string, newMth: real, online: bool, remoteOk: bool, id: string, now: string)
      returns (r: SaveResult, sent: seq<RemoteWrite>)
      modifies this`stored, this`events
      ensures sent == (if online then [MthWrite(machineId, newMth, now)] else [])
      ensures r == SavedOnline <==> online && remoteOk
      ensures r == SavedOnline ==> stored == old(stored) && events == old(events)
      ensures r != SavedOnline ==> (r == SavedOffline <==> writable)
      ensures r == SavedOffline ==> Load(stored) == old(Load(stored)) + [PendingRecord(id, MthUpdate(machineId, newMth, now), now, 0)]
      ensures r == SavedOffline ==> events == old(events) + [PendingChanged(|old(Load(stored))| + 1)]
      ensures r == StorageError ==> stored == old(stored) && events == old(events)
    {
      r, sent := Save(MthUpdate(machineId, newMth, now), online, remoteOk, id, now);
    }

    /**
     * `syncPendingRecords`: replays every queued entry in order; `ok(i)` is the
     * outcome of the i-th replayed write. An empty queue returns at once and
     * writes nothing back.
     */
    method SyncPendingRecords(ok: nat -> bool) returns (r: SyncResult, writes: seq<RemoteWrite>)
      modifies this`stored, this`events
      ensures var items := Load(old(stored)); var outs := Outcomes(ok, |items|);
        && writes == WritesFor(items)
        && (items == [] ==> r == Synced(0, 0) && stored == old(stored) && events == old(events))
        && (items != [] && writable ==>
              r == Synced(CountOk(outs), CountFailed(outs))
              && Load(stored) == Kept(items, outs)
              && events == old(events) + [PendingChanged(|Kept(items, outs)|)])
        && (items != [] && !writable ==> r == SyncStorageError && stored == old(stored) && events == old(events))
    {
      var items := GetPendingItems();
      if |items| == 0 {
        return Synced(0, 0), [];
      }
      var synced, failed := 0, 0;
      var remaining: seq<PendingRecord> := [];
      writes := [];
      var i := 0;
      while i < |items|
        invariant 0 <= i <= |items|
        invariant writes == WritesFor(items[..i])
        invariant remaining == Kept(items[..i], Outcomes(ok, i))
        invariant synced == CountOk(Outcomes(ok, i)) && failed == CountFailed(Outcomes(ok, i))
        invariant stored == old(stored) && events == old(events)
      {
        var item := items[i];
        writes := writes + [WriteFor(item.data)];
        DrainStep(items, ok, i);
        if ok(i) {
          synced := synced + 1;
        } else {
          item := item.(retries := item.retries + 1);
          if item.retries < MaxRetries {
            remaining := remaining + [item];
          }
          failed := failed + 1;
        }
        i := i + 1;
      }
      assert items[..i] == items;
      var saved := SavePendingItems(remaining);
      r := if saved then Synced(synced, failed) else SyncStorageError;
    }

    /**
     * The `online` listener: drains when anything is queued and announces
     * `sync-complete` when at least one entry was synced; when the queue cannot
     * be written back the drain rejects and nothing is announced.
     */
    method OnOnline(ok: nat -> bool) returns (writes: seq<RemoteWrite>)
      modifies this`stored, this`events
      ensures var items := Load(old(stored)); var outs := Outcomes(ok, |items|);
        && writes == WritesFor(items)
        && (items == [] ==> stored == old(stored) && events == old(events))
        && (items != [] && writable ==>
              Load(stored) == Kept(items, outs)
              && events == old(events) + [PendingChanged(|Kept(items, outs)|)]
                 + (if CountOk(outs) > 0 then [SyncComplete(CountOk(outs), CountFailed(outs))] else []))
        && (items != [] && !writable ==> stored == old(stored) && events == old(events))
    {
      var count := GetPendingCount();
      writes := [];
      if count > 0 {
        var r;
        r, writes := SyncPendingRecords(ok);
        if r.Synced? && r.synced > 0 {
          events := events + [SyncComplete(r.synced, r.failed)];
        }
      }
    }
  }
}
