/**
 * The notification centre: one notification per interval that is overdue or
 * close to due, critical ones first, minus the ones the user dismissed.
 *
 * Unlike the overview, the base of an interval without a service on record
 * is its first-service counter (`??`, so 0 is kept), and the next service is
 * due one full interval after that base. A dismissal is keyed by the
 * interval and the base, so a new service record re-arms it. The key is kept
 * as a pair rather than as the text `"<id>_<base>"`.
 */
module NotificationCenter {
  import opened Common
  import opened Domain

  datatype NoticeKind = CriticalNotice | WarningNotice

  datatype DismissKey = DismissKey(intervalId: string, base: real)

  datatype Notice = Notice(id: string, key: DismissKey, kind: NoticeKind, title: string, remaining: real)

  /** The interval's base: the first record's counter, else the first-service counter, else 0. */
  function NotificationBase(iv: ServiceInterval, services: seq<ServiceRecord>): real
  {
    var found := Find(services, (s: ServiceRecord) => s.intervalId == Some(iv.id));
    if found.Some? then found.value.mth else Coalesce(iv.prvniServisMth, 0.0)
  }

  /** The notification for one interval, if any. */
  function NoticeFor(iv: ServiceInterval, services: seq<ServiceRecord>, currentMth: real): (r: Option<Notice>)
    ensures var remaining := NotificationBase(iv, services) + iv.intervalMth - currentMth;
      && (r.Some? && r.value.kind == CriticalNotice <==> remaining <= 0.0)
      && (r.Some? && r.value.kind == WarningNotice <==> 0.0 < remaining <= iv.intervalMth * 0.2)
      && (r.Some? ==> r.value.id == iv.id && r.value.key == DismissKey(iv.id, NotificationBase(iv, services))
                      && r.value.title == iv.nazev && r.value.remaining == remaining)
  {
    var base := NotificationBase(iv, services);
    var remaining := base + iv.intervalMth - currentMth;
    var key := DismissKey(iv.id, base);
    if remaining <= 0.0 then Some(Notice(iv.id, key, CriticalNotice, iv.nazev, remaining))
    else if remaining <= iv.intervalMth * 0.2 then Some(Notice(iv.id, key, WarningNotice, iv.nazev, remaining))
    else None
  }

  function OptionToSeq<T>(o: Option<T>): (s: seq<T>)
    ensures |s| <= 1 && (s == [] <==> o.None?)
    ensures o.Some? ==> s == [o.value]
  {
    if o.Some? then [o.value] else []
  }

  /** The notifications in interval order, before sorting. */
  function Notices(intervals: seq<ServiceInterval>, services: seq<ServiceRecord>, currentMth: real): (r: seq<Notice>)
    ensures |r| <= |intervals|
    decreases |intervals|
  {
    if intervals == [] then []
    else
      var n := |intervals| - 1;
      Notices(intervals[..n], services, currentMth) + OptionToSeq(NoticeFor(intervals[n], services, currentMth))
  }

  /** Every notification is the notification of one of the listed intervals. */
  lemma {:induction false} NoticesFromIntervals(intervals: seq<ServiceInterval>, services: seq<ServiceRecord>, currentMth: real)
    ensures forall k :: 0 <= k < |Notices(intervals, services, currentMth)| ==>
      exists i :: 0 <= i < |intervals| && NoticeFor(intervals[i], services, currentMth) == Some(Notices(intervals, services, currentMth)[k])
    decreases |intervals|
  {
    if intervals != [] {
      var n := |intervals| - 1;
      var init := intervals[..n];
      NoticesFromIntervals(init, services, currentMth);
      var r := Notices(intervals, services, currentMth);
      var a := Notices(init, services, currentMth);
      var last := OptionToSeq(NoticeFor(intervals[n], services, currentMth));
      assert r == a + last;
      forall k | 0 <= k < |r|
        ensures exists i :: 0 <= i < |intervals| && NoticeFor(intervals[i], services, currentMth) == Some(r[k])
      {
        if k < |a| {
          assert r[k] == a[k];
          var i :| 0 <= i < |init| && NoticeFor(init[i], services, currentMth) == Some(a[k]);
          assert intervals[i] == init[i];
        } else {
          assert r[k] == last[k - |a|] && last == [NoticeFor(intervals[n], services, currentMth).value];
          assert NoticeFor(intervals[n], services, currentMth) == Some(r[k]);
          assert 0 <= n < |intervals|;
        }
      }
      assert forall k :: 0 <= k < |r| ==>
        exists i :: 0 <= i < |intervals| && NoticeFor(intervals[i], services, currentMth) == Some(r[k]);
    } else {
      assert Notices(intervals, services, currentMth) == [];
    }
  }

  predicate IsCritical(n: Notice)
  {
    n.kind == CriticalNotice
  }

  predicate IsWarning(n: Notice)
  {
    n.kind == WarningNotice
  }

  /** The stable sort with "critical before anything else": a stable partition. */
  function CriticalFirst(ns: seq<Notice>): seq<Notice>
  {
    Filter(ns, IsCritical) + Filter(ns, IsWarning)
  }

  /** Sorting only reorders. */
  lemma CriticalFirstPermutation(ns: seq<Notice>)
    ensures multiset(CriticalFirst(ns)) == multiset(ns)
  {
    FilterPartition(ns, IsCritical, IsWarning);
  }

  /** After sorting no warning comes before a critical notification. */
  lemma CriticalFirstOrdered(ns: seq<Notice>)
    ensures forall i, j :: 0 <= i < j < |CriticalFirst(ns)| && IsCritical(CriticalFirst(ns)[j]) ==>
      IsCritical(CriticalFirst(ns)[i])
  {
    var c, w := Filter(ns, IsCritical), Filter(ns, IsWarning);
    assert forall j :: |c| <= j < |c + w| ==> (c + w)[j] == w[j - |c|];
  }

  /**
   * `allNotifications`: nothing without the intervals or a machine; otherwise
   * a loop over the intervals pushing at most one notification each, then the sort.
   */
  method AllNotifications(intervals: Option<seq<ServiceInterval>>, services: seq<ServiceRecord>, machine: Option<Machine>)
    returns (result: seq<Notice>)
    ensures intervals.None? || machine.None? ==> result == []
    ensures intervals.Some? && machine.Some? ==>
      result == CriticalFirst(Notices(intervals.value, services, machine.value.aktualniMth))
  {
    if intervals.None? || machine.None? {
      return [];
    }
    var ivs := intervals.value;
    var currentMth := machine.value.aktualniMth;
    var notifs: seq<Notice> := [];
    var i := 0;
    while i < |ivs|
      invariant 0 <= i <= |ivs|
      invariant notifs == Notices(ivs[..i], services, currentMth)
    {
      var iv := ivs[i];
      var base := NotificationBase(iv, services);
      var remaining := base + iv.intervalMth - currentMth;
      var key := DismissKey(iv.id, base);
      if remaining <= 0.0 {
        notifs := notifs + [Notice(iv.id, key, CriticalNotice, iv.nazev, remaining)];
      } else if remaining <= iv.intervalMth * 0.2 {
        notifs := notifs + [Notice(iv.id, key, WarningNotice, iv.nazev, remaining)];
      }
      assert ivs[..i + 1][..i] == ivs[..i];
      i := i + 1;
    }
    assert ivs[..i] == ivs;
    result := CriticalFirst(notifs);
  }

  /** The notifications shown: those whose key was not dismissed. */
  function Visible(all: seq<Notice>, dismissed: seq<DismissKey>): (r: seq<Notice>)
    ensures forall i :: 0 <= i < |r| ==> r[i].key !in dismissed
  {
    Filter(all, (n: Notice) => n.key !in dismissed)
  }

  /** The Set after `add`: insertion order is kept and a present key is not added again. */
  function AddKey(keys: seq<DismissKey>, k: DismissKey): (r: seq<DismissKey>)
    ensures NoDup(keys) ==> NoDup(r)
    ensures k in r && forall x :: x in r <==> x in keys || x == k
  {
    if k in keys then keys else keys + [k]
  }

  lemma DismissIdempotent(keys: seq<DismissKey>, k: DismissKey)
    ensures AddKey(AddKey(keys, k), k) == AddKey(keys, k)
  {
  }

  /** Dismissing a key hides exactly the notifications with that key. */
  lemma {:induction false} DismissHides(all: seq<Notice>, dismissed: seq<DismissKey>, k: DismissKey)
    ensures Visible(all, AddKey(dismissed, k)) == Filter(Visible(all, dismissed), (n: Notice) => n.key != k)
  {
    if all != [] {
      var d := AddKey(dismissed, k);
      var x := all[0];
      DismissHides(all[1..], dismissed, k);
      assert Visible(all, d) == (if x.key !in d then [x] else []) + Visible(all[1..], d);
      assert Visible(all, dismissed) == (if x.key !in dismissed then [x] else []) + Visible(all[1..], dismissed);
      FilterAppend(if x.key !in dismissed then [x] else [], Visible(all[1..], dismissed), (n: Notice) => n.key != k);
    }
  }

  /** A set built from a list: the first occurrence of each element, in order. */
  function Dedup(s: seq<DismissKey>): (r: seq<DismissKey>)
    ensures NoDup(r)
    ensures forall x :: x in r <==> x in s
    decreases |s|
  {
    if s == [] then [] else AddKey(Dedup(s[..|s| - 1]), s[|s| - 1])
  }

  /** What `localStorage` holds under `dismissed-notifications`. */
  datatype StoredKeys = NothingStored | Unreadable | KeyList(keys: seq<DismissKey>)

  /** `getDismissedKeys`: no value, an empty value or a value that does not parse give the empty set. */
  function LoadKeys(stored: StoredKeys): (r: seq<DismissKey>)
    ensures NoDup(r)
    ensures !stored.KeyList? ==> r == []
    ensures stored.KeyList? ==> forall x :: x in r <==> x in stored.keys
  {
    if stored.KeyList? then Dedup(stored.keys) else []
  }

  class NotificationState {
    var stored: StoredKeys
    /** The `dismissedKeys` Set, in insertion order. */
    var dismissed: seq<DismissKey>

    constructor (initial: StoredKeys)
      ensures stored == initial && dismissed == LoadKeys(initial)
    {
      stored := initial;
      dismissed := LoadKeys(initial);
    }

    /** `dismiss`: add the key and persist the whole set. */
    method Dismiss(k: DismissKey)
      modifies this
      ensures dismissed == AddKey(old(dismissed), k)
      ensures stored == KeyList(dismissed)
    {
      dismissed := AddKey(dismissed, k);
      stored := KeyList(dismissed);
    }
  }

  /** Reloading what `dismiss` persisted gives back the same set. */
  lemma PersistRoundTrip(keys: seq<DismissKey>)
    requires NoDup(keys)
    ensures forall x :: x in LoadKeys(KeyList(keys)) <==> x in keys
  {
  }
}
