/**
 * The service book page: the search and type filter over the machine's
 * service records, the total cost, the selection of records and their
 * bulk soft deletion.
 *
 * The selection is a JavaScript `Set` of record ids, kept here as a
 * duplicate-free sequence in insertion order (the order a `for … of` loop
 * visits it). The database update of each record is a parameter that says
 * whether it succeeded.
 */
module ServicePage {
  import opened Common
  import opened Strings
  import opened Domain
  import ServiceDetailPage

  // ----------------------------------------------------------------- filters

  /** The search matches the description, the technician or the type, ignoring case; an empty query matches everything. */
  predicate MatchesSearch(s: ServiceRecord, query: string)
  {
    query == ""
    || Contains(Lower(s.popis), Lower(query))
    || Contains(Lower(s.provedlOsoba), Lower(query))
    || Contains(Lower(s.typ), Lower(query))
  }

  /** A record passes the search and the type selector, `"all"` selecting every type. */
  predicate Passes(s: ServiceRecord, query: string, filterTyp: string)
  {
    MatchesSearch(s, query) && (filterTyp == "all" || s.typ == filterTyp)
  }

  /** `filteredServices`: nothing before the records are loaded, then the passing records in list order. */
  function FilteredServices(services: Option<seq<ServiceRecord>>, query: string, filterTyp: string)
    : (r: seq<ServiceRecord>)
    ensures services.None? ==> r == []
    ensures services.Some? ==> forall i :: 0 <= i < |r| ==> r[i] in services.value && Passes(r[i], query, filterTyp)
    ensures services.Some? ==> forall i :: 0 <= i < |services.value| && Passes(services.value[i], query, filterTyp) ==>
      services.value[i] in r
  {
    if services.None? then [] else Filter(services.value, (s: ServiceRecord) => Passes(s, query, filterTyp))
  }

  /** The search ignores case in the query as well: an upper-case query finds a lower-case description. */
  lemma SearchIgnoresCase(s: ServiceRecord, query: string)
    requires Contains(Lower(s.popis), Lower(query))
    ensures MatchesSearch(s, Upper(query)) && MatchesSearch(s, Lower(query))
  {
    LowerUpperLower(query);
    LowerLower(query);
  }

  /** Lowering after raising gives the lowered text. */
  lemma LowerUpperLower(s: string)
    ensures Lower(Upper(s)) == Lower(s)
  {
    forall i | 0 <= i < |s| ensures Lower(Upper(s))[i] == Lower(s)[i] {
      LowerAfterUpperChar(s[i]);
    }
  }

  /** Lowering twice is lowering once. */
  lemma LowerLower(s: string)
    ensures Lower(Lower(s)) == Lower(s)
  {
    forall i | 0 <= i < |s| ensures Lower(Lower(s))[i] == Lower(s)[i] {
      LowerTwiceChar(s[i]);
    }
  }

  lemma LowerAfterUpperChar(c: char)
    ensures LowerChar(UpperChar(c)) == LowerChar(c)
  {
  }

  lemma LowerTwiceChar(c: char)
    ensures LowerChar(LowerChar(c)) == LowerChar(c)
  {
  }

  // ------------------------------------------------------------------- costs

  /** Each record's cost, a missing or zero cost counting 0. */
  function Costs(services: seq<ServiceRecord>): (r: seq<real>)
    ensures |r| == |services|
    ensures forall i :: 0 <= i < |services| ==> r[i] == OrZero(services[i].naklady)
  {
    seq(|services|, i requires 0 <= i < |services| => OrZero(services[i].naklady))
  }

  /** `totalCost`: the sum of the costs, 0 before the records are loaded. */
  function TotalCost(services: Option<seq<ServiceRecord>>): real
  {
    if services.None? then 0.0 else Sum(Costs(services.value))
  }

  /** One more record adds exactly its cost, or nothing when it has none. */
  lemma TotalCostSnoc(services: seq<ServiceRecord>, s: ServiceRecord)
    ensures TotalCost(Some(services + [s])) == TotalCost(Some(services)) + OrZero(s.naklady)
  {
    assert Costs(services + [s]) == Costs(services) + [OrZero(s.naklady)];
    SumAppend(Costs(services), [OrZero(s.naklady)]);
    assert Sum([OrZero(s.naklady)]) == OrZero(s.naklady) + Sum([]);
  }

  /** With the form's non-negative costs the total is never negative. */
  lemma {:induction false} TotalCostNonNegative(services: seq<ServiceRecord>)
    requires forall i :: 0 <= i < |services| ==> OrZero(services[i].naklady) >= 0.0
    ensures TotalCost(Some(services)) >= 0.0
    decreases |services|
  {
    if services != [] {
      var front := services[..|services| - 1];
      assert services == front + [services[|services| - 1]];
      TotalCostNonNegative(front);
      TotalCostSnoc(front, services[|services| - 1]);
    } else {
      assert Costs(services) == [];
    }
  }

  // --------------------------------------------------------------- selection

  /** The ids other than `id`, in order. */
  function Without(sel: seq<string>, id: string): (r: seq<string>)
    ensures forall x :: x in r <==> x in sel && x != id
    ensures NoDup(sel) ==> NoDup(r)
    decreases |sel|
  {
    if sel == [] then []
    else if sel[0] == id then Without(sel[1..], id)
    else
      var rest := Without(sel[1..], id);
      assert sel[0] !in sel[1..] ==> sel[0] !in rest;
      if NoDup(sel) then
        assert forall i :: 0 < i < |sel| ==> sel[i] != sel[0];
        [sel[0]] + rest
      else [sel[0]] + rest
  }

  /** An id that is not there leaves the selection as it is. */
  lemma {:induction false} WithoutAbsent(sel: seq<string>, id: string)
    requires id !in sel
    ensures Without(sel, id) == sel
    decreases |sel|
  {
    if sel != [] {
      WithoutAbsent(sel[1..], id);
      assert sel == [sel[0]] + sel[1..];
    }
  }

  /** `toggleSelect`: `id` is removed when selected and added at the end when not. */
  function Toggle(sel: seq<string>, id: string): (r: seq<string>)
    ensures id in r <==> id !in sel
    ensures forall x :: x != id ==> (x in r <==> x in sel)
    ensures NoDup(sel) ==> NoDup(r)
  {
    if id in sel then Without(sel, id) else sel + [id]
  }

  /** Toggling twice selects the same ids; when the id was not selected it is the very same selection in the same order. */
  lemma ToggleTwice(sel: seq<string>, id: string)
    ensures forall x :: x in Toggle(Toggle(sel, id), id) <==> x in sel
    ensures id !in sel ==> Toggle(Toggle(sel, id), id) == sel
  {
    if id !in sel {
      WithoutAbsent(sel, id);
      assert Without(sel + [id], id) == Without(sel, id) by {
        WithoutSnoc(sel, id);
      }
    }
  }

  /** Removing the id that was just appended. */
  lemma {:induction false} WithoutSnoc(sel: seq<string>, id: string)
    ensures Without(sel + [id], id) == Without(sel, id)
    decreases |sel|
  {
    if sel == [] {
      assert Without([id], id) == Without([], id);
    } else {
      assert (sel + [id])[1..] == sel[1..] + [id];
      WithoutSnoc(sel[1..], id);
    }
  }

  /** The records' ids, in order. */
  function Ids(services: seq<ServiceRecord>): (r: seq<string>)
    ensures |r| == |services|
    ensures forall i :: 0 <= i < |services| ==> r[i] == services[i].id
  {
    seq(|services|, i requires 0 <= i < |services| => services[i].id)
  }

  /** `new Set(ids)` after the ids in `seen`: duplicates dropped, first occurrence first. */
  function IdSet(ids: seq<string>, seen: seq<string>): (r: seq<string>)
    requires NoDup(seen)
    ensures NoDup(r)
    ensures forall x :: x in r <==> x in seen || x in ids
    decreases |ids|
  {
    if ids == [] then seen
    else
      var next := if ids[0] in seen then seen else seen + [ids[0]];
      assert NoDup(next) by {
        if ids[0] !in seen {
          NoDupAppend(seen, [ids[0]]);
        }
      }
      assert forall x :: x in ids <==> x == ids[0] || x in ids[1..] by {
        assert ids == [ids[0]] + ids[1..];
      }
      IdSet(ids[1..], next)
  }

  /** Distinct ids are all kept. */
  lemma {:induction false} IdSetOfDistinct(ids: seq<string>, seen: seq<string>)
    requires NoDup(seen) && NoDup(ids)
    requires forall x :: x in ids ==> x !in seen
    ensures |IdSet(ids, seen)| == |seen| + |ids|
    decreases |ids|
  {
    if ids != [] {
      var next := seen + [ids[0]];
      NoDupAppend(seen, [ids[0]]);
      assert forall x :: x in ids[1..] ==> x != ids[0] by {
        forall x | x in ids[1..] ensures x != ids[0] {
          var k :| 0 <= k < |ids[1..]| && ids[1..][k] == x;
          assert ids[k + 1] == x;
        }
      }
      IdSetOfDistinct(ids[1..], next);
    }
  }

  /**
   * `toggleSelectAll`: a selection as large as the filtered list is
   * cleared; otherwise the selection becomes the filtered ids.
   */
  function SelectAll(sel: seq<string>, filtered: seq<ServiceRecord>): (r: seq<string>)
    ensures |sel| == |filtered| ==> r == []
    ensures |sel| != |filtered| ==> forall x :: x in r <==> x in Ids(filtered)
    ensures NoDup(r)
  {
    if |sel| == |filtered| then [] else IdSet(Ids(filtered), [])
  }

  /** With distinct record ids, pressing select-all twice from a partial selection clears it. */
  lemma SelectAllTwice(sel: seq<string>, filtered: seq<ServiceRecord>)
    requires NoDup(Ids(filtered))
    requires |sel| != |filtered|
    ensures SelectAll(SelectAll(sel, filtered), filtered) == []
  {
    IdSetOfDistinct(Ids(filtered), []);
  }

  // ------------------------------------------------------------- bulk delete

  /** `find(s => s.id === id)`: the first record with that id. */
  function FirstWithId(records: seq<ServiceRecord>, id: string): Option<ServiceRecord>
  {
    if records == [] then None
    else if records[0].id == id then Some(records[0])
    else FirstWithId(records[1..], id)
  }

  /** The loaded record `handleBulkDelete` finds for an id, if any. */
  function Lookup(services: Option<seq<ServiceRecord>>, id: string): Option<ServiceRecord>
  {
    if services.Some? then FirstWithId(services.value, id) else None
  }

  /** `services.find(s => s.id === id)` finds a loaded record. */
  predicate Known(services: Option<seq<ServiceRecord>>, id: string)
  {
    Lookup(services, id).Some?
  }

  /** The ids a write is attempted for. */
  function KnownIn(services: Option<seq<ServiceRecord>>): string -> bool
  {
    (id: string) => Known(services, id)
  }

  /** The ids whose write succeeds. */
  function DeletedIn(services: Option<seq<ServiceRecord>>, writeOk: string -> bool): string -> bool
  {
    (id: string) => Known(services, id) && writeOk(id)
  }

  /** The audit entry of one deleted record: kind `smazání`, the record as it was loaded, and the reason as its note. */
  function BulkAudit(record: ServiceRecord, note: string): RemoteWrite
  {
    ServiceDetailPage.AuditCall(record.id, "smazání", ServiceDetailPage.RecordSnapshot(record), None, Some(note))
  }

  /**
   * The loop of `handleBulkDelete`: an id without a loaded record is
   * skipped, a failed write is passed over, and each success is counted and
   * audited with the entry `auditOf` builds from the record found by its id.
   */
  method DeleteEach(ids: seq<string>, services: Option<seq<ServiceRecord>>, writeOk: string -> bool,
                    auditOf: ServiceRecord -> RemoteWrite)
    returns (written: seq<string>, audited: seq<string>, records: seq<ServiceRecord>, audits: seq<RemoteWrite>, successCount: nat)
    ensures written == Filter(ids, KnownIn(services))
    ensures audited == Filter(ids, DeletedIn(services, writeOk))
    ensures successCount == |audited| == |records| == |audits|
    ensures forall k :: 0 <= k < |audited| ==> Lookup(services, audited[k]) == Some(records[k])
    ensures forall k :: 0 <= k < |audits| ==> audits[k] == auditOf(records[k])
  {
    written, audited, records, audits, successCount := [], [], [], [], 0;
    for i := 0 to |ids|
      invariant written == Filter(ids[..i], KnownIn(services))
      invariant audited == Filter(ids[..i], DeletedIn(services, writeOk))
      invariant successCount == |audited| == |records| == |audits|
      invariant forall k :: 0 <= k < |audited| ==> Lookup(services, audited[k]) == Some(records[k])
      invariant forall k :: 0 <= k < |audits| ==> audits[k] == auditOf(records[k])
    {
      assert ids[..i + 1] == ids[..i] + [ids[i]];
      FilterSnoc(ids[..i], ids[i], KnownIn(services));
      FilterSnoc(ids[..i], ids[i], DeletedIn(services, writeOk));
      var service := Lookup(services, ids[i]);
      if service.Some? {
        written := written + [ids[i]];
        if writeOk(ids[i]) {
          successCount := successCount + 1;
          audits := audits + [auditOf(service.value)];
          records := records + [service.value];
          audited := audited + [ids[i]];
        }
      }
    }
    assert ids[..|ids|] == ids;
  }

  /** A known id is one some loaded record carries. */
  lemma KnownIff(services: Option<seq<ServiceRecord>>, id: string)
    ensures Known(services, id) <==> services.Some? && exists i :: 0 <= i < |services.value| && services.value[i].id == id
  {
    if services.Some? {
      FirstWithIdMeaning(services.value, id);
    }
  }

  /** The record found is the first one carrying the id, and none is found exactly when none carries it. */
  lemma {:induction false} FirstWithIdMeaning(records: seq<ServiceRecord>, id: string)
    ensures FirstWithId(records, id).None? <==> forall i :: 0 <= i < |records| ==> records[i].id != id
    ensures FirstWithId(records, id).Some? ==>
      exists i :: 0 <= i < |records| && records[i] == FirstWithId(records, id).value
        && records[i].id == id && forall j :: 0 <= j < i ==> records[j].id != id
  {
    if records != [] && records[0].id != id {
      FirstWithIdMeaning(records[1..], id);
      if FirstWithId(records, id).Some? {
        var i :| 0 <= i < |records[1..]| && records[1..][i] == FirstWithId(records, id).value
          && records[1..][i].id == id && forall j :: 0 <= j < i ==> records[1..][j].id != id;
        assert records[i + 1] == records[1..][i];
        assert forall j :: 0 <= j < i + 1 ==> records[j].id != id by {
          forall j | 0 <= j < i + 1 ensures records[j].id != id {
            if j > 0 { assert records[j] == records[1..][j - 1]; }
          }
        }
      } else {
        forall i | 0 <= i < |records| ensures records[i].id != id {
          if i > 0 { assert records[i] == records[1..][i - 1]; }
        }
      }
    } else if records != [] {
      assert records[0] == FirstWithId(records, id).value;
    }
  }

  /** The soft-delete update written to every record. */
  datatype SoftDelete = SoftDelete(deletedBy: string, reason: string, deletedAt: string)

  /** The page's selection and delete dialog. */
  class Page {
    var selected: seq<string>
    var showDialog: bool
    var reason: string
    var deleting: bool

    /** The selection holds each id once, like a `Set`. */
    predicate Valid()
      reads this
    {
      NoDup(selected)
    }

    constructor ()
      ensures selected == [] && !showDialog && reason == "" && !deleting && Valid()
    {
      selected := [];
      showDialog := false;
      reason := "";
      deleting := false;
    }

    method ToggleSelect(id: string)
      requires Valid()
      modifies this
      ensures Valid()
      ensures selected == Toggle(old(selected), id)
      ensures showDialog == old(showDialog) && reason == old(reason) && deleting == old(deleting)
    {
      selected := Toggle(selected, id);
    }

    method ToggleSelectAll(filtered: seq<ServiceRecord>)
      modifies this
      ensures Valid()
      ensures selected == SelectAll(old(selected), filtered)
      ensures showDialog == old(showDialog) && reason == old(reason) && deleting == old(deleting)
    {
      selected := SelectAll(selected, filtered);
    }

    /**
     * `handleBulkDelete`: refused without a user, a reason or a selection;
     * otherwise each selected id of a loaded record is written in selection
     * order, a failed write is skipped, the successful ones are counted and
     * audited with the trimmed reason, and the selection, dialog and reason
     * are reset.
     */
    method BulkDelete(user: Option<User>, services: Option<seq<ServiceRecord>>, now: string, writeOk: string -> bool)
      returns (written: seq<string>, patch: Option<SoftDelete>, audited: seq<string>, records: seq<ServiceRecord>,
               audits: seq<RemoteWrite>, successCount: nat)
      modifies this
      ensures user.None? || Trim(old(reason)) == "" || |old(selected)| == 0 ==>
        written == [] && patch.None? && audited == [] && records == [] && audits == [] && successCount == 0
        && selected == old(selected) && showDialog == old(showDialog) && reason == old(reason) && deleting == old(deleting)
      ensures user.Some? && Trim(old(reason)) != "" && |old(selected)| > 0 ==>
        written == Filter(old(selected), KnownIn(services))
        && patch == Some(SoftDelete(user.value.id, Trim(old(reason)), now))
        && audited == Filter(old(selected), DeletedIn(services, writeOk))
        && successCount == |audited| == |records| == |audits|
        && selected == [] && !showDialog && reason == "" && !deleting
      ensures forall k :: 0 <= k < |audited| && k < |records| ==> Lookup(services, audited[k]) == Some(records[k])
      ensures forall k :: 0 <= k < |audits| && k < |records| ==> audits[k] == BulkAudit(records[k], Trim(old(reason)))
    {
      var why := Trim(reason);
      if user.None? || why == "" || |selected| == 0 {
        return [], None, [], [], [], 0;
      }
      deleting := true;
      patch := Some(SoftDelete(user.value.id, why, now));
      written, audited, records, audits, successCount :=
        DeleteEach(selected, services, writeOk, (r: ServiceRecord) => BulkAudit(r, why));
      selected := [];
      showDialog := false;
      reason := "";
      deleting := false;
    }
  }

  /** An id is audited exactly when it was written and its write succeeded. */
  lemma AuditedWereWritten(sel: seq<string>, services: Option<seq<ServiceRecord>>, writeOk: string -> bool, x: string)
    ensures x in Filter(sel, DeletedIn(services, writeOk)) <==> x in Filter(sel, KnownIn(services)) && writeOk(x)
  {
    if x in Filter(sel, KnownIn(services)) && writeOk(x) {
      var k :| 0 <= k < |Filter(sel, KnownIn(services))| && Filter(sel, KnownIn(services))[k] == x;
      var j :| 0 <= j < |sel| && sel[j] == x;
    }
    if x in Filter(sel, DeletedIn(services, writeOk)) {
      var k :| 0 <= k < |Filter(sel, DeletedIn(services, writeOk))| && Filter(sel, DeletedIn(services, writeOk))[k] == x;
      var j :| 0 <= j < |sel| && sel[j] == x;
    }
  }

  /** The successes never outnumber the written ids, nor those the selected ones. */
  lemma SuccessesBounded(sel: seq<string>, services: Option<seq<ServiceRecord>>, writeOk: string -> bool)
    ensures |Filter(sel, DeletedIn(services, writeOk))| <= |Filter(sel, KnownIn(services))| <= |sel|
  {
    FilterSubLength(sel, DeletedIn(services, writeOk), KnownIn(services));
  }

  /** A stronger filter keeps no more elements. */
  lemma {:induction false} FilterSubLength<T>(s: seq<T>, p: T -> bool, q: T -> bool)
    requires forall x :: p(x) ==> q(x)
    ensures |Filter(s, p)| <= |Filter(s, q)|
    decreases |s|
  {
    if s != [] {
      assert s == s[..|s| - 1] + [s[|s| - 1]];
      FilterSnoc(s[..|s| - 1], s[|s| - 1], p);
      FilterSnoc(s[..|s| - 1], s[|s| - 1], q);
      FilterSubLength(s[..|s| - 1], p, q);
    } else {
      assert Filter(s, p) == [];
    }
  }
}
