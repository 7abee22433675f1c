/**
 * The dashboard's service-interval overview: for each interval the last
 * service, the next due counter, what is left, the percentage bar and a
 * status with the fixed thresholds 0 and 20 counter hours; the summary
 * counts; and the quick confirmation that records a preventive service
 * at the current counter.
 *
 * `services` is the machine's list of service records as the query returns
 * it, ordered by counter from the highest; an unloaded list behaves as empty.
 */
module IntervalsOverview {
  import opened Common
  import opened Domain
  import opened IntervalRules

  /** `SERVICE_THRESHOLDS`. */
  const WarningThreshold: real := 0.0
  const OkThreshold: real := 20.0

  /** One row of `intervalsWithStatus`. */
  datatype IntervalWithStatus = IntervalWithStatus(
    interval: ServiceInterval,
    lastServiceMth: real,
    remainingMth: real,
    nextServiceMth: real,
    status: Status,
    percentRemaining: Option<real>)

  /** Whether a record belongs to an interval (`servisni_interval_id === interval.id`). */
  function RecordOf(iv: ServiceInterval): ServiceRecord -> bool
  {
    (s: ServiceRecord) => s.intervalId == Some(iv.id)
  }

  /** The counter of the first record for the interval, or 0 without one. */
  function LastServiceMth(iv: ServiceInterval, services: seq<ServiceRecord>): real
  {
    var found := Find(services, RecordOf(iv));
    if found.Some? then found.value.mth else 0.0
  }

  /** In a list ordered by counter from the highest, the first record found is the interval's latest by counter. */
  lemma {:induction false} LastServiceIsMaximum(iv: ServiceInterval, services: seq<ServiceRecord>)
    requires forall i, j :: 0 <= i < j < |services| ==> services[i].mth >= services[j].mth
    ensures forall i :: 0 <= i < |services| && services[i].intervalId == Some(iv.id) ==>
      LastServiceMth(iv, services) == services[FindIndex(services, RecordOf(iv))].mth >= services[i].mth
  {
    var k := FindIndex(services, RecordOf(iv));
    forall i | 0 <= i < |services| && services[i].intervalId == Some(iv.id)
      ensures LastServiceMth(iv, services) == services[k].mth >= services[i].mth
    {
      assert RecordOf(iv)(services[i]);
      assert k != -1;
      assert k <= i;
    }
  }

  /** The overview's status: critical at or below 0 left, warning up to 20 left. */
  function OverviewStatus(remaining: real): (s: Status)
    ensures s == Critical <==> remaining <= WarningThreshold
    ensures s == Warning <==> WarningThreshold < remaining <= OkThreshold
    ensures s == Ok <==> remaining > OkThreshold
  {
    if remaining <= WarningThreshold then Critical
    else if remaining <= OkThreshold then Warning
    else Ok
  }

  function StatusOf(iv: ServiceInterval, services: seq<ServiceRecord>, currentMth: real): (r: IntervalWithStatus)
    ensures r.interval == iv
    ensures r.lastServiceMth == LastServiceMth(iv, services)
    ensures r.nextServiceMth == r.lastServiceMth + EffectiveInterval(r.lastServiceMth, iv)
    ensures r.remainingMth == r.nextServiceMth - currentMth
    ensures r.status == OverviewStatus(r.remainingMth)
    ensures r.percentRemaining == PercentRemaining(r.remainingMth, EffectiveInterval(r.lastServiceMth, iv))
  {
    var last := LastServiceMth(iv, services);
    var eff := EffectiveInterval(last, iv);
    var next := last + eff;
    var remaining := next - currentMth;
    IntervalWithStatus(iv, last, remaining, next, OverviewStatus(remaining), PercentRemaining(remaining, eff))
  }

  /** `intervalsWithStatus`: one row per interval, in the order the intervals came. */
  function IntervalsWithStatus(intervals: Option<seq<ServiceInterval>>, services: seq<ServiceRecord>, currentMth: real)
    : (r: seq<IntervalWithStatus>)
    ensures intervals.None? ==> r == []
    ensures intervals.Some? ==> |r| == |intervals.value|
    ensures intervals.Some? ==> forall i :: 0 <= i < |r| ==> r[i] == StatusOf(intervals.value[i], services, currentMth)
  {
    if intervals.None? then []
    else seq(|intervals.value|, i requires 0 <= i < |intervals.value| => StatusOf(intervals.value[i], services, currentMth))
  }

  /**
   * The first-service rule, restated as "when is the next service due": a
   * machine without a service on record for the interval is due at the first
   * service counter when one is defined, otherwise one interval after the last.
   */
  lemma NextDue(iv: ServiceInterval, services: seq<ServiceRecord>, currentMth: real)
    ensures var r := StatusOf(iv, services, currentMth);
      r.nextServiceMth == (if r.lastServiceMth == 0.0 && TruthyNum(iv.prvniServisMth)
                           then iv.prvniServisMth.value else r.lastServiceMth + iv.intervalMth)
    ensures Find(services, RecordOf(iv)).None? ==> StatusOf(iv, services, currentMth).lastServiceMth == 0.0
  {
  }

  /** The number of rows with a given status (`filter(...).length`). */
  function CountStatus(rows: seq<IntervalWithStatus>, s: Status): (n: nat)
    ensures n <= |rows|
  {
    if rows == [] then 0 else (if rows[0].status == s then 1 else 0) + CountStatus(rows[1..], s)
  }

  /** The three summary counts partition the rows. */
  lemma {:induction false} SummaryPartition(rows: seq<IntervalWithStatus>)
    ensures CountStatus(rows, Ok) + CountStatus(rows, Warning) + CountStatus(rows, Critical) == |rows|
  {
    if rows != [] {
      SummaryPartition(rows[1..]);
    }
  }

  /** The record a quick confirmation inserts. */
  function ConfirmRecord(iv: ServiceInterval, u: User, machineId: string, currentMth: real, today: string): (s: ServiceRecord)
    ensures s.mth == currentMth && s.intervalId == Some(iv.id) && s.typ == "preventivní"
    ensures s.popis == "Rychlé potvrzení: " + iv.nazev
    ensures s.provedlOsoba == (if TruthyText(u.email) then u.email.value else "Neznámý")
  {
    ServiceRecord("", today, currentMth, "preventivní", "Rychlé potvrzení: " + iv.nazev,
                  if TruthyText(u.email) then u.email.value else "Neznámý",
                  None, None, None, None, Some(iv.id), Some(u.id))
  }

  /** The inserted row: the confirmation record's fields with the machine's id. */
  function ConfirmRow(iv: ServiceInterval, u: User, machineId: string, currentMth: real, today: string): (r: Row)
    ensures "mth_pri_servisu" in r && r["mth_pri_servisu"] == Num(currentMth)
    ensures "servisni_interval_id" in r && r["servisni_interval_id"] == Text(iv.id)
    ensures "stroj_id" in r && r["stroj_id"] == Text(machineId)
    ensures "typ_zasahu" in r && r["typ_zasahu"] == Text("preventivní")
    ensures "datum_servisu" in r && r["datum_servisu"] == Text(today)
    ensures "popis" in r && r["popis"] == Text("Rychlé potvrzení: " + iv.nazev)
    ensures "provedl_osoba" in r && r["provedl_osoba"] == Text(if TruthyText(u.email) then u.email.value else "Neznámý")
    ensures "user_id" in r && r["user_id"] == Text(u.id)
  {
    var s := ConfirmRecord(iv, u, machineId, currentMth, today);
    map[
      "stroj_id" := Text(machineId),
      "datum_servisu" := Text(s.datum),
      "mth_pri_servisu" := Num(s.mth),
      "typ_zasahu" := Text(s.typ),
      "popis" := Text(s.popis),
      "provedl_osoba" := Text(s.provedlOsoba),
      "user_id" := Text(u.id),
      "servisni_interval_id" := Text(iv.id)]
  }

  /** The confirmation row has exactly the eight columns the insert names. */
  lemma ConfirmRowColumns(iv: ServiceInterval, u: User, machineId: string, currentMth: real, today: string)
    ensures ConfirmRow(iv, u, machineId, currentMth, today).Keys ==
      {"stroj_id", "datum_servisu", "mth_pri_servisu", "typ_zasahu", "popis", "provedl_osoba", "user_id", "servisni_interval_id"}
  {
  }

  /** `handleConfirmInterval`: needs a user and a non-empty machine id. */
  function ConfirmWrites(iv: ServiceInterval, user: Option<User>, machineId: string, currentMth: real, today: string)
    : (ws: seq<RemoteWrite>)
    ensures ws == [] <==> user.None? || machineId == ""
    ensures ws != [] ==>
      ws == [Insert("servisni_zaznamy", ConfirmRow(iv, user.value, machineId, currentMth, today))]
  {
    if user.None? || machineId == "" then []
    else [Insert("servisni_zaznamy", ConfirmRow(iv, user.value, machineId, currentMth, today))]
  }

  /**
   * A confirmation restarts the interval: once its record heads the list, the
   * interval's last service is the current counter and, for a non-zero
   * counter, one full regular interval is left.
   */
  lemma ConfirmRestartsInterval(iv: ServiceInterval, u: User, machineId: string, currentMth: real, today: string,
                                services: seq<ServiceRecord>)
    requires currentMth != 0.0
    ensures var r := StatusOf(iv, [ConfirmRecord(iv, u, machineId, currentMth, today)] + services, currentMth);
      r.lastServiceMth == currentMth && r.remainingMth == iv.intervalMth
      && r.status == OverviewStatus(iv.intervalMth)
  {
    var list := [ConfirmRecord(iv, u, machineId, currentMth, today)] + services;
    assert RecordOf(iv)(list[0]);
    assert FindIndex(list, RecordOf(iv)) == 0;
  }
}
