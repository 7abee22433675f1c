/**
 * The new-service form: the form schema, the two checks made before the
 * insert (the counter may not fall far below the machine's, the date may not
 * be in the future), the inserted row, and the conditional counter update
 * that follows a successful insert.
 *
 * Dates are given as their parsed instants: `None` is an unparsable date,
 * which compares false against "now" and so passes the future-date check.
 */
module NewServicePage {
  import opened Common
  import opened Domain

  const ServiceTypes: seq<string> := ["preventivní", "oprava", "porucha", "jiné"]

  /** The form values after the resolver ran; optional fields may be missing. */
  datatype ServiceForm = ServiceForm(
    datum: string,
    mth: real,
    typ: string,
    popis: string,
    provedlOsoba: string,
    provedlaFirma: Option<string>,
    arealId: Option<string>,
    intervalId: Option<string>,
    naklady: Option<real>)

  /** The bounds of `serviceSchema`; a form that fails them never reaches the submit handler. */
  predicate SchemaValid(f: ServiceForm)
  {
    && |f.datum| >= 1
    && f.mth >= 0.0
    && f.typ in ServiceTypes
    && 10 <= |f.popis| <= 1000
    && 2 <= |f.provedlOsoba| <= 100
    && (f.provedlaFirma.Some? ==> |f.provedlaFirma.value| <= 100)
    && (f.naklady.Some? ==> f.naklady.value >= 0.0)
  }

  /** The lower bound on the record's counter: 90 % of the machine's counter, strictly. */
  predicate RecordMthAllowed(current: real, mth: real)
  {
    !(mth < current * 0.9)
  }

  /** `new Date(datum) > new Date()`; an invalid date compares false. */
  predicate InFuture(date: Option<int>, now: int)
  {
    date.Some? && date.value > now
  }

  /** How the submit ends, by the toast it shows. */
  datatype SubmitOutcome =
    | SchemaRejected
    | MissingContext
    | MthTooLow
    | FutureDate
    | InsertFailed
    | Saved(machineUpdated: bool)

  /** The row inserted into `servisni_zaznamy`; empty optional fields become `null`. */
  function InsertRow(machineId: string, userId: string, f: ServiceForm): (r: Row)
    ensures "stroj_id" in r && r["stroj_id"] == Text(machineId)
    ensures "user_id" in r && r["user_id"] == Text(userId)
    ensures "datum_servisu" in r && r["datum_servisu"] == Text(f.datum)
    ensures "mth_pri_servisu" in r && r["mth_pri_servisu"] == Num(f.mth)
    ensures "typ_zasahu" in r && r["typ_zasahu"] == Text(f.typ)
    ensures "popis" in r && r["popis"] == Text(f.popis)
    ensures "provedl_osoba" in r && r["provedl_osoba"] == Text(f.provedlOsoba)
    ensures "provedla_firma" in r && r["provedla_firma"] == (if TruthyText(f.provedlaFirma) then Text(f.provedlaFirma.value) else Null)
    ensures "areal_id" in r && r["areal_id"] == (if TruthyText(f.arealId) then Text(f.arealId.value) else Null)
    ensures "servisni_interval_id" in r && r["servisni_interval_id"] == (if TruthyText(f.intervalId) then Text(f.intervalId.value) else Null)
    ensures "naklady" in r && (r["naklady"] == Null <==> !TruthyNum(f.naklady))
    ensures TruthyNum(f.naklady) ==> "naklady" in r && r["naklady"] == Num(f.naklady.value)
  {
    map[
      "stroj_id" := Text(machineId),
      "user_id" := Text(userId),
      "datum_servisu" := Text(f.datum),
      "mth_pri_servisu" := Num(f.mth),
      "typ_zasahu" := Text(f.typ),
      "popis" := Text(f.popis),
      "provedl_osoba" := Text(f.provedlOsoba),
      "provedla_firma" := TextValue(TextOrNull(f.provedlaFirma)),
      "areal_id" := TextValue(TextOrNull(f.arealId)),
      "servisni_interval_id" := TextValue(TextOrNull(f.intervalId)),
      "naklady" := NumValue(NumOrNull(f.naklady))]
  }

  /** The row has exactly the eleven columns of `servisni_zaznamy` that the form fills. */
  lemma InsertRowColumns(machineId: string, userId: string, f: ServiceForm)
    ensures InsertRow(machineId, userId, f).Keys == {"stroj_id", "user_id", "datum_servisu", "mth_pri_servisu", "typ_zasahu", "popis",
                       "provedl_osoba", "provedla_firma", "areal_id", "servisni_interval_id", "naklady"}
  {
  }

  /**
   * `onSubmit`, preceded by the resolver's schema check. `insertOk` is the
   * outcome of the insert; the machine update that may follow is not checked
   * for errors. `sent` lists the writes in the order they are issued.
   */
  method Submit(f: ServiceForm, machine: Option<Machine>, user: Option<User>,
                date: Option<int>, now: int, nowIso: string, insertOk: bool)
    returns (outcome: SubmitOutcome, sent: seq<RemoteWrite>)
    ensures !SchemaValid(f) ==> outcome == SchemaRejected
    ensures SchemaValid(f) && (machine.None? || user.None?) ==> outcome == MissingContext
    ensures SchemaValid(f) && machine.Some? && user.Some? ==>
      && (!RecordMthAllowed(machine.value.aktualniMth, f.mth) ==> outcome == MthTooLow)
      && (RecordMthAllowed(machine.value.aktualniMth, f.mth) && InFuture(date, now) ==> outcome == FutureDate)
    ensures outcome.Saved? || outcome == InsertFailed <==>
      SchemaValid(f) && machine.Some? && user.Some?
      && RecordMthAllowed(machine.value.aktualniMth, f.mth) && !InFuture(date, now)
    ensures !(outcome.Saved? || outcome == InsertFailed) ==> sent == []
    ensures outcome == InsertFailed <==> (outcome.Saved? || outcome == InsertFailed) && !insertOk
    ensures outcome == InsertFailed ==> sent == [Insert("servisni_zaznamy", InsertRow(machine.value.id, user.value.id, f))]
    ensures outcome.Saved? ==>
      && (outcome.machineUpdated <==> f.mth > machine.value.aktualniMth)
      && sent == [Insert("servisni_zaznamy", InsertRow(machine.value.id, user.value.id, f))]
                 + (if outcome.machineUpdated then [MthWrite(machine.value.id, f.mth, nowIso)] else [])
    // The form never lowers the machine's counter: its only update carries a strictly higher value.
    ensures forall i :: 0 <= i < |sent| && sent[i].Update? ==>
      machine.Some? && sent[i] == MthWrite(machine.value.id, f.mth, nowIso) && f.mth > machine.value.aktualniMth
  {
    sent := [];
    if !SchemaValid(f) {
      return SchemaRejected, sent;
    }
    if machine.None? || user.None? {
      return MissingContext, sent;
    }
    var m := machine.value;
    if f.mth < m.aktualniMth * 0.9 {
      return MthTooLow, sent;
    }
    if InFuture(date, now) {
      return FutureDate, sent;
    }
    sent := [Insert("servisni_zaznamy", InsertRow(m.id, user.value.id, f))];
    if !insertOk {
      return InsertFailed, sent;
    }
    var update := f.mth > m.aktualniMth;
    if update {
      sent := sent + [MthWrite(m.id, f.mth, nowIso)];
    }
    outcome := Saved(update);
  }
}
