/**
 * The new-operation form: the form schema, the counter delta, the row
 * inserted into `provozni_zaznamy`, and the counter update that follows a
 * successful insert when an end counter above the machine's was given.
 *
 * The ISO conversions of the start and end date are given as parameters;
 * `None` is an invalid date, whose conversion throws before the insert.
 */
module NewOperationPage {
  import opened Common
  import opened Domain

  const Modes: seq<string> := ["manuální", "poloautonomní", "autonomní"]
  const RtkStates: seq<string> := ["FIX", "FLOAT", "NONE", "neznámý"]

  /** The form values after the resolver ran. */
  datatype OperationForm = OperationForm(
    arealId: string,
    start: string,
    konec: Option<string>,
    rezim: string,
    sMode: Option<real>,
    mthStart: real,
    mthKonec: Option<real>,
    plocha: Option<real>,
    rtk: string,
    poznamky: Option<string>)

  /** The bounds of `operationSchema`. */
  predicate SchemaValid(f: OperationForm)
  {
    && |f.arealId| >= 1
    && |f.start| >= 1
    && f.rezim in Modes
    && f.mthStart >= 0.0
    && (f.plocha.Some? ==> f.plocha.value >= 0.0)
    && f.rtk in RtkStates
    && (f.poznamky.Some? ==> |f.poznamky.value| <= 1000)
  }

  /**
   * `mth_konec ? mth_konec - mth_start : null`: an end counter of 0 counts
   * as not given, and the delta may be negative, since the schema does not
   * relate the two counters.
   */
  function MthDelta(start: real, konec: Option<real>): (d: Option<real>)
    ensures d.Some? <==> TruthyNum(konec)
    ensures d.Some? ==> d.value + start == konec.value
    ensures d.Some? ==> (d.value >= 0.0 <==> konec.value >= start)
  {
    if TruthyNum(konec) then Some(konec.value - start) else None
  }

  datatype SubmitOutcome =
    | SchemaRejected
    | MissingContext
    | DateError
    | InsertFailed
    | Saved(machineUpdated: bool)

  /** The row inserted into `provozni_zaznamy`: falsy optional values, 0 included, become `null`. */
  function InsertRow(machineId: string, userId: string, f: OperationForm, startIso: string, konecIso: string): (r: Row)
    ensures "mth_delta" in r && "mth_konec" in r && "s_mode" in r && "plocha_obdelana_m2" in r
    ensures "poznamky" in r && "datum_cas_konec" in r && "mth_start" in r
    ensures r["mth_start"] == Num(f.mthStart)
    ensures r["mth_delta"] == NumValue(MthDelta(f.mthStart, f.mthKonec))
    ensures r["mth_konec"] == Null <==> !TruthyNum(f.mthKonec)
    ensures r["s_mode"] == Null <==> !TruthyNum(f.sMode)
    ensures r["plocha_obdelana_m2"] == Null <==> !TruthyNum(f.plocha)
    ensures r["poznamky"] == Null <==> !TruthyText(f.poznamky)
    ensures r["datum_cas_konec"] == (if TruthyText(f.konec) then Text(konecIso) else Null)
  {
    map[
      "stroj_id" := Text(machineId),
      "user_id" := Text(userId),
      "areal_id" := Text(f.arealId),
      "datum_cas_start" := Text(startIso),
      "datum_cas_konec" := if TruthyText(f.konec) then Text(konecIso) else Null,
      "rezim" := Text(f.rezim),
      "s_mode" := NumValue(NumOrNull(f.sMode)),
      "mth_start" := Num(f.mthStart),
      "mth_konec" := NumValue(NumOrNull(f.mthKonec)),
      "mth_delta" := NumValue(MthDelta(f.mthStart, f.mthKonec)),
      "plocha_obdelana_m2" := NumValue(NumOrNull(f.plocha)),
      "rtk_stav" := Text(f.rtk),
      "poznamky" := TextValue(TextOrNull(f.poznamky))]
  }

  /** Whether the submit goes on to update the machine's counter. */
  predicate RaisesCounter(f: OperationForm, m: Machine)
  {
    TruthyNum(f.mthKonec) && f.mthKonec.value > m.aktualniMth
  }

  /**
   * `onSubmit`, preceded by the schema check. `startIso` and `konecIso` are
   * the ISO conversions of the two dates (`None` when the conversion
   * throws); the end date is converted only when it was given.
   */
  method Submit(f: OperationForm, machine: Option<Machine>, user: Option<User>,
                startIso: Option<string>, konecIso: Option<string>, nowIso: string, insertOk: bool)
    returns (outcome: SubmitOutcome, sent: seq<RemoteWrite>)
    ensures !SchemaValid(f) ==> outcome == SchemaRejected
    ensures SchemaValid(f) && (machine.None? || user.None?) ==> outcome == MissingContext
    ensures outcome == DateError <==>
      SchemaValid(f) && machine.Some? && user.Some? && (startIso.None? || (TruthyText(f.konec) && konecIso.None?))
    ensures !(outcome.Saved? || outcome == InsertFailed) ==> sent == []
    ensures outcome.Saved? || outcome == InsertFailed ==>
      && machine.Some? && user.Some? && startIso.Some? && |sent| >= 1
      && sent[0] == Insert("provozni_zaznamy", InsertRow(machine.value.id, user.value.id, f, startIso.value,
                                                         if TruthyText(f.konec) then konecIso.value else ""))
    ensures outcome == InsertFailed ==> !insertOk && |sent| == 1
    ensures outcome.Saved? ==>
      && insertOk
      && (outcome.machineUpdated <==> RaisesCounter(f, machine.value))
      && sent[1..] == (if outcome.machineUpdated then [MthWrite(machine.value.id, f.mthKonec.value, nowIso)] else [])
    // The form never lowers the machine's counter.
    ensures forall i :: 0 <= i < |sent| && sent[i].Update? ==>
      machine.Some? && RaisesCounter(f, machine.value) && sent[i] == MthWrite(machine.value.id, f.mthKonec.value, nowIso)
  {
    sent := [];
    if !SchemaValid(f) {
      return SchemaRejected, sent;
    }
    if machine.None? || user.None? {
      return MissingContext, sent;
    }
    var m := machine.value;
    if startIso.None? || (TruthyText(f.konec) && konecIso.None?) {
      return DateError, sent;
    }
    var endText := if TruthyText(f.konec) then konecIso.value else "";
    sent := [Insert("provozni_zaznamy", InsertRow(m.id, user.value.id, f, startIso.value, endText))];
    if !insertOk {
      return InsertFailed, sent;
    }
    var update := RaisesCounter(f, m);
    if update {
      sent := sent + [MthWrite(m.id, f.mthKonec.value, nowIso)];
    }
    outcome := Saved(update);
  }
}
