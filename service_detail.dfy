/**
 * The service-record detail page: who may edit, the edit form and its save,
 * the soft delete with a mandatory reason, and the duplicate that re-records
 * a service at the machine's current counter.
 *
 * Dates are given as parsed instants (`None` for an unparsable date, which
 * never counts as "in the future"); the results of the database calls are
 * boolean parameters and each handler returns the writes it issues.
 */
module ServiceDetailPage {
  import opened Common
  import opened Strings
  import opened Domain

  /** A JavaScript value read through optional chaining: `undefined`, `null` or a string. */
  datatype JsText = Undefined | JsNull | Str(s: string)

  /** `service?.user_id`. */
  function OwnerOf(service: Option<ServiceRecord>): JsText
  {
    if service.None? then Undefined
    else if service.value.userId.None? then JsNull
    else Str(service.value.userId.value)
  }

  /** `user?.id`. */
  function IdOf(user: Option<User>): JsText
  {
    if user.None? then Undefined else Str(user.value.id)
  }

  /** `canEdit`: an admin, a technician, or the owner, compared with `===`. */
  predicate CanEdit(isAdmin: bool, isTechnik: bool, service: Option<ServiceRecord>, user: Option<User>)
  {
    isAdmin || isTechnik || OwnerOf(service) == IdOf(user)
  }

  /** For a loaded record and a signed-in user, only the three roles listed may edit. */
  lemma CanEditLoaded(isAdmin: bool, isTechnik: bool, s: ServiceRecord, u: User)
    ensures CanEdit(isAdmin, isTechnik, Some(s), Some(u)) <==>
      isAdmin || isTechnik || s.userId == Some(u.id)
  {
  }

  /** A record without an owner is editable only by the two roles, whoever is signed in. */
  lemma UnownedNeedsRole(isAdmin: bool, isTechnik: bool, s: ServiceRecord, user: Option<User>)
    requires s.userId.None?
    ensures CanEdit(isAdmin, isTechnik, Some(s), user) <==> isAdmin || isTechnik
  {
  }

  /**
   * With neither a record nor a user loaded, `undefined === undefined` holds,
   * so the edit permission is granted to everyone in that state.
   */
  lemma CanEditBeforeLoad(isAdmin: bool, isTechnik: bool)
    ensures CanEdit(isAdmin, isTechnik, None, None)
  {
  }

  /** The edit form's state. */
  datatype EditData = EditData(
    datum: string,
    mth: real,
    typ: string,
    popis: string,
    provedlOsoba: string,
    provedlaFirma: string,
    naklady: Option<real>,
    intervalId: Option<string>,
    arealId: Option<string>)

  /** The edit form filled from the record; a missing company becomes `''`. */
  function EditDataOf(s: ServiceRecord): (e: EditData)
    ensures e.popis == s.popis && e.mth == s.mth && e.naklady == s.naklady
    ensures e.provedlaFirma == "" <==> !TruthyText(s.provedlaFirma)
  {
    EditData(s.datum, s.mth, s.typ, s.popis, s.provedlOsoba, TextOrEmpty(TextOrNull(s.provedlaFirma)),
             s.naklady, s.intervalId, s.arealId)
  }

  /** The patch a save sends; only the company is turned from `''` into `null`. */
  function EditPatch(e: EditData): (r: Row)
    ensures "provedla_firma" in r && (r["provedla_firma"] == Null <==> e.provedlaFirma == "")
    ensures "naklady" in r && r["naklady"] == NumValue(e.naklady)
    ensures "popis" in r && r["popis"] == Text(e.popis)
  {
    map[
      "datum_servisu" := Text(e.datum),
      "mth_pri_servisu" := Num(e.mth),
      "typ_zasahu" := Text(e.typ),
      "popis" := Text(e.popis),
      "provedl_osoba" := Text(e.provedlOsoba),
      "provedla_firma" := if e.provedlaFirma == "" then Null else Text(e.provedlaFirma),
      "naklady" := NumValue(e.naklady),
      "servisni_interval_id" := TextValue(e.intervalId),
      "areal_id" := TextValue(e.arealId)]
  }

  /**
   * `service as any`: the loaded record with its column names and the joined
   * area name under `arealy`.
   */
  function RecordSnapshot(s: ServiceRecord): Row
  {
    map[
      "id" := Text(s.id),
      "datum_servisu" := Text(s.datum),
      "mth_pri_servisu" := Num(s.mth),
      "typ_zasahu" := Text(s.typ),
      "popis" := Text(s.popis),
      "provedl_osoba" := Text(s.provedlOsoba),
      "provedla_firma" := TextValue(s.provedlaFirma),
      "naklady" := NumValue(s.naklady),
      "areal_id" := TextValue(s.arealId),
      "servisni_interval_id" := TextValue(s.intervalId),
      "user_id" := TextValue(s.userId),
      "arealy" := if s.arealNazev.Some? then Object(map["nazev" := Text(s.arealNazev.value)]) else Null]
  }

  /** The snapshot keeps the record's id, description, counter and company, and its joined area name. */
  lemma RecordSnapshotColumns(s: ServiceRecord)
    ensures var r := RecordSnapshot(s);
      && "id" in r && r["id"] == Text(s.id)
      && "popis" in r && r["popis"] == Text(s.popis)
      && "mth_pri_servisu" in r && r["mth_pri_servisu"] == Num(s.mth)
      && "provedla_firma" in r && r["provedla_firma"] == TextValue(s.provedlaFirma)
      && "arealy" in r && (r["arealy"] == Null <==> s.arealNazev.None?)
  {
  }

  /** `editData as any`: the form state as it is, an empty company staying `''`. */
  function EditSnapshot(e: EditData): Row
  {
    map[
      "datum_servisu" := Text(e.datum),
      "mth_pri_servisu" := Num(e.mth),
      "typ_zasahu" := Text(e.typ),
      "popis" := Text(e.popis),
      "provedl_osoba" := Text(e.provedlOsoba),
      "provedla_firma" := Text(e.provedlaFirma),
      "naklady" := NumValue(e.naklady),
      "servisni_interval_id" := TextValue(e.intervalId),
      "areal_id" := TextValue(e.arealId)]
  }

  /**
   * The audit log's new data and the patch written name the same columns and
   * agree on each, except that an empty company is logged as `''` where the
   * database gets `null`.
   */
  lemma EditSnapshotMatchesPatch(e: EditData)
    ensures EditSnapshot(e).Keys == EditPatch(e).Keys
    ensures forall k :: k in EditPatch(e) && k != "provedla_firma" ==> EditSnapshot(e)[k] == EditPatch(e)[k]
    ensures EditSnapshot(e)["provedla_firma"] == Text(e.provedlaFirma)
    ensures EditSnapshot(e)["provedla_firma"] == EditPatch(e)["provedla_firma"] <==> e.provedlaFirma != ""
  {
  }

  /**
   * The `insert_audit_log` call: the table, the record's id, the kind of
   * change, the record as it was, and the new data of an edit or the reason
   * of a delete.
   */
  function AuditCall(recordId: string, change: string, before: Row, after: Option<Row>, note: Option<string>)
    : (w: RemoteWrite)
    ensures w.Call? && w.procedure == "insert_audit_log"
    ensures "_tabulka" in w.args && w.args["_tabulka"] == Text("servisni_zaznamy")
    ensures "_zaznam_id" in w.args && w.args["_zaznam_id"] == Text(recordId)
    ensures "_typ_zmeny" in w.args && w.args["_typ_zmeny"] == Text(change)
    ensures "_puvodni_data" in w.args && w.args["_puvodni_data"] == Object(before)
    ensures after.Some? ==> "_nova_data" in w.args && w.args["_nova_data"] == Object(after.value)
    ensures note.Some? ==> "_poznamka" in w.args && w.args["_poznamka"] == Text(note.value)
  {
    var base := map["_tabulka" := Text("servisni_zaznamy"), "_zaznam_id" := Text(recordId),
                    "_typ_zmeny" := Text(change), "_puvodni_data" := Object(before)];
    var withNew := if after.Some? then base["_nova_data" := Object(after.value)] else base;
    Call("insert_audit_log", if note.Some? then withNew["_poznamka" := Text(note.value)] else withNew)
  }

  /** The call carries the new data only for an edit and the note only for a delete, and nothing else. */
  lemma AuditCallKeys(recordId: string, change: string, before: Row, after: Option<Row>, note: Option<string>)
    ensures var args := AuditCall(recordId, change, before, after, note).args;
      && ("_nova_data" in args <==> after.Some?)
      && ("_poznamka" in args <==> note.Some?)
      && args.Keys <= {"_tabulka", "_zaznam_id", "_typ_zmeny", "_puvodni_data", "_nova_data", "_poznamka"}
  {
  }

  /** The save is refused for a description under 10 characters or a date in the future. */
  datatype SaveCheck = ShortDescription | FutureDate | SaveAllowed

  function CheckEdit(e: EditData, date: Option<int>, now: int): (c: SaveCheck)
    ensures c == SaveAllowed <==> |e.popis| >= 10 && !(date.Some? && date.value > now)
    ensures c == ShortDescription <==> |e.popis| < 10
  {
    if |e.popis| < 10 then ShortDescription
    else if date.Some? && date.value > now then FutureDate
    else SaveAllowed
  }

  /** The soft-delete patch: the flag, the time, the user and the trimmed reason. */
  function DeletePatch(userId: string, reason: string, nowIso: string): (r: Row)
    ensures "is_deleted" in r && r["is_deleted"] == Flag(true)
    ensures "deleted_by" in r && r["deleted_by"] == Text(userId)
    ensures "deleted_reason" in r && r["deleted_reason"] == Text(Trim(reason))
  {
    map["is_deleted" := Flag(true), "deleted_at" := Text(nowIso), "deleted_by" := Text(userId),
        "deleted_reason" := Text(Trim(reason))]
  }

  /** The soft delete writes exactly these four columns. */
  lemma DeletePatchColumns(userId: string, reason: string, nowIso: string)
    ensures DeletePatch(userId, reason, nowIso).Keys == {"is_deleted", "deleted_at", "deleted_by", "deleted_reason"}
  {
  }

  /**
   * The duplicate: type, description, person, company, interval and area
   * are copied; the date is today and the counter is the machine's.
   */
  function DuplicateRow(s: ServiceRecord, m: Machine, u: User, today: string): (r: Row)
    ensures "mth_pri_servisu" in r && r["mth_pri_servisu"] == Num(m.aktualniMth)
    ensures "datum_servisu" in r && r["datum_servisu"] == Text(today)
    ensures "stroj_id" in r && r["stroj_id"] == Text(m.id)
    ensures "user_id" in r && r["user_id"] == Text(u.id)
    ensures "typ_zasahu" in r && r["typ_zasahu"] == Text(s.typ)
    ensures "popis" in r && r["popis"] == Text(s.popis)
    ensures "provedl_osoba" in r && r["provedl_osoba"] == Text(s.provedlOsoba)
    ensures "provedla_firma" in r && r["provedla_firma"] == TextValue(s.provedlaFirma)
    ensures "servisni_interval_id" in r && r["servisni_interval_id"] == TextValue(s.intervalId)
    ensures "areal_id" in r && r["areal_id"] == TextValue(s.arealId)
  {
    map[
      "stroj_id" := Text(m.id),
      "user_id" := Text(u.id),
      "datum_servisu" := Text(today),
      "mth_pri_servisu" := Num(m.aktualniMth),
      "typ_zasahu" := Text(s.typ),
      "popis" := Text(s.popis),
      "provedl_osoba" := Text(s.provedlOsoba),
      "provedla_firma" := TextValue(s.provedlaFirma),
      "servisni_interval_id" := TextValue(s.intervalId),
      "areal_id" := TextValue(s.arealId)]
  }

  /** The copy has exactly these ten columns: the cost is not copied. */
  lemma DuplicateRowColumns(s: ServiceRecord, m: Machine, u: User, today: string)
    ensures DuplicateRow(s, m, u, today).Keys == {"stroj_id", "user_id", "datum_servisu", "mth_pri_servisu", "typ_zasahu",
                                                  "popis", "provedl_osoba", "provedla_firma", "servisni_interval_id", "areal_id"}
    ensures "naklady" !in DuplicateRow(s, m, u, today)
  {
  }

  class DetailPage {
    var isEditing: bool
    var editData: Option<EditData>
    var saving: bool
    var deleting: bool
    /** The route the page navigated to, if any. */
    var navigatedTo: Option<string>

    constructor ()
      ensures !isEditing && editData.None? && !saving && !deleting && navigatedTo.None?
    {
      isEditing := false;
      editData := None;
      saving := false;
      deleting := false;
      navigatedTo := None;
    }

    /** `startEditing`: without a record nothing happens. */
    method StartEditing(service: Option<ServiceRecord>)
      modifies this`editData, this`isEditing
      ensures service.None? ==> editData == old(editData) && isEditing == old(isEditing)
      ensures service.Some? ==> editData == Some(EditDataOf(service.value)) && isEditing
    {
      if service.Some? {
        editData := Some(EditDataOf(service.value));
        isEditing := true;
      }
    }

    /**
     * `handleSave`: the checks run before any write; the audit entry follows
     * a successful update and its own result is not checked. Edit mode is left
     * only after a successful update.
     */
    method HandleSave(service: Option<ServiceRecord>, user: Option<User>, date: Option<int>, now: int, updateOk: bool)
      returns (sent: seq<RemoteWrite>)
      modifies this`isEditing, this`saving
      ensures editData.None? || service.None? || user.None? || CheckEdit(editData.value, date, now) != SaveAllowed ==>
        sent == [] && isEditing == old(isEditing) && saving == old(saving)
      ensures editData.Some? && service.Some? && user.Some? && CheckEdit(editData.value, date, now) == SaveAllowed ==>
        && !saving
        && sent == [Update("servisni_zaznamy", service.value.id, EditPatch(editData.value))]
                   + (if updateOk then [AuditCall(service.value.id, "editace", RecordSnapshot(service.value),
                                                  Some(EditSnapshot(editData.value)), None)] else [])
        && (updateOk ==> !isEditing)
        && (!updateOk ==> isEditing == old(isEditing))
    {
      sent := [];
      if editData.None? || service.None? || user.None? {
        return;
      }
      if CheckEdit(editData.value, date, now) != SaveAllowed {
        return;
      }
      saving := true;
      sent := [Update("servisni_zaznamy", service.value.id, EditPatch(editData.value))]
              + (if updateOk then [AuditCall(service.value.id, "editace", RecordSnapshot(service.value),
                                             Some(EditSnapshot(editData.value)), None)] else []);
      if updateOk {
        isEditing := false;
      }
      saving := false;
    }

    /**
     * `handleDelete`: a blank reason (after trimming), a missing record or a
     * missing user refuses the delete; an update error keeps the page; success
     * logs the change and returns to the list.
     */
    method HandleDelete(service: Option<ServiceRecord>, user: Option<User>, reason: string, nowIso: string, updateOk: bool)
      returns (sent: seq<RemoteWrite>)
      modifies this`deleting, this`navigatedTo
      ensures service.None? || user.None? || Trim(reason) == "" ==>
        sent == [] && navigatedTo == old(navigatedTo) && deleting == old(deleting)
      ensures service.Some? && user.Some? && Trim(reason) != "" ==>
        && !deleting
        && sent == [Update("servisni_zaznamy", service.value.id, DeletePatch(user.value.id, reason, nowIso))]
                   + (if updateOk then [AuditCall(service.value.id, "smazání", RecordSnapshot(service.value),
                                                  None, Some(Trim(reason)))] else [])
        && navigatedTo == (if updateOk then Some("/servis") else old(navigatedTo))
    {
      sent := [];
      if service.None? || user.None? || Trim(reason) == "" {
        return;
      }
      deleting := true;
      sent := [Update("servisni_zaznamy", service.value.id, DeletePatch(user.value.id, reason, nowIso))]
              + (if updateOk then [AuditCall(service.value.id, "smazání", RecordSnapshot(service.value),
                                             None, Some(Trim(reason)))] else []);
      if updateOk {
        navigatedTo := Some("/servis");
      }
      deleting := false;
    }

    /** `handleDuplicate`: needs a record, a machine and a user. */
    method HandleDuplicate(service: Option<ServiceRecord>, machine: Option<Machine>, user: Option<User>,
                           today: string, insertOk: bool)
      returns (sent: seq<RemoteWrite>)
      modifies this`navigatedTo
      ensures service.None? || machine.None? || user.None? ==> sent == [] && navigatedTo == old(navigatedTo)
      ensures service.Some? && machine.Some? && user.Some? ==>
        sent == [Insert("servisni_zaznamy", DuplicateRow(service.value, machine.value, user.value, today))]
        && navigatedTo == (if insertOk then Some("/servis") else old(navigatedTo))
    {
      sent := [];
      if service.None? || machine.None? || user.None? {
        return;
      }
      sent := [Insert("servisni_zaznamy", DuplicateRow(service.value, machine.value, user.value, today))];
      if insertOk {
        navigatedTo := Some("/servis");
      }
    }
  }
}
