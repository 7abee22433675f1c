/**
 * Entities shared by the dashboard's pages: the machine, the signed-in user,
 * service records, service intervals, areas, and the remote writes sent to
 * the hosted database (tables `stroje`, `servisni_zaznamy`,
 * `provozni_zaznamy`, `arealy`).
 */
module Domain {
  import opened Common

  /** A column value as the database client receives it; `Object` is a JSON object argument. */
  datatype Value = Null | Num(n: real) | Text(s: string) | Flag(b: bool) | Object(fields: map<string, Value>)

  type Row = map<string, Value>

  /** A nullable number as a column value. */
  function NumValue(x: Option<real>): (v: Value)
    ensures v == Null <==> x.None?
  {
    if x.Some? then Num(x.value) else Null
  }

  /** A nullable string as a column value. */
  function TextValue(s: Option<string>): (v: Value)
    ensures v == Null <==> s.None?
  {
    if s.Some? then Text(s.value) else Null
  }

  /** One request to the hosted database. */
  datatype RemoteWrite =
    | Insert(table: string, row: Row)
    | Update(table: string, id: string, patch: Row)
    | Call(procedure: string, args: Row)

  /** The mowing machine (`stroje`); only the fields the core reads or writes. */
  datatype Machine = Machine(id: string, aktualniMth: real, lastMthUpdate: Option<string>)

  /** The signed-in user. */
  datatype User = User(id: string, email: Option<string>)

  /** The patch that sets a machine's counter and the time of that change. */
  function MthPatch(newMth: real, timestamp: string): Row
  {
    map["aktualni_mth" := Num(newMth), "datum_posledni_aktualizace_mth" := Text(timestamp)]
  }

  /** The write that records a new machine counter value. */
  function MthWrite(machineId: string, newMth: real, timestamp: string): (w: RemoteWrite)
    ensures w.Update? && w.table == "stroje" && w.id == machineId
    ensures "aktualni_mth" in w.patch && w.patch["aktualni_mth"] == Num(newMth)
  {
    Update("stroje", machineId, MthPatch(newMth, timestamp))
  }

  /** A service record (`servisni_zaznamy`) as the pages list and edit it. */
  datatype ServiceRecord = ServiceRecord(
    id: string,
    datum: string,
    mth: real,
    typ: string,
    popis: string,
    provedlOsoba: string,
    provedlaFirma: Option<string>,
    naklady: Option<real>,
    arealId: Option<string>,
    arealNazev: Option<string>,
    intervalId: Option<string>,
    userId: Option<string>)

  /** A service interval (`servisni_intervaly`). */
  datatype ServiceInterval = ServiceInterval(
    id: string,
    nazev: string,
    intervalMth: real,
    prvniServisMth: Option<real>,
    kriticnost: string)

  /**
   * An area (`arealy`). Coordinates are E5 integers; a missing or zero
   * coordinate means the area has no GPS position.
   */
  datatype Area = Area(
    id: string,
    nazev: string,
    typ: string,
    okres: Option<string>,
    lat: Option<int>,
    lng: Option<int>,
    plochaM2: Option<real>,
    obvodM: Option<real>)

  /** `a.gps_latitude && a.gps_longitude`. */
  predicate HasGps(a: Area)
  {
    a.lat.Some? && a.lat.value != 0 && a.lng.Some? && a.lng.value != 0
  }

  /** A position in E5 units. */
  datatype Position = Position(lat: int, lng: int)

  function PositionOf(a: Area): Position
    requires HasGps(a)
  {
    Position(a.lat.value, a.lng.value)
  }
}
