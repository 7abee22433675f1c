/**
 * The interval part of the assistant's context text. The last service of an
 * interval is found by name, not by id: the first of the ten most recent
 * records (newest first) whose lower-cased description contains the
 * lower-cased interval name. Each interval gives one status line; the line
 * is kept structured, since its text formats numbers with `toFixed(0)`.
 */
module ContextBuilder {
  import opened Common
  import opened Strings
  import opened Domain
  import opened IntervalRules

  /** The query's `limit(10)`. */
  const RecentLimit: nat := 10

  /** The ten most recent records of a list ordered newest first. */
  function Recent(services: seq<ServiceRecord>): (r: seq<ServiceRecord>)
    ensures |r| == if |services| < RecentLimit then |services| else RecentLimit
    ensures r == services[..|r|]
  {
    if |services| < RecentLimit then services else services[..RecentLimit]
  }

  /** `s.popis?.toLowerCase().includes(interval.nazev.toLowerCase())`. */
  function MentionsInterval(iv: ServiceInterval): ServiceRecord -> bool
  {
    (s: ServiceRecord) => Contains(Lower(s.popis), Lower(iv.nazev))
  }

  /** One line of `intervalStatus`. */
  datatype StatusLine = StatusLine(
    nazev: string,
    intervalMth: real,
    firstService: Option<real>,
    remaining: real,
    kriticnost: string)

  /** The record's counter (`|| 0`) of the first recent record mentioning the interval. */
  function ContextLastMth(iv: ServiceInterval, services: seq<ServiceRecord>): real
  {
    var found := Find(Recent(services), MentionsInterval(iv));
    if found.Some? then found.value.mth else 0.0
  }

  function LineFor(iv: ServiceInterval, services: seq<ServiceRecord>, machine: Option<Machine>): (l: StatusLine)
    ensures l.nazev == iv.nazev && l.intervalMth == iv.intervalMth && l.kriticnost == iv.kriticnost
    ensures l.firstService.Some? <==> TruthyNum(iv.prvniServisMth)
    ensures l.firstService.Some? ==> l.firstService == iv.prvniServisMth
    ensures var last := ContextLastMth(iv, services);
      l.remaining == last + EffectiveInterval(last, iv) - (if machine.Some? then machine.value.aktualniMth else 0.0)
  {
    var last := ContextLastMth(iv, services);
    var eff := EffectiveInterval(last, iv);
    var current := if machine.Some? then machine.value.aktualniMth else 0.0;
    StatusLine(iv.nazev, iv.intervalMth, if TruthyNum(iv.prvniServisMth) then iv.prvniServisMth else None,
               last + eff - current, iv.kriticnost)
  }

  /** Exactly one line per interval, in the order of the query. */
  function IntervalLines(intervals: seq<ServiceInterval>, services: seq<ServiceRecord>, machine: Option<Machine>)
    : (r: seq<StatusLine>)
    ensures |r| == |intervals|
    ensures forall i :: 0 <= i < |r| ==> r[i] == LineFor(intervals[i], services, machine) && r[i].nazev == intervals[i].nazev
  {
    seq(|intervals|, i requires 0 <= i < |intervals| => LineFor(intervals[i], services, machine))
  }

  /** Records older than the ten most recent never influence a line. */
  lemma OnlyRecentRecordsCount(iv: ServiceInterval, services: seq<ServiceRecord>, older: seq<ServiceRecord>, machine: Option<Machine>)
    requires |services| >= RecentLimit
    ensures LineFor(iv, services + older, machine) == LineFor(iv, services, machine)
  {
    assert Recent(services + older) == Recent(services);
  }

  /** A record mentioning the interval by name counts whatever interval it was filed under. */
  lemma MatchedByName(iv: ServiceInterval, s: ServiceRecord, rest: seq<ServiceRecord>)
    requires Contains(Lower(s.popis), Lower(iv.nazev))
    ensures ContextLastMth(iv, [s] + rest) == s.mth
  {
    var list := Recent([s] + rest);
    assert list[0] == s;
    assert MentionsInterval(iv)(list[0]);
  }
}
