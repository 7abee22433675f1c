/**
 * The areas page: the search and the type and district filters over the
 * area list, the totals of surface and fence length, the sorted lists of
 * types and districts offered in the filters, and the toggle that puts an
 * area on the planned route or takes it off again.
 *
 * `Array.prototype.sort` without a comparator orders text by UTF-16 code
 * units; here text is ordered character by character on code points, which
 * agrees for text without characters outside the Basic Multilingual Plane.
 */
module AreasPage {
  import opened Common
  import opened Strings
  import opened Domain
  import opened RoutePlanner

  // ------------------------------------------------------------ route toggle

  /** `handleToggleRoute`'s update: an area on the route leaves it, any other goes to the end. */
  function Toggle(route: seq<Area>, area: Area): (r: seq<Area>)
    ensures InRoute(r, area.id) <==> !InRoute(route, area.id)
    ensures !InRoute(route, area.id) ==> r == route + [area]
    ensures forall id :: id != area.id ==> (InRoute(r, id) <==> InRoute(route, id))
  {
    if InRoute(route, area.id) then
      var r := RemoveFromRoute(route, area.id);
      forall id | id != area.id && InRoute(route, id) ensures InRoute(r, id) {
        var i :| 0 <= i < |route| && route[i].id == id;
        var j :| 0 <= j < |r| && r[j] == route[i];
      }
      forall id | InRoute(r, id) ensures InRoute(route, id) {
        var j :| 0 <= j < |r| && r[j].id == id;
        var i :| 0 <= i < |route| && route[i] == r[j];
      }
      r
    else
      var r := AddToRoute(route, area);
      assert r[|route|].id == area.id;
      forall id | InRoute(r, id) && id != area.id ensures InRoute(route, id) {
        var j :| 0 <= j < |r| && r[j].id == id;
        assert j < |route| && route[j] == r[j];
      }
      forall id | InRoute(route, id) ensures InRoute(r, id) {
        var j :| 0 <= j < |route| && route[j].id == id;
        assert r[j] == route[j];
      }
      r
  }

  /** Toggling an area twice from off the route restores the route. */
  lemma ToggleTwice(route: seq<Area>, area: Area)
    requires !InRoute(route, area.id)
    ensures Toggle(Toggle(route, area), area) == route
  {
    RemoveAfterAdd(route, area);
  }

  /** `routeAreaIds`: the route's ids in route order. */
  function RouteIds(route: seq<Area>): (r: seq<string>)
    ensures |r| == |route| && forall i :: 0 <= i < |route| ==> r[i] == route[i].id
  {
    seq(|route|, i requires 0 <= i < |route| => route[i].id)
  }

  /** An id is listed exactly when an area of the route has it. */
  lemma RouteIdsMembership(route: seq<Area>, id: string)
    ensures id in RouteIds(route) <==> InRoute(route, id)
  {
    var ids := RouteIds(route);
    if id in ids {
      var i :| 0 <= i < |ids| && ids[i] == id;
      assert route[i].id == id;
    }
  }

  /** Toggling flips whether the area's id is listed and leaves every other id as it was. */
  lemma ToggleFlipsId(route: seq<Area>, area: Area, other: string)
    requires other != area.id
    ensures area.id in RouteIds(Toggle(route, area)) <==> area.id !in RouteIds(route)
    ensures other in RouteIds(Toggle(route, area)) <==> other in RouteIds(route)
  {
    var r := Toggle(route, area);
    RouteIdsMembership(route, area.id);
    RouteIdsMembership(r, area.id);
    RouteIdsMembership(route, other);
    RouteIdsMembership(r, other);
  }

  // ----------------------------------------------------------------- filters

  /** The search matches the name or the district, ignoring case; an empty query matches everything. */
  predicate MatchesSearch(a: Area, query: string)
  {
    query == ""
    || Contains(Lower(a.nazev), Lower(query))
    || (a.okres.Some? && Contains(Lower(a.okres.value), Lower(query)))
  }

  /** An area passes the search and both selectors, `"all"` selecting everything. */
  predicate Passes(a: Area, query: string, filterTyp: string, filterOkres: string)
  {
    MatchesSearch(a, query)
    && (filterTyp == "all" || a.typ == filterTyp)
    && (filterOkres == "all" || a.okres == Some(filterOkres))
  }

  /** `filteredAreas`: nothing before the areas are loaded, then the passing areas in list order. */
  function FilteredAreas(areas: Option<seq<Area>>, query: string, filterTyp: string, filterOkres: string)
    : (r: seq<Area>)
    ensures areas.None? ==> r == []
    ensures areas.Some? ==> forall i :: 0 <= i < |r| ==> r[i] in areas.value && Passes(r[i], query, filterTyp, filterOkres)
    ensures areas.Some? ==> forall i :: 0 <= i < |areas.value| && Passes(areas.value[i], query, filterTyp, filterOkres) ==>
      areas.value[i] in r
  {
    if areas.None? then [] else Filter(areas.value, (a: Area) => Passes(a, query, filterTyp, filterOkres))
  }

  /** With an empty search and both selectors on "all", the whole list is shown in its order. */
  lemma NoFilterShowsAll(areas: seq<Area>)
    ensures FilteredAreas(Some(areas), "", "all", "all") == areas
  {
    FilterKeepsAll(areas, (a: Area) => Passes(a, "", "all", "all"));
  }

  // ------------------------------------------------------------------ totals

  /** The sum of the fence lengths, a missing or zero length counting 0. */
  function TotalFence(areas: seq<Area>): real
  {
    if areas == [] then 0.0 else OrZero(areas[0].obvodM) + TotalFence(areas[1..])
  }

  lemma {:induction false} TotalFenceAppend(a: seq<Area>, b: seq<Area>)
    ensures TotalFence(a + b) == TotalFence(a) + TotalFence(b)
  {
    if a == [] {
      assert a + b == b;
    } else {
      assert (a + b)[1..] == a[1..] + b;
      TotalFenceAppend(a[1..], b);
    }
  }

  /** The header's surface and fence totals, 0 before the areas are loaded. */
  function PageTotals(areas: Option<seq<Area>>): (t: (real, real))
    ensures areas.None? ==> t == (0.0, 0.0)
    ensures areas.Some? ==> t == (TotalArea(areas.value), TotalFence(areas.value))
  {
    if areas.None? then (0.0, 0.0) else (TotalArea(areas.value), TotalFence(areas.value))
  }

  /** A listed area adds exactly its own surface and fence length, nothing counting when missing. */
  lemma TotalsOfOneMore(areas: seq<Area>, a: Area)
    ensures PageTotals(Some(areas + [a])).0 == PageTotals(Some(areas)).0 + OrZero(a.plochaM2)
    ensures PageTotals(Some(areas + [a])).1 == PageTotals(Some(areas)).1 + OrZero(a.obvodM)
  {
    TotalAreaAdd(areas, a);
    TotalFenceAppend(areas, [a]);
  }

  // ------------------------------------------------------- sorted value lists

  /** Text order: character by character, a proper prefix first. */
  predicate Below(a: string, b: string)
    decreases |a|
  {
    if a == [] then b != []
    else if b == [] then false
    else a[0] < b[0] || (a[0] == b[0] && Below(a[1..], b[1..]))
  }

  lemma {:induction false} BelowIrreflexive(a: string)
    ensures !Below(a, a)
    decreases |a|
  {
    if a != [] {
      BelowIrreflexive(a[1..]);
    }
  }

  lemma {:induction false} BelowTotal(a: string, b: string)
    requires a != b
    ensures Below(a, b) || Below(b, a)
    decreases |a|
  {
    if a != [] && b != [] && a[0] == b[0] {
      assert a == [a[0]] + a[1..] && b == [b[0]] + b[1..];
      BelowTotal(a[1..], b[1..]);
    }
  }

  lemma {:induction false} BelowTransitive(a: string, b: string, c: string)
    requires Below(a, b) && Below(b, c)
    ensures Below(a, c)
    decreases |a|
  {
    if a != [] && a[0] == b[0] && b[0] == c[0] {
      BelowTransitive(a[1..], b[1..], c[1..]);
    }
  }

  lemma BelowAsymmetric(a: string, b: string)
    requires Below(a, b)
    ensures !Below(b, a)
  {
    if Below(b, a) {
      BelowTransitive(a, b, a);
      BelowIrreflexive(a);
    }
  }

  /** Strictly increasing text: sorted and without repetitions. */
  predicate Increasing(s: seq<string>)
  {
    forall i, j :: 0 <= i < j < |s| ==> Below(s[i], s[j])
  }

  /** `x` put into its place in an increasing list, unless it is there already. */
  function Insert(x: string, s: seq<string>): (r: seq<string>)
    requires Increasing(s)
    ensures Increasing(r)
    ensures forall y :: y in r <==> y in s || y == x
    ensures |r| > 0 && (r[0] == x || (|s| > 0 && r[0] == s[0]))
    decreases |s|
  {
    if s == [] then [x]
    else if x == s[0] then s
    else if Below(x, s[0]) then
      forall j | 0 < j < |s| ensures Below(x, s[j]) {
        BelowTransitive(x, s[0], s[j]);
      }
      [x] + s
    else
      BelowTotal(x, s[0]);
      var rest := Insert(x, s[1..]);
      assert forall j :: 0 <= j < |rest| ==> Below(s[0], rest[j]) by {
        forall j | 0 <= j < |rest| ensures Below(s[0], rest[j]) {
          if rest[j] != x {
            assert rest[j] in rest;
            assert rest[j] in s[1..];
            var k :| 0 <= k < |s[1..]| && s[1..][k] == rest[j];
            assert s[k + 1] == rest[j];
          }
        }
      }
      var r := [s[0]] + rest;
      assert forall i, j :: 0 < i < j < |r| ==> r[i] == rest[i - 1] && r[j] == rest[j - 1];
      r
  }

  /** `[...new Set(xs)].sort()`. */
  function SortedSet(xs: seq<string>): (r: seq<string>)
    ensures Increasing(r)
    ensures forall y :: y in r <==> y in xs
    decreases |xs|
  {
    if xs == [] then []
    else
      var n := |xs| - 1;
      var r := Insert(xs[n], SortedSet(xs[..n]));
      assert xs == xs[..n] + [xs[n]];
      r
  }

  /** Two increasing lists of the same values are the same list: sorting the set has one answer. */
  lemma {:induction false} IncreasingUnique(a: seq<string>, b: seq<string>)
    requires Increasing(a) && Increasing(b)
    requires forall y :: y in a <==> y in b
    ensures a == b
    decreases |a|
  {
    SameMembersEmpty(a, b);
    if a != [] {
      assert a[0] in a && a[0] in b;
      assert b[0] in b && b[0] in a;
      var k :| 0 <= k < |b| && b[k] == a[0];
      var m :| 0 <= m < |a| && a[m] == b[0];
      if k > 0 && m > 0 {
        BelowAsymmetric(b[0], a[0]);
      }
      if k > 0 && m == 0 {
        BelowIrreflexive(b[0]);
      }
      assert k == 0 || m == 0;
      assert a[0] == b[0];
      forall y | y in a[1..] ensures y in b[1..] {
        var i :| 0 <= i < |a[1..]| && a[1..][i] == y;
        assert Below(a[0], a[i + 1]);
        BelowIrreflexive(a[0]);
        assert y in a && y in b;
        var j :| 0 <= j < |b| && b[j] == y;
        assert j != 0;
        assert b[1..][j - 1] == y;
      }
      forall y | y in b[1..] ensures y in a[1..] {
        var i :| 0 <= i < |b[1..]| && b[1..][i] == y;
        assert Below(b[0], b[i + 1]);
        BelowIrreflexive(b[0]);
        assert y in b && y in a;
        var j :| 0 <= j < |a| && a[j] == y;
        assert j != 0;
        assert a[1..][j - 1] == y;
      }
      IncreasingUnique(a[1..], b[1..]);
      assert a == [a[0]] + a[1..] && b == [b[0]] + b[1..];
    }
  }

  lemma SameMembersEmpty(a: seq<string>, b: seq<string>)
    requires forall y :: y in a <==> y in b
    ensures a == [] <==> b == []
  {
    if a != [] {
      assert a[0] in b;
    }
    if b != [] {
      assert b[0] in a;
    }
  }

  /** The types of the areas, empty ones dropped (`filter(Boolean)`). */
  function TypeNames(areas: seq<Area>): (r: seq<string>)
    ensures forall y :: y in r <==> y != "" && exists i :: 0 <= i < |areas| && areas[i].typ == y
    decreases |areas|
  {
    if areas == [] then []
    else
      var n := |areas| - 1;
      var r := TypeNames(areas[..n]) + (if areas[n].typ != "" then [areas[n].typ] else []);
      assert forall i :: 0 <= i < n ==> areas[..n][i] == areas[i];
      r
  }

  /** The districts of the areas, missing and empty ones dropped. */
  function DistrictNames(areas: seq<Area>): (r: seq<string>)
    ensures forall y :: y in r <==> y != "" && exists i :: 0 <= i < |areas| && areas[i].okres == Some(y)
    decreases |areas|
  {
    if areas == [] then []
    else
      var n := |areas| - 1;
      var o := areas[n].okres;
      var r := DistrictNames(areas[..n]) + (if o.Some? && o.value != "" then [o.value] else []);
      assert forall i :: 0 <= i < n ==> areas[..n][i] == areas[i];
      r
  }

  /** `uniqueTypes`: every non-empty type once, in text order. */
  function UniqueTypes(areas: Option<seq<Area>>): (r: seq<string>)
    ensures Increasing(r)
    ensures areas.None? ==> r == []
    ensures areas.Some? ==> forall y :: y in r <==> y != "" && exists i :: 0 <= i < |areas.value| && areas.value[i].typ == y
  {
    if areas.None? then [] else SortedSet(TypeNames(areas.value))
  }

  /** `uniqueOkresy`: every non-empty district once, in text order. */
  function UniqueDistricts(areas: Option<seq<Area>>): (r: seq<string>)
    ensures Increasing(r)
    ensures areas.None? ==> r == []
    ensures areas.Some? ==> forall y :: y in r <==> y != "" && exists i :: 0 <= i < |areas.value| && areas.value[i].okres == Some(y)
  {
    if areas.None? then [] else SortedSet(DistrictNames(areas.value))
  }

  /** Any sort of the distinct types gives the list offered in the filter. */
  lemma UniqueTypesCanonical(areas: seq<Area>, sorted: seq<string>)
    requires Increasing(sorted)
    requires forall y :: y in sorted <==> y != "" && exists i :: 0 <= i < |areas| && areas[i].typ == y
    ensures sorted == UniqueTypes(Some(areas))
  {
    IncreasingUnique(sorted, UniqueTypes(Some(areas)));
  }
}
