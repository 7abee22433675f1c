/**
 * The route planner panel: the planned list of areas, the edits the panel
 * offers on it (add, remove, move up and down, optimise, clear, add every
 * positioned area), its total mown surface, the road distance of the route
 * with its straight-line fallback, and the link that opens the route in
 * Google Maps.
 *
 * The list itself belongs to the page that shows the panel; each edit is an
 * update function from the previous list to the next, and the class below
 * holds the list together with the panel's own distance state.
 */
module RoutePlanner {
  import opened Common
  import opened Domain
  import Routing

  /** The sum of the areas' surfaces, a missing or zero surface counting 0. */
  function TotalArea(route: seq<Area>): real
  {
    if route == [] then 0.0 else OrZero(route[0].plochaM2) + TotalArea(route[1..])
  }

  lemma {:induction false} TotalAreaAppend(a: seq<Area>, b: seq<Area>)
    ensures TotalArea(a + b) == TotalArea(a) + TotalArea(b)
  {
    if a == [] {
      assert a + b == b;
    } else {
      assert (a + b)[1..] == a[1..] + b;
      TotalAreaAppend(a[1..], b);
    }
  }

  /** Adding an area adds its surface to the total. */
  lemma TotalAreaAdd(route: seq<Area>, area: Area)
    ensures TotalArea(AddToRoute(route, area)) == TotalArea(route) + OrZero(area.plochaM2)
  {
    TotalAreaAppend(route, [area]);
  }

  /** `routeAreas.find(r => r.id === id)` finds something. */
  predicate InRoute(route: seq<Area>, id: string)
  {
    exists i :: 0 <= i < |route| && route[i].id == id
  }

  /** The areas that can still be added: those whose id is not on the route, in their order. */
  function AvailableAreas(areas: seq<Area>, route: seq<Area>): (r: seq<Area>)
    ensures forall i :: 0 <= i < |r| ==> r[i] in areas && !InRoute(route, r[i].id)
    ensures forall i :: 0 <= i < |areas| && !InRoute(route, areas[i].id) ==> areas[i] in r
  {
    Filter(areas, (a: Area) => !InRoute(route, a.id))
  }

  /** `addToRoute`'s update: the area goes to the end. */
  function AddToRoute(route: seq<Area>, area: Area): (r: seq<Area>)
    ensures |r| == |route| + 1 && r[..|route|] == route && r[|route|] == area
  {
    route + [area]
  }

  /** Whether an area keeps its place when `id` is removed. */
  function Keeps(id: string): Area -> bool
  {
    (a: Area) => a.id != id
  }

  /** `removeFromRoute`'s update: every area with that id goes, the others stay in order. */
  function RemoveFromRoute(route: seq<Area>, id: string): (r: seq<Area>)
    ensures !InRoute(r, id)
    ensures forall i :: 0 <= i < |route| && route[i].id != id ==> route[i] in r
    ensures forall i :: 0 <= i < |r| ==> r[i] in route
  {
    Filter(route, Keeps(id))
  }

  /**
   * Removal judges the areas one at a time and keeps the survivors in their
   * order, each once: with the empty route giving the empty route, this fixes
   * the result completely.
   */
  lemma RemoveSnoc(route: seq<Area>, a: Area, id: string)
    ensures RemoveFromRoute([], id) == []
    ensures RemoveFromRoute(route + [a], id) == RemoveFromRoute(route, id) + (if a.id != id then [a] else [])
  {
    FilterSnoc(route, a, Keeps(id));
  }

  /** Removing an id from a route without it changes nothing. */
  lemma {:induction false} RemoveAbsent(route: seq<Area>, id: string)
    requires !InRoute(route, id)
    ensures RemoveFromRoute(route, id) == route
  {
    if route != [] {
      forall i | 0 <= i < |route[1..]| ensures route[1..][i].id != id {
        assert route[1..][i] == route[i + 1];
      }
      RemoveAbsent(route[1..], id);
      assert route == [route[0]] + route[1..];
    }
  }

  /** Removing an area just added restores the route when its id was not on it. */
  lemma RemoveAfterAdd(route: seq<Area>, area: Area)
    requires !InRoute(route, area.id)
    ensures RemoveFromRoute(AddToRoute(route, area), area.id) == route
  {
    FilterSnoc(route, area, Keeps(area.id));
    RemoveAbsent(route, area.id);
  }

  /** The list with the entries at `i` and `j` exchanged. */
  function Swap(s: seq<Area>, i: nat, j: nat): (r: seq<Area>)
    requires i < |s| && j < |s|
    ensures |r| == |s| && r[i] == s[j] && r[j] == s[i]
    ensures forall k :: 0 <= k < |s| && k != i && k != j ==> r[k] == s[k]
    ensures multiset(r) == multiset(s)
  {
    s[i := s[j]][j := s[i]]
  }

  /** `moveUp`'s update: the first area stays, any other one changes places with its predecessor. */
  function MoveUp(route: seq<Area>, i: nat): (r: seq<Area>)
    requires i < |route|
    ensures |r| == |route| && multiset(r) == multiset(route)
    ensures i == 0 ==> r == route
    ensures i > 0 ==> (
      r[i - 1] == route[i] && r[i] == route[i - 1]
      && forall k :: 0 <= k < |route| && k != i && k != i - 1 ==> r[k] == route[k])
  {
    if i == 0 then route else Swap(route, i - 1, i)
  }

  /** `moveDown`'s update: the last area (or an index past it) changes nothing. */
  function MoveDown(route: seq<Area>, i: nat): (r: seq<Area>)
    ensures |r| == |route| && multiset(r) == multiset(route)
    ensures i + 1 >= |route| ==> r == route
    ensures i + 1 < |route| ==> (
      r[i] == route[i + 1] && r[i + 1] == route[i]
      && forall k :: 0 <= k < |route| && k != i && k != i + 1 ==> r[k] == route[k])
  {
    if i + 1 >= |route| then route else Swap(route, i, i + 1)
  }

  /** Moving an area up and then down again restores the route. */
  lemma MoveUpThenDown(route: seq<Area>, i: nat)
    requires 0 < i < |route|
    ensures MoveDown(MoveUp(route, i), i - 1) == route
  {
    assert MoveUp(route, i) == Swap(route, i - 1, i);
    SwapTwice(route, i - 1, i);
  }

  /** Moving an area down and then up again restores the route. */
  lemma MoveDownThenUp(route: seq<Area>, i: nat)
    requires i + 1 < |route|
    ensures MoveUp(MoveDown(route, i), i + 1) == route
  {
    assert MoveDown(route, i) == Swap(route, i, i + 1);
    SwapTwice(route, i, i + 1);
  }

  /** Exchanging the same two entries twice restores the list. */
  lemma SwapTwice(s: seq<Area>, i: nat, j: nat)
    requires i < |s| && j < |s|
    ensures Swap(Swap(s, i, j), i, j) == s
  {
    var r := Swap(Swap(s, i, j), i, j);
    assert forall k :: 0 <= k < |s| ==> r[k] == s[k];
  }

  /** `gps_latitude && gps_longitude && !routeAreas.find(r => r.id === a.id)`. */
  function AddableWithGps(route: seq<Area>): Area -> bool
  {
    (a: Area) => HasGps(a) && !InRoute(route, a.id)
  }

  /** `handleAddAllGps`'s update: every positioned area not yet on the route, appended in order. */
  function AddAllGps(areas: seq<Area>, route: seq<Area>): (r: seq<Area>)
    ensures |route| <= |r| && r[..|route|] == route
  {
    route + Filter(areas, AddableWithGps(route))
  }

  /**
   * The appended part grows by an area exactly when it has a position and is
   * not on the route yet, in the order of the area list: with nothing added
   * for no areas, this fixes the appended part completely.
   */
  lemma AddAllGpsSnoc(areas: seq<Area>, a: Area, route: seq<Area>)
    ensures AddAllGps([], route) == route
    ensures AddAllGps(areas + [a], route) ==
      AddAllGps(areas, route) + (if HasGps(a) && !InRoute(route, a.id) then [a] else [])
  {
    assert route + [] == route;
    FilterSnoc(areas, a, AddableWithGps(route));
  }

  /** Only positioned areas that were not on the route are appended. */
  lemma AddAllGpsOnlyNew(areas: seq<Area>, route: seq<Area>)
    ensures forall k :: |route| <= k < |AddAllGps(areas, route)| ==>
      var x := AddAllGps(areas, route)[k]; x in areas && HasGps(x) && !InRoute(route, x.id)
  {
    var added := Filter(areas, AddableWithGps(route));
    forall k | |route| <= k < |route| + |added|
      ensures AddAllGps(areas, route)[k] == added[k - |route|]
    {
    }
  }

  /** Afterwards every positioned area is on the route. */
  lemma AddAllGpsCovers(areas: seq<Area>, route: seq<Area>)
    ensures forall i :: 0 <= i < |areas| && HasGps(areas[i]) ==> InRoute(AddAllGps(areas, route), areas[i].id)
  {
    var r := AddAllGps(areas, route);
    var added := Filter(areas, AddableWithGps(route));
    forall i | 0 <= i < |areas| && HasGps(areas[i])
      ensures InRoute(r, areas[i].id)
    {
      if InRoute(route, areas[i].id) {
        var k :| 0 <= k < |route| && route[k].id == areas[i].id;
        assert r[k] == route[k];
      } else {
        assert AddableWithGps(route)(areas[i]);
        assert areas[i] in added;
        var k :| 0 <= k < |added| && added[k] == areas[i];
        assert r[|route| + k] == added[k];
      }
    }
  }

  lemma {:induction false} FilterDistinct(s: seq<Area>, p: Area -> bool)
    requires Routing.DistinctIds(s)
    ensures Routing.DistinctIds(Filter(s, p))
    decreases |s|
  {
    if s != [] {
      var t := s[1..];
      FilterDistinct(t, p);
      forall k | 0 <= k < |t| ensures t[k].id != s[0].id {
        assert t[k] == s[k + 1];
      }
      FilterIdAbsent(t, p, s[0].id);
      if p(s[0]) {
        DistinctCons(s[0], Filter(t, p));
      } else {
        assert Filter(s, p) == Filter(t, p);
      }
    }
  }

  /** A filter brings back no id its input lacks. */
  lemma FilterIdAbsent(s: seq<Area>, p: Area -> bool, id: string)
    requires forall k :: 0 <= k < |s| ==> s[k].id != id
    ensures forall k :: 0 <= k < |Filter(s, p)| ==> Filter(s, p)[k].id != id
  {
  }

  /** An area whose id is new, put in front of a list of distinct ids, keeps them distinct. */
  lemma DistinctCons(x: Area, rest: seq<Area>)
    requires Routing.DistinctIds(rest)
    requires forall k :: 0 <= k < |rest| ==> rest[k].id != x.id
    ensures Routing.DistinctIds([x] + rest)
  {
    var r := [x] + rest;
    forall i, j | 0 <= i < j < |r| ensures r[i].id != r[j].id {
      assert r[j] == rest[j - 1];
      if i > 0 {
        assert r[i] == rest[i - 1];
      }
    }
  }

  /**
   * Adding every positioned area keeps the ids on the route distinct when
   * they were and the area list's ids are distinct.
   */
  lemma AddAllGpsDistinct(areas: seq<Area>, route: seq<Area>)
    requires Routing.DistinctIds(route) && Routing.DistinctIds(areas)
    ensures Routing.DistinctIds(AddAllGps(areas, route))
  {
    var added := Filter(areas, AddableWithGps(route));
    FilterDistinct(areas, AddableWithGps(route));
    var r := route + added;
    forall i, j | 0 <= i < j < |r| ensures r[i].id != r[j].id {
      if j >= |route| && i < |route| {
        assert r[j] == added[j - |route|];
        assert !InRoute(route, r[j].id);
        assert r[i] == route[i];
      } else if i >= |route| {
        assert r[i] == added[i - |route|] && r[j] == added[j - |route|];
      }
    }
  }

  /** Once every positioned area is on the route, doing it again changes nothing. */
  lemma AddAllGpsIdempotent(areas: seq<Area>, route: seq<Area>)
    ensures AddAllGps(areas, AddAllGps(areas, route)) == AddAllGps(areas, route)
  {
    var r := AddAllGps(areas, route);
    AddAllGpsCovers(areas, route);
    NothingAddable(areas, r);
  }

  lemma {:induction false} NothingAddable(areas: seq<Area>, route: seq<Area>)
    requires forall i :: 0 <= i < |areas| && HasGps(areas[i]) ==> InRoute(route, areas[i].id)
    ensures Filter(areas, AddableWithGps(route)) == []
    decreases |areas|
  {
    if areas != [] {
      assert forall i :: 0 <= i < |areas[1..]| ==> areas[1..][i] == areas[i + 1];
      NothingAddable(areas[1..], route);
    }
  }

  /** The route's positioned areas as latitude and longitude. */
  function Waypoints(route: seq<Area>): (ws: seq<Position>)
    ensures |ws| == |Filter(route, HasGps)|
    ensures forall i :: 0 <= i < |ws| ==> ws[i] == PositionOf(Filter(route, HasGps)[i])
  {
    var g := Filter(route, HasGps);
    seq(|g|, i requires 0 <= i < |g| => PositionOf(g[i]))
  }

  /** `openGoogleMapsRoute`'s link, or nothing (and the error message) below two positioned areas. */
  function MapsLink(route: seq<Area>): (r: Option<string>)
    ensures r.None? <==> |Filter(route, HasGps)| < 2
    ensures r == Routing.BuildGoogleMapsUrl(Waypoints(route))
  {
    Routing.BuildGoogleMapsUrl(Waypoints(route))
  }

  /** The straight-line fallback: the loop summing the distances between consecutive waypoints. */
  method FallbackDistance(ws: seq<Position>, dist: (Position, Position) -> real) returns (d: real)
    ensures d == PathLength(ws, dist)
  {
    d := 0.0;
    if |ws| == 0 {
      return;
    }
    var i := 1;
    while i < |ws|
      invariant 1 <= i <= |ws|
      invariant d == PathLength(ws[..i], dist)
    {
      PathLengthSnoc(ws[..i], ws[i], dist);
      assert ws[..i + 1] == ws[..i] + [ws[i]];
      d := d + dist(ws[i - 1], ws[i]);
      i := i + 1;
    }
    assert ws[..i] == ws;
  }

  /** The fallback of a two-point route is the distance between them. */
  lemma FallbackTwoPoints(a: Position, b: Position, dist: (Position, Position) -> real)
    ensures PathLength([a, b], dist) == dist(a, b)
  {
    assert [a, b][1..] == [b];
  }

  /** The distance and duration shown for a route. */
  datatype Shown = Shown(distance: Option<real>, duration: Option<real>)

  /**
   * The distance effect's outcome for an uncancelled request: nothing below
   * two waypoints, the road figures when the service answered, otherwise the
   * straight-line length and no duration.
   */
  function ShownFor(ws: seq<Position>, answer: Option<Routing.RouteResult>, dist: (Position, Position) -> real): (s: Shown)
    ensures |ws| < 2 ==> s == Shown(None, None)
    ensures |ws| >= 2 && answer.Some? ==> s == Shown(Some(answer.value.distanceKm), Some(answer.value.durationMin))
    ensures |ws| >= 2 && answer.None? ==> s.distance.Some? && s.duration.None?
    ensures |ws| >= 2 && answer.None? && (forall a, b :: dist(a, b) >= 0.0) ==> s.distance.value >= 0.0
  {
    if |ws| < 2 then Shown(None, None)
    else if answer.Some? then Shown(Some(answer.value.distanceKm), Some(answer.value.durationMin))
    else
      PathLengthNonNegativeWhen(ws, dist);
      Shown(Some(PathLength(ws, dist)), None)
  }

  lemma PathLengthNonNegativeWhen(ws: seq<Position>, dist: (Position, Position) -> real)
    ensures (forall a, b :: dist(a, b) >= 0.0) ==> PathLength(ws, dist) >= 0.0
  {
    if forall a, b :: dist(a, b) >= 0.0 {
      PathLengthNonNegative(ws, dist);
    }
  }

  /** The panel's state next to the route it is given. */
  class Planner {
    var route: seq<Area>
    var distance: Option<real>
    var duration: Option<real>
    var loading: bool

    constructor (initial: seq<Area>)
      ensures route == initial && distance.None? && duration.None? && !loading
    {
      route := initial;
      distance := None;
      duration := None;
      loading := false;
    }

    method Add(area: Area)
      modifies this
      ensures route == AddToRoute(old(route), area)
      ensures distance == old(distance) && duration == old(duration) && loading == old(loading)
    {
      route := route + [area];
    }

    method Remove(id: string)
      modifies this
      ensures route == RemoveFromRoute(old(route), id)
      ensures distance == old(distance) && duration == old(duration) && loading == old(loading)
    {
      route := Filter(route, Keeps(id));
    }

    method Up(i: nat)
      requires i < |route|
      modifies this
      ensures route == MoveUp(old(route), i)
      ensures distance == old(distance) && duration == old(duration) && loading == old(loading)
    {
      if i == 0 {
        return;
      }
      route := Swap(route, i - 1, i);
    }

    method Down(i: nat)
      modifies this
      ensures route == MoveDown(old(route), i)
      ensures distance == old(distance) && duration == old(duration) && loading == old(loading)
    {
      if i + 1 >= |route| {
        return;
      }
      route := Swap(route, i, i + 1);
    }

    /** `handleOptimize`. */
    method Optimize(dist: (Area, Area) -> real)
      requires |Filter(route, HasGps)| > 2 ==> Routing.DistinctIds(Filter(route, HasGps))
      modifies this
      ensures route == Routing.RouteOrder(old(route), dist)
      ensures multiset(route) == multiset(old(route))
      ensures distance == old(distance) && duration == old(duration) && loading == old(loading)
    {
      var before := route;
      route := Routing.OptimizeRouteOrder(route, dist);
      if |Filter(before, HasGps)| > 2 {
        Routing.RouteOrderPermutation(before, dist);
      }
    }

    /** `handleClearAll`. */
    method ClearAll()
      modifies this
      ensures route == []
      ensures distance == old(distance) && duration == old(duration) && loading == old(loading)
    {
      route := [];
    }

    /** `handleAddAllGps`. */
    method AddAll(areas: seq<Area>)
      modifies this
      ensures route == AddAllGps(areas, old(route))
      ensures distance == old(distance) && duration == old(duration) && loading == old(loading)
    {
      var gpsAreas := Filter(areas, AddableWithGps(route));
      route := route + gpsAreas;
    }

    /**
     * The distance effect for the current route, with the service's response
     * as a parameter. When the effect was cancelled by a later change of the
     * route, the request still fills the cache but the panel is left as it was
     * after the request started.
     */
    method Refresh(cache: Routing.RouteCache, resp: Routing.OsrmResponse, cancelled: bool,
                   dist: (Position, Position) -> real)
      modifies this, cache
      ensures route == old(route)
      ensures |Waypoints(route)| < 2 ==>
        distance.None? && duration.None? && loading == old(loading) && cache.entries == old(cache.entries)
      ensures |Waypoints(route)| >= 2 ==>
        (var o := Routing.Fetch(old(cache.entries), Waypoints(route), resp);
         cache.entries == o.cache
         && (cancelled ==> distance == old(distance) && duration == old(duration) && loading)
         && (!cancelled ==> Shown(distance, duration) == ShownFor(Waypoints(route), o.result, dist) && !loading))
    {
      var ws := Waypoints(route);
      if |ws| < 2 {
        distance := None;
        duration := None;
        return;
      }
      loading := true;
      var result, _ := cache.FetchRoute(ws, resp);
      if cancelled {
        return;
      }
      if result.Some? {
        distance := Some(result.value.distanceKm);
        duration := Some(result.value.durationMin);
      } else {
        var d := FallbackDistance(ws, dist);
        distance := Some(d);
        duration := None;
      }
      loading := false;
    }
  }
}
