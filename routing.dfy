/**
 * Road routing through the public OSRM service, with an in-memory cache, a
 * nearest-neighbour visiting order for areas and the Google Maps navigation
 * link.
 *
 * Waypoints are positions in units of 1e-5 degree. The OSRM answer is a
 * parameter: the request itself is not modelled, only its outcome.
 */
module Routing {
  import opened Common
  import opened Strings
  import opened Decimal
  import opened Domain
  import Polyline

  datatype RouteResult = RouteResult(coordinates: seq<Position>, distanceKm: real, durationMin: real)

  // ---------------------------------------------------------------- cache key

  /** `${lat.toFixed(5)},${lng.toFixed(5)}`. */
  function PairKey(p: Position): string
  {
    Fixed5(p.lat) + "," + Fixed5(p.lng)
  }

  function PairKeys(ws: seq<Position>): (r: seq<string>)
    ensures |r| == |ws|
    ensures forall i :: 0 <= i < |ws| ==> r[i] == PairKey(ws[i])
  {
    seq(|ws|, i requires 0 <= i < |ws| => PairKey(ws[i]))
  }

  /** `getCacheKey`: the pair keys joined by `|` (see `CacheKeyJoin`). */
  function CacheKey(ws: seq<Position>): string
  {
    if |ws| == 0 then ""
    else if |ws| == 1 then PairKey(ws[0])
    else PairKey(ws[0]) + "|" + CacheKey(ws[1..])
  }

  /** The key is the pair keys joined by `|`. */
  lemma {:induction false} CacheKeyJoin(ws: seq<Position>)
    ensures CacheKey(ws) == Join(PairKeys(ws), "|")
  {
    if |ws| > 1 {
      CacheKeyJoin(ws[1..]);
      assert PairKeys(ws)[1..] == PairKeys(ws[1..]);
    }
  }

  /** A pair key is non-empty and holds no `|`; its only `,` is the one between the coordinates. */
  lemma PairKeyShape(p: Position)
    ensures PairKey(p) != [] && '|' !in PairKey(p)
    ensures ',' !in Fixed5(p.lat) && ',' !in Fixed5(p.lng)
  {
    Fixed5Characters(p.lat);
    Fixed5Characters(p.lng);
    var k := PairKey(p);
    assert forall i :: 0 <= i < |k| ==> k[i] == ',' || k[i] == '-' || k[i] == '.' || IsDigit(k[i]) by {
      forall i | 0 <= i < |k|
        ensures k[i] == ',' || k[i] == '-' || k[i] == '.' || IsDigit(k[i])
      {
        if i < |Fixed5(p.lat)| {
          assert k[i] == Fixed5(p.lat)[i];
        } else if i > |Fixed5(p.lat)| {
          assert k[i] == Fixed5(p.lng)[i - |Fixed5(p.lat)| - 1];
        }
      }
    }
  }

  lemma PairKeyInjective(p: Position, q: Position)
    requires PairKey(p) == PairKey(q)
    ensures p == q
  {
    PairKeyShape(p);
    PairKeyShape(q);
    SeparatorSplit(Fixed5(p.lat), Fixed5(p.lng), Fixed5(q.lat), Fixed5(q.lng), ',');
    Fixed5Injective(p.lat, q.lat);
    Fixed5Injective(p.lng, q.lng);
  }

  /** Two waypoint lists share a cache entry only when they are the same list. */
  lemma CacheKeyInjective(a: seq<Position>, b: seq<Position>)
    requires CacheKey(a) == CacheKey(b)
    ensures a == b
  {
    forall i | 0 <= i < |a| ensures PairKeys(a)[i] != [] && '|' !in PairKeys(a)[i] {
      PairKeyShape(a[i]);
    }
    forall i | 0 <= i < |b| ensures PairKeys(b)[i] != [] && '|' !in PairKeys(b)[i] {
      PairKeyShape(b[i]);
    }
    CacheKeyJoin(a);
    CacheKeyJoin(b);
    JoinInjective(PairKeys(a), PairKeys(b), '|');
    forall i | 0 <= i < |a| ensures a[i] == b[i] {
      PairKeyInjective(a[i], b[i]);
    }
  }

  // ------------------------------------------------------------- OSRM request

  /** `${lng},${lat}`: OSRM takes the longitude first. */
  function OsrmPair(p: Position): string
  {
    Plain(p.lng) + "," + Plain(p.lat)
  }

  function OsrmPairs(ws: seq<Position>): (r: seq<string>)
    ensures |r| == |ws|
    ensures forall i :: 0 <= i < |ws| ==> r[i] == OsrmPair(ws[i])
  {
    seq(|ws|, i requires 0 <= i < |ws| => OsrmPair(ws[i]))
  }

  const OsrmBase: string := "https://router.project-osrm.org/route/v1/driving/"
  const OsrmQuery: string := "?overview=full&geometries=polyline"

  function OsrmUrl(ws: seq<Position>): string
  {
    OsrmBase + Join(OsrmPairs(ws), ";") + OsrmQuery
  }

  /** Number text holds none of the separators `,`, `;` and `|`. */
  lemma PlainSeparators(k: int)
    ensures ',' !in Plain(k) && ';' !in Plain(k) && '|' !in Plain(k)
  {
    PlainCharacters(k);
  }

  /** A coordinate text splits back at its comma into the two numbers. */
  lemma CoordinateSplit(x: int, y: int)
    ensures Split(Plain(x) + "," + Plain(y), ',') == [Plain(x), Plain(y)]
  {
    PlainSeparators(x);
    PlainSeparators(y);
    assert Join([Plain(x), Plain(y)], [',']) == Plain(x) + "," + Plain(y);
    SplitJoin([Plain(x), Plain(y)], ',');
  }

  /** The request path lists one `lng,lat` item per waypoint, in order. */
  lemma OsrmCoordinatesLngFirst(ws: seq<Position>)
    requires |ws| >= 1
    ensures Split(Join(OsrmPairs(ws), ";"), ';') == OsrmPairs(ws)
    ensures forall i :: 0 <= i < |ws| ==> Split(OsrmPairs(ws)[i], ',') == [Plain(ws[i].lng), Plain(ws[i].lat)]
  {
    forall i | 0 <= i < |ws| ensures ';' !in OsrmPairs(ws)[i] && Split(OsrmPairs(ws)[i], ',') == [Plain(ws[i].lng), Plain(ws[i].lat)] {
      PlainSeparators(ws[i].lng);
      PlainSeparators(ws[i].lat);
      CoordinateSplit(ws[i].lng, ws[i].lat);
    }
    SplitJoin(OsrmPairs(ws), ';');
  }

  datatype RawRoute = RawRoute(geometry: string, distance: real, duration: real)

  /**
   * What the request gives: a failure (the fetch or the JSON parse throws),
   * a response that is not `ok`, or a parsed body. A missing `routes` list
   * is an empty one.
   */
  datatype OsrmResponse = Failed | NotOk(status: int) | Body(code: string, routes: seq<RawRoute>)

  /** A route is usable when the body says `Ok` and lists at least one route. */
  predicate Usable(resp: OsrmResponse)
  {
    resp.Body? && resp.code == "Ok" && |resp.routes| > 0
  }

  /** The first route, its geometry decoded, metres to kilometres and seconds to minutes. */
  function Answer(resp: OsrmResponse): (r: Option<RouteResult>)
    ensures r.Some? <==> Usable(resp)
    ensures r.Some? ==> r.value.coordinates == Polyline.Decode(resp.routes[0].geometry)
                        && r.value.distanceKm * 1000.0 == resp.routes[0].distance
                        && r.value.durationMin * 60.0 == resp.routes[0].duration
  {
    if Usable(resp) then
      var route := resp.routes[0];
      Some(RouteResult(Polyline.Decode(route.geometry), route.distance / 1000.0, route.duration / 60.0))
    else None
  }

  /** One request, as the code after `fetch(url)` runs it. */
  method Request(resp: OsrmResponse) returns (r: Option<RouteResult>)
    ensures r == Answer(resp)
  {
    if !resp.Body? || resp.code != "Ok" || |resp.routes| == 0 {
      return None;
    }
    var route := resp.routes[0];
    var coordinates := Polyline.DecodePolyline(route.geometry);
    r := Some(RouteResult(coordinates, route.distance / 1000.0, route.duration / 60.0));
  }

  /** The outcome of one `fetchRoute` call: its result, the new cache and the URLs requested. */
  datatype FetchOutcome = FetchOutcome(result: Option<RouteResult>, cache: map<string, RouteResult>, requests: seq<string>)

  function Fetch(cache: map<string, RouteResult>, ws: seq<Position>, resp: OsrmResponse): (o: FetchOutcome)
    ensures |ws| < 2 ==> o == FetchOutcome(None, cache, [])
    ensures |ws| >= 2 && CacheKey(ws) in cache ==> o == FetchOutcome(Some(cache[CacheKey(ws)]), cache, [])
    ensures |ws| >= 2 && CacheKey(ws) !in cache ==>
      o.requests == [OsrmUrl(ws)] && o.result == Answer(resp)
      && o.cache == (if o.result.Some? then cache[CacheKey(ws) := o.result.value] else cache)
  {
    if |ws| < 2 then FetchOutcome(None, cache, [])
    else
      var key := CacheKey(ws);
      if key in cache then FetchOutcome(Some(cache[key]), cache, [])
      else
        var a := Answer(resp);
        FetchOutcome(a, if a.Some? then cache[key := a.value] else cache, [OsrmUrl(ws)])
  }

  /** A route once found is served from the cache: asking again sends nothing and gives the same route. */
  lemma FetchCached(cache: map<string, RouteResult>, ws: seq<Position>, first: OsrmResponse, again: OsrmResponse)
    requires Fetch(cache, ws, first).result.Some?
    ensures var o := Fetch(cache, ws, first);
      Fetch(o.cache, ws, again) == FetchOutcome(o.result, o.cache, [])
  {
  }

  /** A failed request leaves the cache as it was, so the next call asks again. */
  lemma FailureNotCached(cache: map<string, RouteResult>, ws: seq<Position>, resp: OsrmResponse, again: OsrmResponse)
    requires |ws| >= 2 && CacheKey(ws) !in cache && !Usable(resp)
    ensures Fetch(cache, ws, resp) == FetchOutcome(None, cache, [OsrmUrl(ws)])
    ensures Fetch(cache, ws, again).requests == [OsrmUrl(ws)]
  {
  }

  /** The route between waypoints `i` and `i + 1`. */
  function Segment(ws: seq<Position>, i: nat): seq<Position>
    requires i + 1 < |ws|
  {
    [ws[i], ws[i + 1]]
  }

  /** The cache key of each segment, in order. */
  function SegmentKeys(ws: seq<Position>): (r: seq<string>)
    requires |ws| >= 1
    ensures |r| == |ws| - 1
  {
    seq(|ws| - 1, i requires 0 <= i < |ws| - 1 => CacheKey(Segment(ws, i)))
  }

  /** The request URL of each segment, in order. */
  function SegmentUrls(ws: seq<Position>): (r: seq<string>)
    requires |ws| >= 1
    ensures |r| == |ws| - 1
  {
    seq(|ws| - 1, i requires 0 <= i < |ws| - 1 => OsrmUrl(Segment(ws, i)))
  }

  /** What the service answers to each segment's request, in order. */
  function SegmentAnswers(ws: seq<Position>, responses: nat -> OsrmResponse): (r: seq<Option<RouteResult>>)
    requires |ws| >= 1
    ensures |r| == |ws| - 1
  {
    seq(|ws| - 1, i requires 0 <= i < |ws| - 1 => Answer(responses(i)))
  }

  /*
   * One `fetchRouteSegments` call over its segments' keys, URLs and answers.
   * Every lookup of the call sees the cache as it was at the start, since all
   * requests start before any answer arrives.
   */

  /** Segment `i`'s result against the starting cache: the cached route, or the answer. */
  function Looked(initial: map<string, RouteResult>, keys: seq<string>, answers: seq<Option<RouteResult>>, i: nat)
    : Option<RouteResult>
    requires i < |keys| && i < |answers|
  {
    if keys[i] in initial then Some(initial[keys[i]]) else answers[i]
  }

  /** The results of the first `n` segments. */
  function Results(initial: map<string, RouteResult>, keys: seq<string>, answers: seq<Option<RouteResult>>, n: nat)
    : (r: seq<Option<RouteResult>>)
    requires n <= |keys| && n <= |answers|
    ensures |r| == n
  {
    if n == 0 then [] else Results(initial, keys, answers, n - 1) + [Looked(initial, keys, answers, n - 1)]
  }

  /** The URLs requested for the first `n` segments: one per segment not in the starting cache. */
  function Requests(initial: map<string, RouteResult>, keys: seq<string>, urls: seq<string>, n: nat): seq<string>
    requires n <= |keys| && n <= |urls|
  {
    if n == 0 then []
    else Requests(initial, keys, urls, n - 1) + (if keys[n - 1] in initial then [] else [urls[n - 1]])
  }

  /** The cache after the first `n` segments: each missing key that got a route is added. */
  function CacheAfter(initial: map<string, RouteResult>, keys: seq<string>, answers: seq<Option<RouteResult>>, n: nat)
    : map<string, RouteResult>
    requires n <= |keys| && n <= |answers|
  {
    if n == 0 then initial
    else
      var c := CacheAfter(initial, keys, answers, n - 1);
      if keys[n - 1] !in initial && answers[n - 1].Some? then c[keys[n - 1] := answers[n - 1].value] else c
  }

  lemma {:induction false} ResultAt(initial: map<string, RouteResult>, keys: seq<string>, answers: seq<Option<RouteResult>>, n: nat, i: nat)
    requires i < n <= |keys| && n <= |answers|
    ensures Results(initial, keys, answers, n)[i] == Looked(initial, keys, answers, i)
    decreases n
  {
    if i < n - 1 {
      ResultAt(initial, keys, answers, n - 1, i);
    }
  }

  lemma {:induction false} CacheAfterKeeps(initial: map<string, RouteResult>, keys: seq<string>, answers: seq<Option<RouteResult>>, n: nat, k: string)
    requires n <= |keys| && n <= |answers| && k in initial
    ensures k in CacheAfter(initial, keys, answers, n) && CacheAfter(initial, keys, answers, n)[k] == initial[k]
  {
    if n > 0 {
      CacheAfterKeeps(initial, keys, answers, n - 1, k);
    }
  }

  lemma {:induction false} CacheAfterAdds(initial: map<string, RouteResult>, keys: seq<string>, answers: seq<Option<RouteResult>>, n: nat, k: string)
    requires n <= |keys| && n <= |answers| && k in CacheAfter(initial, keys, answers, n) && k !in initial
    ensures exists i :: 0 <= i < n && k == keys[i] && answers[i].Some?
  {
    if n > 0 {
      if k == keys[n - 1] && answers[n - 1].Some? {
        assert 0 <= n - 1 < n;
      } else {
        CacheAfterAdds(initial, keys, answers, n - 1, k);
        var i :| 0 <= i < n - 1 && k == keys[i] && answers[i].Some?;
        assert 0 <= i < n;
      }
    }
  }

  /** A segment whose key is in the starting cache: its route is served from there, nothing is sent or stored. */
  lemma StepCached(initial: map<string, RouteResult>, keys: seq<string>, urls: seq<string>, answers: seq<Option<RouteResult>>, i: nat)
    requires i < |keys| && i < |urls| && i < |answers| && keys[i] in initial
    ensures Results(initial, keys, answers, i + 1) == Results(initial, keys, answers, i) + [Some(initial[keys[i]])]
    ensures Requests(initial, keys, urls, i + 1) == Requests(initial, keys, urls, i)
    ensures CacheAfter(initial, keys, answers, i + 1) == CacheAfter(initial, keys, answers, i)
  {
  }

  /** A segment whose key is not in the starting cache: its URL is sent and a usable answer is stored. */
  lemma StepFetched(initial: map<string, RouteResult>, keys: seq<string>, urls: seq<string>, answers: seq<Option<RouteResult>>, i: nat)
    requires i < |keys| && i < |urls| && i < |answers| && keys[i] !in initial
    ensures Results(initial, keys, answers, i + 1) == Results(initial, keys, answers, i) + [answers[i]]
    ensures Requests(initial, keys, urls, i + 1) == Requests(initial, keys, urls, i) + [urls[i]]
    ensures CacheAfter(initial, keys, answers, i + 1)
            == if answers[i].Some? then CacheAfter(initial, keys, answers, i)[keys[i] := answers[i].value]
               else CacheAfter(initial, keys, answers, i)
  {
  }

  /** Segment `i`'s result: the cached route, or the answer to its own request. */
  function SegmentResult(initial: map<string, RouteResult>, ws: seq<Position>, responses: nat -> OsrmResponse, i: nat)
    : Option<RouteResult>
    requires i + 1 < |ws|
  {
    var key := CacheKey(Segment(ws, i));
    if key in initial then Some(initial[key]) else Answer(responses(i))
  }

  /** Each segment gets what `fetchRoute` gives for its pair of waypoints against the cache at the start. */
  lemma SegmentIsFetch(initial: map<string, RouteResult>, ws: seq<Position>, responses: nat -> OsrmResponse, i: nat)
    requires i + 1 < |ws|
    ensures SegmentResult(initial, ws, responses, i) == Fetch(initial, Segment(ws, i), responses(i)).result
  {
  }

  /** The results of the first `n` segments of `ws`, in order. */
  function SegmentResults(initial: map<string, RouteResult>, ws: seq<Position>, responses: nat -> OsrmResponse, n: nat)
    : (r: seq<Option<RouteResult>>)
    requires n < |ws|
    ensures |r| == n
  {
    Results(initial, SegmentKeys(ws), SegmentAnswers(ws, responses), n)
  }

  /** The URLs requested for the first `n` segments of `ws`. */
  function SegmentRequests(initial: map<string, RouteResult>, ws: seq<Position>, n: nat): seq<string>
    requires n < |ws|
  {
    Requests(initial, SegmentKeys(ws), SegmentUrls(ws), n)
  }

  /** The cache after the first `n` segments of `ws`. */
  function SegmentsCache(initial: map<string, RouteResult>, ws: seq<Position>, responses: nat -> OsrmResponse, n: nat)
    : map<string, RouteResult>
    requires n < |ws|
  {
    CacheAfter(initial, SegmentKeys(ws), SegmentAnswers(ws, responses), n)
  }

  /** Result `i` among the first `n` is segment `i`'s result. */
  lemma SegmentResultAt(initial: map<string, RouteResult>, ws: seq<Position>, responses: nat -> OsrmResponse, n: nat, i: nat)
    requires i < n < |ws|
    ensures SegmentResults(initial, ws, responses, n)[i] == SegmentResult(initial, ws, responses, i)
  {
    ResultAt(initial, SegmentKeys(ws), SegmentAnswers(ws, responses), n, i);
  }

  /** Result `i` of a segment call is what `fetchRoute` gives for segment `i` against the cache at the start. */
  lemma SegmentFetchAt(initial: map<string, RouteResult>, ws: seq<Position>, responses: nat -> OsrmResponse, n: nat, i: nat)
    requires i < n < |ws|
    ensures SegmentResults(initial, ws, responses, n)[i] == Fetch(initial, Segment(ws, i), responses(i)).result
  {
    SegmentResultAt(initial, ws, responses, n, i);
    SegmentIsFetch(initial, ws, responses, i);
  }

  /** Result `i` of a segment call is the result for the segment from waypoint `i` to waypoint `i + 1`. */
  lemma SegmentResultsAt(initial: map<string, RouteResult>, ws: seq<Position>, responses: nat -> OsrmResponse, n: nat)
    requires n < |ws|
    ensures forall i :: 0 <= i < n ==> SegmentResults(initial, ws, responses, n)[i] == SegmentResult(initial, ws, responses, i)
  {
    forall i | 0 <= i < n
      ensures SegmentResults(initial, ws, responses, n)[i] == SegmentResult(initial, ws, responses, i)
    {
      SegmentResultAt(initial, ws, responses, n, i);
    }
  }

  /** A segment call only adds the keys of segments that were missing and got a route. */
  lemma SegmentsCacheKeys(initial: map<string, RouteResult>, ws: seq<Position>, responses: nat -> OsrmResponse, n: nat)
    requires n < |ws|
    ensures forall k :: k in initial ==>
      (k in SegmentsCache(initial, ws, responses, n) && SegmentsCache(initial, ws, responses, n)[k] == initial[k])
    ensures forall k :: k in SegmentsCache(initial, ws, responses, n) && k !in initial ==>
      exists i :: 0 <= i < n && k == CacheKey(Segment(ws, i)) && Answer(responses(i)).Some?
  {
    var keys, answers := SegmentKeys(ws), SegmentAnswers(ws, responses);
    forall k | k in initial
      ensures k in SegmentsCache(initial, ws, responses, n) && SegmentsCache(initial, ws, responses, n)[k] == initial[k]
    {
      CacheAfterKeeps(initial, keys, answers, n, k);
    }
    forall k | k in SegmentsCache(initial, ws, responses, n) && k !in initial
      ensures exists i :: 0 <= i < n && k == CacheKey(Segment(ws, i)) && Answer(responses(i)).Some?
    {
      CacheAfterAdds(initial, keys, answers, n, k);
      var i :| 0 <= i < n && k == keys[i] && answers[i].Some?;
      assert k == CacheKey(Segment(ws, i)) && Answer(responses(i)).Some?;
    }
  }

  class RouteCache {
    /** `routeCache`, keyed by `getCacheKey`. */
    var entries: map<string, RouteResult>

    constructor ()
      ensures entries == map[]
    {
      entries := map[];
    }

    /** `fetchRoute`. */
    method FetchRoute(waypoints: seq<Position>, resp: OsrmResponse) returns (r: Option<RouteResult>, requests: seq<string>)
      modifies this
      ensures Fetch(old(entries), waypoints, resp) == FetchOutcome(r, entries, requests)
    {
      if |waypoints| < 2 {
        return None, [];
      }
      var key := CacheKey(waypoints);
      if key in entries {
        return Some(entries[key]), [];
      }
      requests := [OsrmUrl(waypoints)];
      r := Request(resp);
      if r.Some? {
        entries := entries[key := r.value];
      }
    }

    /**
     * The `fetchRoute` call for segment `i` of a `fetchRouteSegments` batch,
     * appending its result and its request (if any) to the batch's logs.
     * Its lookup runs before any request of the batch has returned, so it
     * sees the cache as it was when the batch started (`initial`).
     */
    method FetchSegment(ghost keys: seq<string>, ghost urls: seq<string>, ghost answers: seq<Option<RouteResult>>,
                        initial: map<string, RouteResult>, waypoints: seq<Position>, responses: nat -> OsrmResponse, i: nat,
                        results: seq<Option<RouteResult>>, requests: seq<string>)
      returns (results': seq<Option<RouteResult>>, requests': seq<string>)
      requires i + 1 < |waypoints|
      requires keys == SegmentKeys(waypoints) && urls == SegmentUrls(waypoints) && answers == SegmentAnswers(waypoints, responses)
      requires results == Results(initial, keys, answers, i) && requests == Requests(initial, keys, urls, i)
      requires entries == CacheAfter(initial, keys, answers, i)
      modifies this
      ensures results' == Results(initial, keys, answers, i + 1)
      ensures requests' == Requests(initial, keys, urls, i + 1)
      ensures entries == CacheAfter(initial, keys, answers, i + 1)
    {
      var segment := [waypoints[i], waypoints[i + 1]];
      assert segment == Segment(waypoints, i);
      var key := CacheKey(segment);
      assert key == keys[i];
      if key in initial {
        StepCached(initial, keys, urls, answers, i);
        return results + [Some(initial[key])], requests;
      }
      StepFetched(initial, keys, urls, answers, i);
      assert OsrmUrl(segment) == urls[i];
      var r := Request(responses(i));
      assert r == answers[i];
      if r.Some? {
        entries := entries[key := r.value];
      }
      return results + [r], requests + [OsrmUrl(segment)];
    }

    /** `fetchRouteSegments`: one `fetchRoute` per consecutive pair, all started before any returns. */
    method FetchRouteSegments(waypoints: seq<Position>, responses: nat -> OsrmResponse)
      returns (results: seq<Option<RouteResult>>, requests: seq<string>)
      modifies this
      ensures |waypoints| < 2 ==> results == [] && requests == [] && entries == old(entries)
      ensures |waypoints| >= 2 ==>
        |results| == |waypoints| - 1
        && results == SegmentResults(old(entries), waypoints, responses, |waypoints| - 1)
        && requests == SegmentRequests(old(entries), waypoints, |waypoints| - 1)
        && entries == SegmentsCache(old(entries), waypoints, responses, |waypoints| - 1)
    {
      if |waypoints| < 2 {
        return [], [];
      }
      var initial := entries;
      ghost var keys, urls, answers := SegmentKeys(waypoints), SegmentUrls(waypoints), SegmentAnswers(waypoints, responses);
      results := [];
      requests := [];
      var i := 0;
      while i < |waypoints| - 1
        invariant 0 <= i <= |waypoints| - 1
        invariant results == Results(initial, keys, answers, i)
        invariant requests == Requests(initial, keys, urls, i)
        invariant entries == CacheAfter(initial, keys, answers, i)
      {
        results, requests := FetchSegment(keys, urls, answers, initial, waypoints, responses, i, results, requests);
        i := i + 1;
      }
    }
  }

  // ------------------------------------------------------ nearest neighbour

  predicate DistinctIds(s: seq<Area>)
  {
    forall i, j :: 0 <= i < j < |s| ==> s[i].id != s[j].id
  }

  /**
   * The `for` loop over the candidates: the index of the first unvisited
   * candidate at the strictly smallest distance from `current`, or -1 when
   * all are visited. `minDist` starting at `Infinity` means the first
   * unvisited candidate is always taken.
   */
  function NearestIndex(current: Area, cands: seq<Area>, visited: set<string>, dist: (Area, Area) -> real): (k: int)
    ensures -1 <= k < |cands|
    decreases |cands|
  {
    if cands == [] then -1
    else
      var n := |cands| - 1;
      var k := NearestIndex(current, cands[..n], visited, dist);
      assert k >= 0 ==> cands[..n][k] == cands[k];
      if cands[n].id in visited then k
      else if k == -1 || dist(current, cands[n]) < dist(current, cands[k]) then n
      else k
  }

  /** The candidate found is unvisited, at minimal distance, and strictly nearer than every earlier unvisited one. */
  lemma {:induction false} NearestIndexSpec(current: Area, cands: seq<Area>, visited: set<string>, dist: (Area, Area) -> real)
    ensures var k := NearestIndex(current, cands, visited, dist);
      (k == -1 <==> forall i :: 0 <= i < |cands| ==> cands[i].id in visited)
      && (k >= 0 ==> cands[k].id !in visited
                     && (forall j :: 0 <= j < |cands| && cands[j].id !in visited ==> dist(current, cands[k]) <= dist(current, cands[j]))
                     && (forall j :: 0 <= j < k && cands[j].id !in visited ==> dist(current, cands[k]) < dist(current, cands[j])))
    decreases |cands|
  {
    if cands != [] {
      var n := |cands| - 1;
      var init := cands[..n];
      NearestIndexSpec(current, init, visited, dist);
      assert forall i :: 0 <= i < n ==> init[i] == cands[i];
    }
  }

  /** The unvisited candidates, in order. */
  function Unvisited(cands: seq<Area>, visited: set<string>): (r: seq<Area>)
    ensures |r| <= |cands|
    decreases |cands|
  {
    if cands == [] then []
    else
      var n := |cands| - 1;
      Unvisited(cands[..n], visited) + (if cands[n].id in visited then [] else [cands[n]])
  }

  /** Visiting one more candidate leaves fewer unvisited. */
  lemma {:induction false} UnvisitedShrinks(cands: seq<Area>, visited: set<string>, k: nat)
    requires k < |cands| && cands[k].id !in visited
    ensures |Unvisited(cands, visited + {cands[k].id})| < |Unvisited(cands, visited)|
    decreases |cands|
  {
    var n := |cands| - 1;
    var init := cands[..n];
    UnvisitedNoLonger(init, visited, cands[k].id);
    if k < n {
      assert init[k] == cands[k];
      UnvisitedShrinks(init, visited, k);
    }
  }

  lemma {:induction false} UnvisitedNoLonger(cands: seq<Area>, visited: set<string>, id: string)
    ensures |Unvisited(cands, visited + {id})| <= |Unvisited(cands, visited)|
    decreases |cands|
  {
    if cands != [] {
      UnvisitedNoLonger(cands[..|cands| - 1], visited, id);
    }
  }

  /** With distinct ids, visiting a candidate removes exactly that candidate from the unvisited ones. */
  lemma {:induction false} UnvisitedRemove(cands: seq<Area>, visited: set<string>, k: nat)
    requires DistinctIds(cands)
    requires k < |cands| && cands[k].id !in visited
    ensures multiset(Unvisited(cands, visited)) == multiset(Unvisited(cands, visited + {cands[k].id})) + multiset{cands[k]}
    decreases |cands|
  {
    var n := |cands| - 1;
    var init := cands[..n];
    var x := cands[k];
    assert DistinctIds(init) by {
      assert forall i :: 0 <= i < n ==> init[i] == cands[i];
    }
    var v' := visited + {x.id};
    assert Unvisited(cands, visited) == Unvisited(init, visited) + (if cands[n].id in visited then [] else [cands[n]]);
    assert Unvisited(cands, v') == Unvisited(init, v') + (if cands[n].id in v' then [] else [cands[n]]);
    if k < n {
      assert init[k] == x;
      UnvisitedRemove(init, visited, k);
      assert cands[n].id != x.id;
      var t := if cands[n].id in visited then [] else [cands[n]];
      assert (cands[n].id in visited) == (cands[n].id in v');
      assert multiset(Unvisited(cands, visited)) == multiset(Unvisited(init, visited)) + multiset(t);
      assert multiset(Unvisited(cands, v')) == multiset(Unvisited(init, v')) + multiset(t);
      assert visited + {init[k].id} == v';
      var m, m' := multiset(Unvisited(init, visited)), multiset(Unvisited(init, v'));
      assert m == m' + multiset{x};
      MultisetSwap(m', multiset{x}, multiset(t));
    } else {
      assert forall i :: 0 <= i < |init| ==> init[i].id != x.id by {
        assert forall i :: 0 <= i < |init| ==> init[i] == cands[i];
      }
      UnvisitedSame(init, visited, x.id);
      assert Unvisited(cands, visited) == Unvisited(init, visited) + [x];
      assert Unvisited(cands, v') == Unvisited(init, visited);
    }
  }

  lemma MultisetComm<T>(a: multiset<T>, b: multiset<T>)
    ensures a + b == b + a
  {
  }

  lemma MultisetSwap<T>(a: multiset<T>, b: multiset<T>, c: multiset<T>)
    ensures (a + b) + c == (a + c) + b
  {
  }

  /** Visiting an id that no candidate has changes nothing. */
  lemma {:induction false} UnvisitedSame(cands: seq<Area>, visited: set<string>, id: string)
    requires forall i :: 0 <= i < |cands| ==> cands[i].id != id
    ensures Unvisited(cands, visited + {id}) == Unvisited(cands, visited)
    decreases |cands|
  {
    if cands != [] {
      var n := |cands| - 1;
      assert forall i :: 0 <= i < n ==> cands[..n][i] == cands[i];
      UnvisitedSame(cands[..n], visited, id);
    }
  }

  lemma {:induction false} UnvisitedNone(cands: seq<Area>, visited: set<string>)
    requires forall i :: 0 <= i < |cands| ==> cands[i].id in visited
    ensures Unvisited(cands, visited) == []
    decreases |cands|
  {
    if cands != [] {
      var n := |cands| - 1;
      assert forall i :: 0 <= i < n ==> cands[..n][i] == cands[i];
      UnvisitedNone(cands[..n], visited);
    }
  }

  lemma {:induction false} UnvisitedAll(cands: seq<Area>)
    ensures Unvisited(cands, {}) == cands
    decreases |cands|
  {
    if cands != [] {
      var n := |cands| - 1;
      UnvisitedAll(cands[..n]);
      assert cands == cands[..n] + [cands[n]];
    }
  }

  /** The greedy tour from `current` over the unvisited candidates. */
  function Tour(current: Area, cands: seq<Area>, visited: set<string>, dist: (Area, Area) -> real): seq<Area>
    decreases |Unvisited(cands, visited)|
  {
    var k := NearestIndex(current, cands, visited, dist);
    if k == -1 then []
    else
      NearestIndexSpec(current, cands, visited, dist);
      UnvisitedShrinks(cands, visited, k);
      [cands[k]] + Tour(cands[k], cands, visited + {cands[k].id}, dist)
  }

  lemma TourStep(current: Area, cands: seq<Area>, visited: set<string>, dist: (Area, Area) -> real)
    requires NearestIndex(current, cands, visited, dist) != -1
    ensures var k := NearestIndex(current, cands, visited, dist);
      Tour(current, cands, visited, dist) == [cands[k]] + Tour(cands[k], cands, visited + {cands[k].id}, dist)
  {
  }

  lemma TourEnd(current: Area, cands: seq<Area>, visited: set<string>, dist: (Area, Area) -> real)
    requires forall i :: 0 <= i < |cands| ==> cands[i].id in visited
    ensures Tour(current, cands, visited, dist) == []
  {
    NearestIndexSpec(current, cands, visited, dist);
  }

  /** The tour visits every unvisited candidate exactly once. */
  lemma {:induction false} TourPermutation(current: Area, cands: seq<Area>, visited: set<string>, dist: (Area, Area) -> real)
    requires DistinctIds(cands)
    ensures multiset(Tour(current, cands, visited, dist)) == multiset(Unvisited(cands, visited))
    decreases |Unvisited(cands, visited)|
  {
    var k := NearestIndex(current, cands, visited, dist);
    NearestIndexSpec(current, cands, visited, dist);
    if k == -1 {
      UnvisitedNone(cands, visited);
    } else {
      UnvisitedShrinks(cands, visited, k);
      TourPermutation(cands[k], cands, visited + {cands[k].id}, dist);
      UnvisitedRemove(cands, visited, k);
    }
  }

  /** Each step of the tour goes to the nearest candidate not yet visited, the earliest among equals. */
  lemma TourGreedy(current: Area, cands: seq<Area>, visited: set<string>, dist: (Area, Area) -> real)
    requires Tour(current, cands, visited, dist) != []
    ensures var next := Tour(current, cands, visited, dist)[0];
      next.id !in visited
      && (exists k :: 0 <= k < |cands| && cands[k] == next
            && (forall j :: 0 <= j < |cands| && cands[j].id !in visited ==> dist(current, next) <= dist(current, cands[j]))
            && (forall j :: 0 <= j < k && cands[j].id !in visited ==> dist(current, next) < dist(current, cands[j])))
  {
    NearestIndexSpec(current, cands, visited, dist);
    var k := NearestIndex(current, cands, visited, dist);
    assert k != -1;
    assert Tour(current, cands, visited, dist)[0] == cands[k];
  }

  predicate NoGps(a: Area)
  {
    !HasGps(a)
  }

  /** `optimizeRouteOrder`'s result: the greedy tour over the areas with a position, then the rest. */
  function RouteOrder(areas: seq<Area>, dist: (Area, Area) -> real): seq<Area>
  {
    var g := Filter(areas, HasGps);
    if |g| <= 2 then areas
    else [g[0]] + Tour(g[0], g, {g[0].id}, dist) + Filter(areas, NoGps)
  }

  /** Starting at the first positioned area and touring the others covers each of them once. */
  lemma GreedyTourCovers(g: seq<Area>, dist: (Area, Area) -> real)
    requires |g| > 0 && DistinctIds(g)
    ensures multiset([g[0]] + Tour(g[0], g, {g[0].id}, dist)) == multiset(g)
  {
    var tour := Tour(g[0], g, {g[0].id}, dist);
    TourPermutation(g[0], g, {g[0].id}, dist);
    UnvisitedRemove(g, {}, 0);
    assert {} + {g[0].id} == {g[0].id};
    UnvisitedAll(g);
    assert multiset(g) == multiset(tour) + multiset{g[0]};
    MultisetComm(multiset{g[0]}, multiset(tour));
  }

  /** Reordering never loses, adds or repeats an area. */
  lemma RouteOrderPermutation(areas: seq<Area>, dist: (Area, Area) -> real)
    requires DistinctIds(Filter(areas, HasGps))
    ensures multiset(RouteOrder(areas, dist)) == multiset(areas)
  {
    var g := Filter(areas, HasGps);
    if |g| > 2 {
      var head := [g[0]] + Tour(g[0], g, {g[0].id}, dist);
      var rest := Filter(areas, NoGps);
      GreedyTourCovers(g, dist);
      FilterPartition(areas, HasGps, NoGps);
      assert RouteOrder(areas, dist) == head + rest;
    }
  }

  /** With more than two positioned areas, the order starts at the first of them and puts every area without a position last. */
  lemma RouteOrderShape(areas: seq<Area>, dist: (Area, Area) -> real)
    requires |Filter(areas, HasGps)| > 2
    ensures var r := RouteOrder(areas, dist);
      var rest := Filter(areas, NoGps);
      r[0] == Filter(areas, HasGps)[0]
      && |rest| <= |r| && r[|r| - |rest|..] == rest
  {
  }

  function Ids(s: seq<Area>): (r: set<string>)
    ensures forall i :: 0 <= i < |s| ==> s[i].id in r
    decreases |s|
  {
    if s == [] then {}
    else
      var n := |s| - 1;
      assert forall i :: 0 <= i < n ==> s[..n][i] == s[i];
      Ids(s[..n]) + {s[n].id}
  }

  lemma {:induction false} IdsExclude(s: seq<Area>, x: string)
    requires forall i :: 0 <= i < |s| ==> s[i].id != x
    ensures x !in Ids(s)
    decreases |s|
  {
    if s != [] {
      var n := |s| - 1;
      assert forall i :: 0 <= i < n ==> s[..n][i] == s[i];
      IdsExclude(s[..n], x);
    }
  }

  lemma {:induction false} IdsWitness(s: seq<Area>, x: string)
    requires x in Ids(s)
    ensures exists i :: 0 <= i < |s| && s[i].id == x
    decreases |s|
  {
    var n := |s| - 1;
    if x != s[n].id {
      IdsWitness(s[..n], x);
      var i :| 0 <= i < n && s[..n][i].id == x;
      assert s[i].id == x;
    }
  }

  lemma {:induction false} IdsSize(s: seq<Area>)
    requires DistinctIds(s)
    ensures |Ids(s)| == |s|
    decreases |s|
  {
    if s != [] {
      var n := |s| - 1;
      assert forall i :: 0 <= i < n ==> s[..n][i] == s[i];
      IdsSize(s[..n]);
      IdsExclude(s[..n], s[n].id);
    }
  }

  /** Fewer visited ids than candidates leaves an unvisited candidate. */
  lemma SomeUnvisited(g: seq<Area>, visited: set<string>)
    requires DistinctIds(g) && visited <= Ids(g) && |visited| < |g|
    ensures exists i :: 0 <= i < |g| && g[i].id !in visited
  {
    IdsSize(g);
    var ids := Ids(g);
    assert ids == visited + (ids - visited);
    assert |ids - visited| > 0;
    var x :| x in ids - visited;
    IdsWitness(g, x);
  }

  /** As many visited ids as candidates, all among the candidates' ids, means all are visited. */
  lemma AllVisited(g: seq<Area>, visited: set<string>)
    requires DistinctIds(g) && visited <= Ids(g) && |visited| >= |g|
    ensures forall i :: 0 <= i < |g| ==> g[i].id in visited
  {
    IdsSize(g);
    var ids := Ids(g);
    assert ids == visited + (ids - visited);
    assert |ids - visited| == 0;
    assert ids <= visited;
  }

  /** The inner `for` loop of `optimizeRouteOrder`. */
  method FindNearest(current: Area, g: seq<Area>, visited: set<string>, dist: (Area, Area) -> real)
    returns (nearest: Option<Area>)
    ensures var k := NearestIndex(current, g, visited, dist);
      (nearest.None? <==> k == -1) && (k >= 0 ==> nearest == Some(g[k]))
  {
    nearest := None;
    var minDist := 0.0;
    var i := 0;
    while i < |g|
      invariant 0 <= i <= |g|
      invariant var k := NearestIndex(current, g[..i], visited, dist);
        (nearest.None? <==> k == -1) && (k >= 0 ==> nearest == Some(g[k]) && minDist == dist(current, g[k]))
    {
      assert g[..i + 1][..i] == g[..i];
      var a := g[i];
      if a.id !in visited {
        var d := dist(current, a);
        if nearest.None? || d < minDist {
          minDist := d;
          nearest := Some(a);
        }
      }
      i := i + 1;
    }
    assert g[..i] == g;
  }

  /**
   * The `while` loop of `optimizeRouteOrder` over the positioned areas. It
   * ends only when every area's id was visited, so the ids must be distinct:
   * with a repeated id the loop never ends.
   */
  method GreedyTour(withGps: seq<Area>, dist: (Area, Area) -> real) returns (result: seq<Area>)
    requires |withGps| > 0 && DistinctIds(withGps)
    ensures result == [withGps[0]] + Tour(withGps[0], withGps, {withGps[0].id}, dist)
  {
    var current := withGps[0];
    result := [current];
    var visited := {current.id};
    while |visited| < |withGps|
      invariant visited <= Ids(withGps)
      invariant result + Tour(current, withGps, visited, dist) == [withGps[0]] + Tour(withGps[0], withGps, {withGps[0].id}, dist)
      decreases |withGps| - |visited|
    {
      SomeUnvisited(withGps, visited);
      NearestIndexSpec(current, withGps, visited, dist);
      var nearest := FindNearest(current, withGps, visited, dist);
      TourStep(current, withGps, visited, dist);
      result := result + [nearest.value];
      visited := visited + {nearest.value.id};
      current := nearest.value;
    }
    AllVisited(withGps, visited);
    TourEnd(current, withGps, visited, dist);
  }

  /** `optimizeRouteOrder`: positioned areas must have distinct ids when there are more than two of them. */
  method OptimizeRouteOrder(areas: seq<Area>, dist: (Area, Area) -> real) returns (ordered: seq<Area>)
    requires |Filter(areas, HasGps)| > 2 ==> DistinctIds(Filter(areas, HasGps))
    ensures ordered == RouteOrder(areas, dist)
  {
    var withGps := Filter(areas, HasGps);
    var withoutGps := Filter(areas, NoGps);
    if |withGps| <= 2 {
      return areas;
    }
    var result := GreedyTour(withGps, dist);
    ordered := result + withoutGps;
  }

  // -------------------------------------------------------------- maps link

  /** `${lat},${lng}` with the default number text. */
  function CoordText(p: Position): string
  {
    Plain(p.lat) + "," + Plain(p.lng)
  }

  function CoordTexts(ws: seq<Position>): (r: seq<string>)
    ensures |r| == |ws|
    ensures forall i :: 0 <= i < |ws| ==> r[i] == CoordText(ws[i])
  {
    seq(|ws|, i requires 0 <= i < |ws| => CoordText(ws[i]))
  }

  const MapsBase: string := "https://www.google.com/maps/dir/?api=1&origin="

  /** `buildGoogleMapsUrl`. */
  function BuildGoogleMapsUrl(ws: seq<Position>): (r: Option<string>)
    ensures r.None? <==> |ws| < 2
    ensures r.Some? ==>
      r.value == MapsBase + CoordText(ws[0]) + "&destination=" + CoordText(ws[|ws| - 1])
                 + (if |ws| > 2 then "&waypoints=" + Join(CoordTexts(ws[1..|ws| - 1]), "|") else "") + "&travelmode=driving"
  {
    if |ws| < 2 then None
    else
      var middle := Join(CoordTexts(ws[1..|ws| - 1]), "|");
      MiddleEmpty(ws);
      Some(MapsBase + CoordText(ws[0]) + "&destination=" + CoordText(ws[|ws| - 1])
           + (if middle != "" then "&waypoints=" + middle else "") + "&travelmode=driving")
  }

  /** The intermediate stops' text is empty exactly when there are none. */
  lemma MiddleEmpty(ws: seq<Position>)
    requires |ws| >= 2
    ensures Join(CoordTexts(ws[1..|ws| - 1]), "|") == "" <==> |ws| == 2
  {
    var m := CoordTexts(ws[1..|ws| - 1]);
    JoinEmpty(m, '|');
  }

  /** The `waypoints` parameter lists the intermediate stops in order, each as latitude then longitude. */
  lemma WaypointsRoundTrip(ws: seq<Position>)
    requires |ws| > 2
    ensures var m := CoordTexts(ws[1..|ws| - 1]);
      Split(Join(m, "|"), '|') == m
      && forall i :: 0 <= i < |m| ==> Split(m[i], ',') == [Plain(ws[i + 1].lat), Plain(ws[i + 1].lng)]
  {
    var mid := ws[1..|ws| - 1];
    var m := CoordTexts(mid);
    forall i | 0 <= i < |m| ensures '|' !in m[i] && Split(m[i], ',') == [Plain(ws[i + 1].lat), Plain(ws[i + 1].lng)] {
      assert mid[i] == ws[i + 1];
      PlainSeparators(mid[i].lat);
      PlainSeparators(mid[i].lng);
      CoordinateSplit(mid[i].lat, mid[i].lng);
    }
    SplitJoin(m, '|');
  }
}
