/**
 * The route line on the map: one road segment per consecutive pair of
 * waypoints, all requested at once; a segment the routing service cannot
 * give is drawn as the straight line between its two waypoints, and then the
 * whole line is drawn dashed as approximate.
 */
module RoutePolyline {
  import opened Common
  import opened Domain
  import Routing

  /** Segment `i`'s line: the road geometry, or the straight line when its request failed. */
  function SegmentLine(ws: seq<Position>, results: seq<Option<Routing.RouteResult>>, i: nat): seq<Position>
    requires i < |results| && i + 1 < |ws|
  {
    if results[i].Some? then results[i].value.coordinates else [ws[i], ws[i + 1]]
  }

  /** The lines of all segments, in waypoint order. */
  function Lines(ws: seq<Position>, results: seq<Option<Routing.RouteResult>>): (r: seq<seq<Position>>)
    requires |results| < |ws|
    ensures |r| == |results|
    ensures forall i :: 0 <= i < |r| && results[i].Some? ==> r[i] == results[i].value.coordinates
    ensures forall i :: 0 <= i < |r| && results[i].None? ==> r[i] == [ws[i], ws[i + 1]]
  {
    seq(|results|, i requires 0 <= i < |results| => SegmentLine(ws, results, i))
  }

  /** Some segment fell back to a straight line. */
  predicate AnyFailed(results: seq<Option<Routing.RouteResult>>)
  {
    exists i :: 0 <= i < |results| && results[i].None?
  }

  /** The loop over the results of `loadSegments`, building the lines and the `anyFailed` flag. */
  method CollectSegments(ws: seq<Position>, results: seq<Option<Routing.RouteResult>>)
    returns (segments: seq<seq<Position>>, anyFailed: bool)
    requires |results| < |ws|
    ensures segments == Lines(ws, results)
    ensures anyFailed <==> AnyFailed(results)
  {
    segments := [];
    anyFailed := false;
    var i := 0;
    while i < |results|
      invariant 0 <= i <= |results|
      invariant segments == Lines(ws, results[..i])
      invariant anyFailed <==> AnyFailed(results[..i])
    {
      var result := results[i];
      if result.Some? {
        segments := segments + [result.value.coordinates];
      } else {
        anyFailed := true;
        segments := segments + [[ws[i], ws[i + 1]]];
      }
      assert results[..i + 1] == results[..i] + [results[i]];
      assert AnyFailed(results[..i + 1]) <==> AnyFailed(results[..i]) || results[i].None? by {
        if results[i].None? {
          assert results[..i + 1][i].None?;
        }
        if AnyFailed(results[..i + 1]) && !results[i].None? {
          var k :| 0 <= k < i + 1 && results[..i + 1][k].None?;
          assert k < i && results[..i][k].None?;
        }
        if AnyFailed(results[..i]) {
          var k :| 0 <= k < i && results[..i][k].None?;
          assert results[..i + 1][k].None?;
        }
      }
      i := i + 1;
    }
    assert results[..i] == results;
  }

  /** Line `i` is drawn from result `i`. */
  lemma LineOf(ws: seq<Position>, results: seq<Option<Routing.RouteResult>>, i: nat, result: Option<Routing.RouteResult>)
    requires i < |results| && |results| == |ws| - 1 && results[i] == result
    ensures var lines := Lines(ws, results);
      |lines| == |ws| - 1
      && (result.Some? ==> lines[i] == result.value.coordinates)
      && (result.None? ==> lines[i] == [ws[i], ws[i + 1]])
  {
  }

  /** The line of the segment cached or answered for the pair `i`, `i + 1`, as `loadSegments` draws it. */
  lemma SegmentDrawn(initial: map<string, Routing.RouteResult>, ws: seq<Position>, responses: nat -> Routing.OsrmResponse, i: nat)
    requires i + 1 < |ws|
    ensures var lines := Lines(ws, Routing.SegmentResults(initial, ws, responses, |ws| - 1));
      var fetched := Routing.Fetch(initial, Routing.Segment(ws, i), responses(i)).result;
      |lines| == |ws| - 1
      && (fetched.Some? ==> lines[i] == fetched.value.coordinates)
      && (fetched.None? ==> lines[i] == [ws[i], ws[i + 1]])
  {
    Routing.SegmentFetchAt(initial, ws, responses, |ws| - 1, i);
    LineOf(ws, Routing.SegmentResults(initial, ws, responses, |ws| - 1), i,
      Routing.Fetch(initial, Routing.Segment(ws, i), responses(i)).result);
  }

  /** The line is approximate exactly when some segment's fetch gave nothing. */
  lemma ApproximateIffFailure(initial: map<string, Routing.RouteResult>, ws: seq<Position>, responses: nat -> Routing.OsrmResponse)
    requires |ws| >= 2
    ensures AnyFailed(Routing.SegmentResults(initial, ws, responses, |ws| - 1)) <==>
      exists i :: 0 <= i < |ws| - 1 && Routing.Fetch(initial, Routing.Segment(ws, i), responses(i)).result.None?
  {
    var results := Routing.SegmentResults(initial, ws, responses, |ws| - 1);
    Routing.SegmentResultsAt(initial, ws, responses, |ws| - 1);
    forall i | 0 <= i < |ws| - 1
      ensures results[i] == Routing.Fetch(initial, Routing.Segment(ws, i), responses(i)).result
    {
      Routing.SegmentIsFetch(initial, ws, responses, i);
    }
  }

  /** `SEGMENT_COLORS`. */
  const SegmentColors: seq<string> := [
    "#3b82f6", "#22c55e", "#f59e0b", "#ef4444", "#8b5cf6",
    "#06b6d4", "#ec4899", "#14b8a6", "#f97316", "#6366f1"]

  /** The colour of segment `i`, cycling through the palette. */
  function SegmentColor(i: nat): (c: string)
    ensures c in SegmentColors
  {
    SegmentColors[i % |SegmentColors|]
  }

  /** The palette repeats every ten segments. */
  lemma ColorsCycle(i: nat)
    ensures SegmentColor(i + 10) == SegmentColor(i)
  {
    assert (i + 10) % 10 == i % 10;
  }

  lemma PaletteDistinct()
    ensures forall a, b :: 0 <= a < b < |SegmentColors| ==> SegmentColors[a] != SegmentColors[b]
  {
    forall a, b | 0 <= a < b < |SegmentColors| ensures SegmentColors[a] != SegmentColors[b] {
      assert SegmentColors[a][1..3] != SegmentColors[b][1..3] || SegmentColors[a][3..] != SegmentColors[b][3..];
    }
  }

  /** Consecutive segments never share a colour. */
  lemma NeighboursDiffer(i: nat)
    ensures SegmentColor(i) != SegmentColor(i + 1)
  {
    PaletteDistinct();
    var a := i % 10;
    var b := (i + 1) % 10;
    assert b == if a == 9 then 0 else a + 1;
  }

  /** One drawn polyline. */
  datatype Drawn = Drawn(positions: seq<Position>, color: string, dashArray: Option<string>)

  /** What the layer draws: nothing without segments, else one polyline per segment, all dashed when approximate. */
  function Render(segments: seq<seq<Position>>, fallback: bool): (r: Option<seq<Drawn>>)
    ensures r.None? <==> segments == []
    ensures r.Some? ==> |r.value| == |segments|
    ensures r.Some? ==> forall i :: 0 <= i < |segments| ==>
      r.value[i].positions == segments[i] && r.value[i].color == SegmentColor(i)
      && (r.value[i].dashArray.Some? <==> fallback)
  {
    if segments == [] then None
    else Some(seq(|segments|, i requires 0 <= i < |segments| =>
      Drawn(segments[i], SegmentColor(i), if fallback then Some("8, 8") else None)))
  }

  /** The layer's state: the segments drawn and whether they are approximate. */
  class SegmentLayer {
    var segments: seq<seq<Position>>
    var fallback: bool

    constructor ()
      ensures segments == [] && !fallback
    {
      segments := [];
      fallback := false;
    }

    /**
     * The effect for a list of waypoints, with the service's responses per
     * segment as a parameter. A cancelled effect still fills the cache but
     * leaves the layer as it was.
     */
    method Load(cache: Routing.RouteCache, ws: seq<Position>, responses: nat -> Routing.OsrmResponse, cancelled: bool)
      modifies this, cache
      ensures |ws| < 2 ==> segments == [] && fallback == old(fallback) && cache.entries == old(cache.entries)
      ensures |ws| >= 2 ==>
        (var results := Routing.SegmentResults(old(cache.entries), ws, responses, |ws| - 1);
         cache.entries == Routing.SegmentsCache(old(cache.entries), ws, responses, |ws| - 1)
         && (cancelled ==> segments == old(segments) && fallback == old(fallback))
         && (!cancelled ==> segments == Lines(ws, results) && (fallback <==> AnyFailed(results))))
    {
      if |ws| < 2 {
        segments := [];
        return;
      }
      var results, _ := cache.FetchRouteSegments(ws, responses);
      var newSegments, anyFailed := CollectSegments(ws, results);
      if !cancelled {
        segments := newSegments;
        fallback := anyFailed;
      }
    }
  }
}
