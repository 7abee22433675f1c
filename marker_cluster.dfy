/**
 * Marker clustering on the map. Markers are visited in list order; each one
 * not yet assigned seeds a cluster, and every later unassigned marker whose
 * on-screen distance to the seed is below the radius joins it. A cluster is
 * drawn at the mean of its members' positions, and a cluster of one as the
 * marker itself.
 *
 * The on-screen distance depends on the map's projection at the current zoom
 * and is a parameter here.
 */
module MarkerCluster {
  import opened Common

  datatype Marker = Marker(lat: real, lng: real, id: string, popup: Option<string>)

  datatype Cluster = Cluster(centerLat: real, centerLng: real, markers: seq<Marker>)

  // ------------------------------------------------------------ specification

  /** Strictly increasing indices. */
  predicate Ascending(g: seq<nat>)
  {
    forall s, t :: 0 <= s < t < |g| ==> g[s] < g[t]
  }

  /** Whether marker `k` joins the cluster seeded by `i`, given the markers taken before the seed. */
  predicate Joins(m: seq<Marker>, dist: (Marker, Marker) -> real, radius: real, taken: set<nat>, i: nat, k: nat)
    requires i < |m| && k < |m|
  {
    k !in taken && dist(m[i], m[k]) < radius
  }

  /** The markers after seed `i` and before `j` that join its cluster, in index order. */
  function Joiners(m: seq<Marker>, dist: (Marker, Marker) -> real, radius: real, taken: set<nat>, i: nat, j: nat)
    : seq<nat>
    requires i < j <= |m|
    decreases j
  {
    if j == i + 1 then []
    else
      var prev := Joiners(m, dist, radius, taken, i, j - 1);
      if Joins(m, dist, radius, taken, i, j - 1) then prev + [j - 1] else prev
  }

  /** Exactly the later markers before `j` that join the seed, in ascending order. */
  lemma {:induction false} JoinersMeaning(m: seq<Marker>, dist: (Marker, Marker) -> real, radius: real, taken: set<nat>, i: nat, j: nat)
    requires i < j <= |m|
    ensures var r := Joiners(m, dist, radius, taken, i, j);
      && Ascending(r)
      && (forall t :: 0 <= t < |r| ==> i < r[t] < j && Joins(m, dist, radius, taken, i, r[t]))
      && (forall k :: i < k < j && Joins(m, dist, radius, taken, i, k) ==> k in r)
    decreases j
  {
    if j > i + 1 {
      var prev := Joiners(m, dist, radius, taken, i, j - 1);
      JoinersMeaning(m, dist, radius, taken, i, j - 1);
      if Joins(m, dist, radius, taken, i, j - 1) {
        AscendingSnoc(prev, j - 1);
        assert Joiners(m, dist, radius, taken, i, j) == prev + [j - 1];
      } else {
        assert Joiners(m, dist, radius, taken, i, j) == prev;
      }
    } else {
      assert Joiners(m, dist, radius, taken, i, j) == [];
    }
  }

  lemma AscendingSnoc(g: seq<nat>, x: nat)
    requires Ascending(g) && forall t :: 0 <= t < |g| ==> g[t] < x
    ensures Ascending(g + [x])
  {
  }

  /** The outer loop's state: the clusters as index lists, and the taken indices. */
  datatype Clustering = Clustering(groups: seq<seq<nat>>, taken: set<nat>)

  function Elements(g: seq<nat>): set<nat>
  {
    set t | t in g
  }

  /** The cluster that seed `i` starts when it is not yet taken. */
  function NewCluster(m: seq<Marker>, dist: (Marker, Marker) -> real, radius: real, taken: set<nat>, i: nat): seq<nat>
    requires i < |m|
  {
    [i] + Joiners(m, dist, radius, taken, i, |m|)
  }

  /** The state after the outer loop has looked at markers `0 .. i - 1`. */
  function Step(m: seq<Marker>, dist: (Marker, Marker) -> real, radius: real, i: nat): Clustering
    requires i <= |m|
    decreases i
  {
    if i == 0 then Clustering([], {})
    else
      var s := Step(m, dist, radius, i - 1);
      var seed := i - 1;
      if seed in s.taken then s
      else
        var g := NewCluster(m, dist, radius, s.taken, seed);
        Clustering(s.groups + [g], s.taken + Elements(g))
  }

  // --------------------------------------------------------------- invariant

  /** The members of all clusters, cluster after cluster. */
  function Flatten(gs: seq<seq<nat>>): seq<nat>
    decreases |gs|
  {
    if gs == [] then [] else Flatten(gs[..|gs| - 1]) + gs[|gs| - 1]
  }

  /** Each cluster has its seed first, its other members after it and within the radius of it. */
  ghost predicate Shaped(m: seq<Marker>, dist: (Marker, Marker) -> real, radius: real, i: nat, gs: seq<seq<nat>>)
  {
    forall c :: 0 <= c < |gs| ==>
      (var g := gs[c];
       |g| >= 1 && Ascending(g) && g[0] < i && g[|g| - 1] < |m|
       && forall t :: 0 < t < |g| ==> dist(m[g[0]], m[g[t]]) < radius)
  }

  /** Every marker before a cluster's seed belongs to an earlier cluster. */
  ghost predicate LowestSeeds(gs: seq<seq<nat>>)
  {
    forall c, k :: 0 <= c < |gs| && |gs[c]| >= 1 && 0 <= k < gs[c][0] ==> k in Flatten(gs[..c])
  }

  /**
   * The outer loop's invariant after `i` markers: the taken set is the set of
   * cluster members, no marker is in two clusters or twice in one, the taken
   * markers are markers and include all before `i`.
   */
  ghost predicate Good(m: seq<Marker>, dist: (Marker, Marker) -> real, radius: real, i: nat, s: Clustering)
  {
    (forall k :: k in Flatten(s.groups) <==> k in s.taken)
    && NoDup(Flatten(s.groups))
    && (forall k :: k in s.taken ==> k < |m|)
    && (forall k :: 0 <= k < i ==> k in s.taken)
    && Shaped(m, dist, radius, i, s.groups)
    && LowestSeeds(s.groups)
  }

  lemma AscendingNoDup(g: seq<nat>)
    requires Ascending(g)
    ensures NoDup(g)
  {
  }

  /** The new cluster of seed `i`: ascending, within the markers, its members not taken before. */
  lemma NewGroup(m: seq<Marker>, dist: (Marker, Marker) -> real, radius: real, s: Clustering, i: nat)
    requires i < |m| && i !in s.taken
    ensures var g := NewCluster(m, dist, radius, s.taken, i);
      |g| >= 1 && g[0] == i && Ascending(g) && g[|g| - 1] < |m|
      && (forall t :: 0 <= t < |g| ==> g[t] !in s.taken && g[t] < |m|)
      && (forall t :: 0 < t < |g| ==> dist(m[g[0]], m[g[t]]) < radius)
  {
    var j := Joiners(m, dist, radius, s.taken, i, |m|);
    JoinersMeaning(m, dist, radius, s.taken, i, |m|);
    var g := [i] + j;
    assert forall t :: 0 < t < |g| ==> g[t] == j[t - 1];
  }

  lemma FlattenSnoc(gs: seq<seq<nat>>, g: seq<nat>)
    ensures Flatten(gs + [g]) == Flatten(gs) + g
  {
    assert (gs + [g])[..|gs|] == gs;
  }

  lemma AddMembers(gs: seq<seq<nat>>, taken: set<nat>, g: seq<nat>)
    requires forall k :: k in Flatten(gs) <==> k in taken
    ensures forall k :: k in Flatten(gs + [g]) <==> k in taken + Elements(g)
  {
    FlattenSnoc(gs, g);
  }

  lemma AddNoDup(gs: seq<seq<nat>>, taken: set<nat>, g: seq<nat>)
    requires forall k :: k in Flatten(gs) <==> k in taken
    requires NoDup(Flatten(gs)) && Ascending(g) && forall t :: 0 <= t < |g| ==> g[t] !in taken
    ensures NoDup(Flatten(gs + [g]))
  {
    FlattenSnoc(gs, g);
    AscendingNoDup(g);
    NoDupAppend(Flatten(gs), g);
  }

  lemma AddShaped(m: seq<Marker>, dist: (Marker, Marker) -> real, radius: real, i: nat, gs: seq<seq<nat>>, g: seq<nat>)
    requires Shaped(m, dist, radius, i, gs)
    requires |g| >= 1 && g[0] == i && Ascending(g) && g[|g| - 1] < |m|
    requires forall t :: 0 < t < |g| ==> dist(m[g[0]], m[g[t]]) < radius
    ensures Shaped(m, dist, radius, i + 1, gs + [g])
  {
    var n := |gs|;
    forall c | 0 <= c < n + 1
      ensures var h := (gs + [g])[c];
        |h| >= 1 && Ascending(h) && h[0] < i + 1 && h[|h| - 1] < |m|
        && forall t :: 0 < t < |h| ==> dist(m[h[0]], m[h[t]]) < radius
    {
      if c < n {
        assert (gs + [g])[c] == gs[c];
      } else {
        assert (gs + [g])[c] == g;
      }
    }
  }

  lemma AddLowest(gs: seq<seq<nat>>, taken: set<nat>, i: nat, g: seq<nat>)
    requires forall k :: k in Flatten(gs) <==> k in taken
    requires forall k :: 0 <= k < i ==> k in taken
    requires LowestSeeds(gs) && |g| >= 1 && g[0] == i
    ensures LowestSeeds(gs + [g])
  {
    var hs := gs + [g];
    var n := |gs|;
    forall c, k | 0 <= c < |hs| && |hs[c]| >= 1 && 0 <= k < hs[c][0] ensures k in Flatten(hs[..c]) {
      if c == n {
        assert hs[..n] == gs;
      } else {
        assert hs[c] == gs[c];
        assert hs[..c] == gs[..c];
      }
    }
  }

  /** One outer step: a taken seed changes nothing, an untaken one adds its cluster. */
  lemma StepNext(m: seq<Marker>, dist: (Marker, Marker) -> real, radius: real, i: nat)
    requires 0 < i <= |m|
    ensures var s := Step(m, dist, radius, i - 1); var g := NewCluster(m, dist, radius, s.taken, i - 1);
      Step(m, dist, radius, i) == if i - 1 in s.taken then s else Clustering(s.groups + [g], s.taken + Elements(g))
  {
  }

  /** The taken set is the set of cluster members. */
  lemma {:induction false} StepMembers(m: seq<Marker>, dist: (Marker, Marker) -> real, radius: real, i: nat)
    requires i <= |m|
    ensures var s := Step(m, dist, radius, i); forall k :: k in Flatten(s.groups) <==> k in s.taken
    decreases i
  {
    if i > 0 {
      var s := Step(m, dist, radius, i - 1);
      StepMembers(m, dist, radius, i - 1);
      StepNext(m, dist, radius, i);
      AddMembers(s.groups, s.taken, NewCluster(m, dist, radius, s.taken, i - 1));
    }
  }

  /** The taken markers are markers, and every marker before `i` is taken. */
  lemma {:induction false} StepTaken(m: seq<Marker>, dist: (Marker, Marker) -> real, radius: real, i: nat)
    requires i <= |m|
    ensures var s := Step(m, dist, radius, i);
      (forall k :: k in s.taken ==> k < |m|) && forall k :: 0 <= k < i ==> k in s.taken
    decreases i
  {
    if i > 0 {
      var s := Step(m, dist, radius, i - 1);
      StepTaken(m, dist, radius, i - 1);
      StepNext(m, dist, radius, i);
      if i - 1 !in s.taken {
        NewGroup(m, dist, radius, s, i - 1);
        var g := NewCluster(m, dist, radius, s.taken, i - 1);
        assert g[0] in Elements(g);
      }
    }
  }

  /** No marker is in two clusters or twice in one. */
  lemma {:induction false} StepNoDup(m: seq<Marker>, dist: (Marker, Marker) -> real, radius: real, i: nat)
    requires i <= |m|
    ensures NoDup(Flatten(Step(m, dist, radius, i).groups))
    decreases i
  {
    if i > 0 {
      var s := Step(m, dist, radius, i - 1);
      StepNoDup(m, dist, radius, i - 1);
      StepMembers(m, dist, radius, i - 1);
      StepNext(m, dist, radius, i);
      if i - 1 !in s.taken {
        NewGroup(m, dist, radius, s, i - 1);
        AddNoDup(s.groups, s.taken, NewCluster(m, dist, radius, s.taken, i - 1));
      }
    }
  }

  /** Every cluster is well shaped. */
  lemma {:induction false} StepShaped(m: seq<Marker>, dist: (Marker, Marker) -> real, radius: real, i: nat)
    requires i <= |m|
    ensures Shaped(m, dist, radius, i, Step(m, dist, radius, i).groups)
    decreases i
  {
    if i > 0 {
      var s := Step(m, dist, radius, i - 1);
      StepShaped(m, dist, radius, i - 1);
      StepNext(m, dist, radius, i);
      if i - 1 !in s.taken {
        NewGroup(m, dist, radius, s, i - 1);
        AddShaped(m, dist, radius, i - 1, s.groups, NewCluster(m, dist, radius, s.taken, i - 1));
      } else {
        assert Shaped(m, dist, radius, i, s.groups);
      }
    }
  }

  /** Every seed is the lowest marker not in an earlier cluster. */
  lemma {:induction false} StepLowest(m: seq<Marker>, dist: (Marker, Marker) -> real, radius: real, i: nat)
    requires i <= |m|
    ensures LowestSeeds(Step(m, dist, radius, i).groups)
    decreases i
  {
    if i > 0 {
      var s := Step(m, dist, radius, i - 1);
      StepLowest(m, dist, radius, i - 1);
      StepMembers(m, dist, radius, i - 1);
      StepTaken(m, dist, radius, i - 1);
      StepNext(m, dist, radius, i);
      if i - 1 !in s.taken {
        AddLowest(s.groups, s.taken, i - 1, NewCluster(m, dist, radius, s.taken, i - 1));
      }
    }
  }

  /** The outer loop keeps the invariant. */
  lemma StepGood(m: seq<Marker>, dist: (Marker, Marker) -> real, radius: real, i: nat)
    requires i <= |m|
    ensures Good(m, dist, radius, i, Step(m, dist, radius, i))
  {
    StepMembers(m, dist, radius, i);
    StepTaken(m, dist, radius, i);
    StepNoDup(m, dist, radius, i);
    StepShaped(m, dist, radius, i);
    StepLowest(m, dist, radius, i);
  }

  /** The index clusters of the whole list. */
  function Groups(m: seq<Marker>, dist: (Marker, Marker) -> real, radius: real): seq<seq<nat>>
  {
    Step(m, dist, radius, |m|).groups
  }

  /**
   * The clusters partition the markers: listed cluster after cluster, the
   * members are exactly the markers, each once.
   */
  lemma GroupsPartition(m: seq<Marker>, dist: (Marker, Marker) -> real, radius: real)
    ensures var gs := Groups(m, dist, radius);
      NoDup(Flatten(gs))
      && (forall k: nat :: k in Flatten(gs) <==> k < |m|)
  {
    StepGood(m, dist, radius, |m|);
  }

  lemma {:induction false} FlattenMember(gs: seq<seq<nat>>, c: nat, k: nat)
    requires c < |gs| && k in gs[c]
    ensures k in Flatten(gs[..c + 1])
  {
    assert gs[..c + 1][..c] == gs[..c];
  }

  lemma {:induction false} FlattenPrefix(gs: seq<seq<nat>>, c: nat, k: nat)
    requires c <= |gs| && k in Flatten(gs[..c])
    ensures k in Flatten(gs)
    decreases |gs| - c
  {
    if c < |gs| {
      assert gs[..c + 1][..c] == gs[..c];
      FlattenPrefix(gs, c + 1, k);
    } else {
      assert gs[..c] == gs;
    }
  }

  /** No marker is in two clusters when the member list has no repetition. */
  lemma {:induction false} FlattenDisjoint(gs: seq<seq<nat>>, c1: nat, c2: nat, k: nat)
    requires NoDup(Flatten(gs))
    requires c1 < c2 < |gs| && k in gs[c1]
    ensures k !in gs[c2]
    decreases |gs|
  {
    var n := |gs| - 1;
    var init := gs[..n];
    assert Flatten(gs) == Flatten(init) + gs[n];
    assert NoDup(Flatten(init)) by {
      assert forall i :: 0 <= i < |Flatten(init)| ==> Flatten(gs)[i] == Flatten(init)[i];
    }
    if c2 < n {
      assert init[c1] == gs[c1] && init[c2] == gs[c2];
      FlattenDisjoint(init, c1, c2, k);
    } else {
      FlattenMember(init, c1, k);
      assert init[..c1 + 1] == gs[..c1 + 1];
      FlattenPrefix(init, c1 + 1, k);
      var a := Flatten(init);
      var x :| 0 <= x < |a| && a[x] == k;
      forall y | 0 <= y < |gs[n]| ensures gs[n][y] != k {
        assert Flatten(gs)[x] == k && Flatten(gs)[|a| + y] == gs[n][y];
      }
    }
  }

  /** Clusters are made in index order, each seeded by the lowest marker not in an earlier cluster. */
  lemma GroupsSeeds(m: seq<Marker>, dist: (Marker, Marker) -> real, radius: real)
    ensures var gs := Groups(m, dist, radius);
      (forall c :: 0 <= c < |gs| ==> |gs[c]| >= 1 && gs[c][|gs[c]| - 1] < |m|)
      && (forall c, k :: 0 <= c < |gs| && |gs[c]| >= 1 && 0 <= k < gs[c][0] ==> k in Flatten(gs[..c]))
      && (forall c, t :: 0 <= c < |gs| && 0 < t < |gs[c]| ==>
            gs[c][0] < gs[c][t] < |m| && dist(m[gs[c][0]], m[gs[c][t]]) < radius)
  {
    StepGood(m, dist, radius, |m|);
  }

  // --------------------------------------------------------------- clusters

  function LatSum(ms: seq<Marker>): real
  {
    if ms == [] then 0.0 else ms[0].lat + LatSum(ms[1..])
  }

  function LngSum(ms: seq<Marker>): real
  {
    if ms == [] then 0.0 else ms[0].lng + LngSum(ms[1..])
  }

  /** The markers at the given indices. */
  function MarkersAt(m: seq<Marker>, g: seq<nat>): (r: seq<Marker>)
    requires forall t :: 0 <= t < |g| ==> g[t] < |m|
    ensures |r| == |g| && forall t :: 0 <= t < |g| ==> r[t] == m[g[t]]
  {
    seq(|g|, t requires 0 <= t < |g| => m[g[t]])
  }

  /** A cluster at the mean position of its members. */
  function ClusterOf(ms: seq<Marker>): (c: Cluster)
    requires |ms| >= 1
    ensures c.markers == ms
    ensures c.centerLat * (|ms| as real) == LatSum(ms) && c.centerLng * (|ms| as real) == LngSum(ms)
  {
    Cluster(LatSum(ms) / (|ms| as real), LngSum(ms) / (|ms| as real), ms)
  }

  /** The centre of a one-marker cluster is that marker's position. */
  lemma SingletonCenter(x: Marker)
    ensures ClusterOf([x]).centerLat == x.lat && ClusterOf([x]).centerLng == x.lng
  {
    assert [x][1..] == [];
    assert LatSum([x]) == x.lat && LngSum([x]) == x.lng;
    assert |[x]| as real == 1.0;
  }

  /** The clusters drawn for index clusters that are non-empty and within the markers. */
  function ClustersOf(m: seq<Marker>, gs: seq<seq<nat>>): (r: seq<Cluster>)
    requires forall c :: 0 <= c < |gs| ==> |gs[c]| >= 1 && forall t :: 0 <= t < |gs[c]| ==> gs[c][t] < |m|
    ensures |r| == |gs| && forall c :: 0 <= c < |gs| ==> r[c] == ClusterOf(MarkersAt(m, gs[c]))
  {
    seq(|gs|, c requires 0 <= c < |gs| => ClusterOf(MarkersAt(m, gs[c])))
  }

  lemma GroupsWithinMarkers(m: seq<Marker>, dist: (Marker, Marker) -> real, radius: real, i: nat)
    requires i <= |m|
    ensures var gs := Step(m, dist, radius, i).groups;
      forall c :: 0 <= c < |gs| ==> |gs[c]| >= 1 && forall t :: 0 <= t < |gs[c]| ==> gs[c][t] < |m|
  {
    StepGood(m, dist, radius, i);
    var gs := Step(m, dist, radius, i).groups;
    forall c, t | 0 <= c < |gs| && 0 <= t < |gs[c]| ensures gs[c][t] < |m| {
      assert gs[c][t] <= gs[c][|gs[c]| - 1];
    }
  }

  /** `clusterMarkers`' result: one cluster per index cluster, in order. */
  function Clusters(m: seq<Marker>, dist: (Marker, Marker) -> real, radius: real): (r: seq<Cluster>)
    ensures |r| == |Groups(m, dist, radius)|
    ensures forall c :: 0 <= c < |r| ==> |r[c].markers| >= 1
  {
    GroupsWithinMarkers(m, dist, radius, |m|);
    assert Groups(m, dist, radius) == Step(m, dist, radius, |m|).groups;
    ClustersOf(m, Groups(m, dist, radius))
  }

  /** The inner loop: the seed's cluster and the taken set afterwards. */
  method GrowGroup(m: seq<Marker>, dist: (Marker, Marker) -> real, radius: real, taken0: set<nat>, i: nat)
    returns (group: seq<Marker>, taken: set<nat>, ghost g: seq<nat>)
    requires i < |m|
    ensures g == NewCluster(m, dist, radius, taken0, i)
    ensures forall t :: 0 <= t < |g| ==> g[t] < |m|
    ensures group == MarkersAt(m, g)
    ensures taken == taken0 + Elements(g)
  {
    group := [m[i]];
    taken := taken0 + {i};
    g := [i];
    var j := i + 1;
    while j < |m|
      invariant i < j <= |m|
      invariant g == [i] + Joiners(m, dist, radius, taken0, i, j)
      invariant forall t :: 0 <= t < |g| ==> g[t] < j
      invariant group == MarkersAt(m, g)
      invariant taken == taken0 + Elements(g)
    {
      assert j !in Elements(g);
      if j !in taken && dist(m[i], m[j]) < radius {
        MarkersAtSnoc(m, g, j);
        ElementsSnoc(g, j);
        group := group + [m[j]];
        taken := taken + {j};
        g := g + [j];
      }
      j := j + 1;
    }
  }

  lemma MarkersAtSnoc(m: seq<Marker>, g: seq<nat>, x: nat)
    requires x < |m| && forall t :: 0 <= t < |g| ==> g[t] < |m|
    ensures MarkersAt(m, g + [x]) == MarkersAt(m, g) + [m[x]]
  {
    assert forall t :: 0 <= t < |g| ==> (g + [x])[t] == g[t];
  }

  lemma ElementsSnoc(g: seq<nat>, x: nat)
    ensures Elements(g + [x]) == Elements(g) + {x}
  {
    assert forall t :: t in g + [x] <==> t in g || t == x;
  }

  /** `clusterMarkers`: the nested loops over the marker list. */
  method ClusterMarkers(m: seq<Marker>, dist: (Marker, Marker) -> real, radius: real) returns (clusters: seq<Cluster>)
    ensures clusters == Clusters(m, dist, radius)
  {
    clusters := [];
    var taken: set<nat> := {};
    ghost var groups: seq<seq<nat>> := [];
    var i := 0;
    while i < |m|
      invariant 0 <= i <= |m|
      invariant Step(m, dist, radius, i) == Clustering(groups, taken)
      invariant forall c :: 0 <= c < |groups| ==> |groups[c]| >= 1 && forall t :: 0 <= t < |groups[c]| ==> groups[c][t] < |m|
      invariant clusters == ClustersOf(m, groups)
    {
      GroupsWithinMarkers(m, dist, radius, i + 1);
      if i in taken {
        i := i + 1;
        continue;
      }
      var group, taken', g := GrowGroup(m, dist, radius, taken, i);
      var c := ClusterOf(group);
      assert ClustersOf(m, groups + [g]) == ClustersOf(m, groups) + [c];
      clusters := clusters + [c];
      groups := groups + [g];
      taken := taken';
      i := i + 1;
    }
    GroupsWithinMarkers(m, dist, radius, |m|);
  }

  // ---------------------------------------------------------------- drawing

  datatype Tone = Primary | WarningTone | Destructive

  /** `createClusterIcon`'s pixel size: 30 below 10 members, 36 below 100, else 40. */
  function IconSize(count: nat): (s: nat)
    ensures count < 10 ==> s == 30
    ensures 10 <= count < 100 ==> s == 36
    ensures count >= 100 ==> s == 40
  {
    if count < 10 then 30 else if count < 100 then 36 else 40
  }

  /** The icon's colour: primary below 5 members, warning below 15, else destructive. */
  function IconTone(count: nat): (t: Tone)
    ensures t == Primary <==> count < 5
    ensures t == WarningTone <==> 5 <= count < 15
    ensures t == Destructive <==> count >= 15
  {
    if count < 5 then Primary else if count < 15 then WarningTone else Destructive
  }

  /** The count's font size: 11 in the smallest icon, 13 otherwise. */
  function FontSize(count: nat): (f: nat)
    ensures f == 11 <==> count < 10
    ensures f == 13 <==> count >= 10
  {
    if IconSize(count) < 36 then 11 else 13
  }

  /** Larger clusters never get a smaller icon. */
  lemma IconSizeMonotone(a: nat, b: nat)
    requires a <= b
    ensures IconSize(a) <= IconSize(b)
  {
  }

  /** What one cluster is drawn as. */
  datatype Drawn =
    | Single(lat: real, lng: real, id: string, popup: Option<string>)
    | Group(lat: real, lng: real, size: nat, tone: Tone, count: nat)

  /** A cluster of one is drawn as its marker, with a popup only for non-empty content; others as a cluster icon. */
  function Draw(c: Cluster): (d: Drawn)
    requires |c.markers| >= 1
    ensures d.Single? <==> |c.markers| == 1
    ensures d.Single? ==> d.id == c.markers[0].id && d.lat == c.markers[0].lat && d.lng == c.markers[0].lng
                          && (d.popup.Some? <==> TruthyText(c.markers[0].popup))
    ensures d.Group? ==> d.lat == c.centerLat && d.lng == c.centerLng && d.count == |c.markers|
                         && d.size == IconSize(|c.markers|) && d.tone == IconTone(|c.markers|)
  {
    if |c.markers| == 1 then
      var x := c.markers[0];
      Single(x.lat, x.lng, x.id, if TruthyText(x.popup) then x.popup else None)
    else
      Group(c.centerLat, c.centerLng, IconSize(|c.markers|), IconTone(|c.markers|), |c.markers|)
  }

  /** A cluster icon always shows at least two markers, so never the smallest colour's lower half. */
  lemma GroupIconCount(c: Cluster)
    requires |c.markers| >= 1 && Draw(c).Group?
    ensures Draw(c).count >= 2
  {
  }
}
