/**
 * Recording of a mowing session: starting one inserts a session record and
 * starts watching the device position, each position fix is appended to the
 * trajectory, and stopping writes the end of the session with the
 * trajectory as a GeoJSON line and the average speed, then returns to idle.
 *
 * The database answers, the device's position watch and the clock are
 * parameters. The great-circle distance between two fixes is a parameter
 * too; the GeoJSON line is kept structured rather than as JSON text.
 */
module SessionRecorder {
  import opened Common
  import opened Domain

  /** One position fix: degrees and a millisecond timestamp. */
  datatype GeoPoint = GeoPoint(lat: real, lng: real, timestamp: int)

  /** The default mowing mode of a new session. */
  const DefaultRezim: string := "manu\U{00E1}ln\U{00ED}"

  /** The record inserted into `seceni_relace` when a session starts. */
  datatype SessionInsert = SessionInsert(
    strojId: string,
    arealId: Option<string>,
    userId: string,
    mthStart: real,
    rezim: string,
    sMode: Option<real>)

  /** The GeoJSON feature of the trajectory: a line of `[lng, lat]` pairs with its properties. */
  datatype Trajectory = Trajectory(coordinates: seq<(real, real)>, pointCount: nat, startTime: Option<string>, endTime: string)

  /** The update written to the session record when it stops. */
  datatype SessionUpdate = SessionUpdate(
    id: string,
    endTime: string,
    mthEnd: Option<real>,
    areaMowed: Option<real>,
    averageSpeed: Option<real>,
    trajectory: Option<Trajectory>)

  /** The messages shown to the user. */
  datatype Notice = NotSignedIn | StartFailed | Started | Saved(points: nat) | SaveFailed

  /** The inserted record: an empty area id and a zero or missing `s_mode` are stored as null. */
  function InsertFor(machineId: string, user: User, currentMth: real, arealId: Option<string>, rezim: string, sMode: Option<real>)
    : (r: SessionInsert)
    ensures r.strojId == machineId && r.userId == user.id && r.mthStart == currentMth && r.rezim == rezim
    ensures r.arealId.None? <==> !TruthyText(arealId)
    ensures r.arealId.Some? ==> r.arealId == arealId
    ensures r.sMode.None? <==> !TruthyNum(sMode)
    ensures r.sMode.Some? ==> r.sMode == sMode
  {
    SessionInsert(machineId, TextOrNull(arealId), user.id, currentMth, rezim, NumOrNull(sMode))
  }

  /** The line's coordinates: longitude first, one pair per fix, in order. */
  function Coordinates(points: seq<GeoPoint>): (r: seq<(real, real)>)
    ensures |r| == |points|
    ensures forall i :: 0 <= i < |points| ==> r[i] == (points[i].lng, points[i].lat)
  {
    seq(|points|, i requires 0 <= i < |points| => (points[i].lng, points[i].lat))
  }

  /** The trajectory: a line only from two fixes on, else null. */
  function TrajectoryOf(points: seq<GeoPoint>, startTime: Option<string>, endTime: string): (t: Option<Trajectory>)
    ensures t.Some? <==> |points| >= 2
    ensures t.Some? ==> t.value.coordinates == Coordinates(points) && t.value.pointCount == |points|
                        && t.value.startTime == startTime && t.value.endTime == endTime
  {
    if |points| >= 2 then Some(Trajectory(Coordinates(points), |points|, startTime, endTime)) else None
  }

  /** The line gives back each fix's position, latitude and longitude swapped back. */
  lemma TrajectoryPositions(points: seq<GeoPoint>, startTime: Option<string>, endTime: string)
    requires |points| >= 2
    ensures var c := TrajectoryOf(points, startTime, endTime).value.coordinates;
      |c| == |points| && forall i :: 0 <= i < |c| ==> c[i].1 == points[i].lat && c[i].0 == points[i].lng
  {
  }

  /** The `reduce` over the fixes: 0 at the first, then the distance from the previous fix added. */
  function DistanceFold(points: seq<GeoPoint>, dist: (GeoPoint, GeoPoint) -> real, n: nat): real
    requires n <= |points|
  {
    if n <= 1 then 0.0 else DistanceFold(points, dist, n - 1) + dist(points[n - 2], points[n - 1])
  }

  /** The fold is the length of the path through the first `n` fixes. */
  lemma {:induction false} DistanceFoldIsPathLength(points: seq<GeoPoint>, dist: (GeoPoint, GeoPoint) -> real, n: nat)
    requires n <= |points|
    ensures DistanceFold(points, dist, n) == PathLength(points[..n], dist)
  {
    if n >= 2 {
      DistanceFoldIsPathLength(points, dist, n - 1);
      assert points[..n] == points[..n - 1] + [points[n - 1]];
      PathLengthSnoc(points[..n - 1], points[n - 1], dist);
    } else if n == 1 {
      assert |points[..n]| == 1;
    }
  }

  /** The recorded hours between the first and the last fix. */
  function Hours(points: seq<GeoPoint>): real
    requires |points| >= 1
  {
    (points[|points| - 1].timestamp - points[0].timestamp) as real / 3600000.0
  }

  /**
   * The average speed in km/h: only from two fixes on and over a positive
   * time; the path length over the hours.
   */
  function AverageSpeed(points: seq<GeoPoint>, dist: (GeoPoint, GeoPoint) -> real): (v: Option<real>)
    ensures v.Some? <==> |points| >= 2 && Hours(points) > 0.0
    ensures v.Some? ==> v.value * Hours(points) == PathLength(points, dist)
  {
    if |points| >= 2 then
      var total := DistanceFold(points, dist, |points|);
      var hours := Hours(points);
      DistanceFoldIsPathLength(points, dist, |points|);
      assert points[..|points|] == points;
      if hours > 0.0 then Some(total / hours) else None
    else None
  }

  /** With non-negative distances and time running forward the speed is never negative. */
  lemma AverageSpeedNonNegative(points: seq<GeoPoint>, dist: (GeoPoint, GeoPoint) -> real)
    requires forall a, b :: dist(a, b) >= 0.0
    requires AverageSpeed(points, dist).Some?
    ensures AverageSpeed(points, dist).value >= 0.0
  {
    PathLengthNonNegative(points, dist);
    var v := AverageSpeed(points, dist).value;
    var h := Hours(points);
    if v < 0.0 {
      assert v * h < 0.0;
    }
  }

  /** The recording state of `useMowingSession`. */
  class MowingSession {
    var recording: bool
    var startTime: Option<string>
    var points: seq<GeoPoint>
    var watchId: Option<int>
    var sessionId: Option<string>

    /** Nothing recorded, no watch, no session. */
    predicate Idle()
      reads this
    {
      !recording && startTime.None? && points == [] && watchId.None? && sessionId.None?
    }

    constructor ()
      ensures Idle()
    {
      recording := false;
      startTime := None;
      points := [];
      watchId := None;
      sessionId := None;
    }

    /**
     * `startSession`, with the inserted record's id (none when the insert
     * fails), the position watch's id (none without geolocation) and the
     * current time as parameters.
     */
    method Start(user: Option<User>, machineId: string, currentMth: real, arealId: Option<string>, rezim: string,
                 sMode: Option<real>, insertedId: Option<string>, watch: Option<int>, now: string)
      returns (insert: Option<SessionInsert>, notice: Notice)
      modifies this
      ensures user.None? ==> insert.None? && notice == NotSignedIn
      ensures user.Some? ==> insert == Some(InsertFor(machineId, user.value, currentMth, arealId, rezim, sMode))
      ensures user.None? || insertedId.None? ==>
        recording == old(recording) && startTime == old(startTime) && points == old(points)
        && watchId == old(watchId) && sessionId == old(sessionId)
      ensures user.Some? && insertedId.None? ==> notice == StartFailed
      ensures user.Some? && insertedId.Some? ==>
        recording && startTime == Some(now) && points == [] && watchId == watch && sessionId == insertedId
        && notice == Started
    {
      if user.None? {
        return None, NotSignedIn;
      }
      insert := Some(InsertFor(machineId, user.value, currentMth, arealId, rezim, sMode));
      if insertedId.None? {
        return insert, StartFailed;
      }
      points := [];
      recording := true;
      startTime := Some(now);
      watchId := watch;
      sessionId := insertedId;
      notice := Started;
    }

    /** A position fix from the watch is appended in arrival order. */
    method OnFix(p: GeoPoint)
      requires watchId.Some?
      modifies this
      ensures points == old(points) + [p]
      ensures recording == old(recording) && startTime == old(startTime) && watchId == old(watchId)
              && sessionId == old(sessionId)
    {
      points := points + [p];
    }

    /**
     * `stopSession`: nothing without a session (an empty id counts as
     * none); otherwise the watch is
     * cleared, the end of the session is written, and the state returns to
     * idle whether the write succeeded or not.
     */
    method Stop(endMth: Option<real>, areaMowed: Option<real>, now: string, dist: (GeoPoint, GeoPoint) -> real, updateOk: bool)
      returns (update: Option<SessionUpdate>, clearedWatch: Option<int>, notice: Option<Notice>)
      modifies this
      ensures !TruthyText(old(sessionId)) ==>
        update.None? && clearedWatch.None? && notice.None?
        && recording == old(recording) && startTime == old(startTime) && points == old(points)
        && watchId == old(watchId) && sessionId == old(sessionId)
      ensures TruthyText(old(sessionId)) ==>
        update == Some(SessionUpdate(old(sessionId).value, now, NumOrNull(endMth), NumOrNull(areaMowed),
                                     AverageSpeed(old(points), dist), TrajectoryOf(old(points), old(startTime), now)))
        && clearedWatch == old(watchId)
        && notice == Some(if updateOk then Saved(|old(points)|) else SaveFailed)
        && Idle()
    {
      if !TruthyText(sessionId) {
        return None, None, None;
      }
      clearedWatch := watchId;
      var recorded := points;
      var geojson := TrajectoryOf(recorded, startTime, now);
      var avgSpeed := AverageSpeed(recorded, dist);
      update := Some(SessionUpdate(sessionId.value, now, NumOrNull(endMth), NumOrNull(areaMowed), avgSpeed, geojson));
      notice := Some(if updateOk then Saved(|recorded|) else SaveFailed);
      points := [];
      recording := false;
      startTime := None;
      watchId := None;
      sessionId := None;
    }
  }
}
