/** The drift projector: while the payload falls it keeps the aircraft's ground
    speed, so it must be released that far before the target. The release
    point lies on the reciprocal of the heading, at the drift distance from the
    target; finding that point on the Earth is left to a geodesic library, and
    this module only chooses the distance and the bearing it is given. */
module DriftProjector {
  import opened Angles
  import opened RealArith

  /** The arguments of the geodesic destination-point call: start at the
      origin and travel `meters` along `bearing` (degrees clockwise from north). */
  datatype GeodesicRequest = GeodesicRequest(originLat: real, originLon: real, bearing: real, meters: real)

  /** Horizontal distance covered at constant ground speed during the fall. */
  function Drift(speed: real, fallTime: real): (d: real)
    ensures speed == 0.0 || fallTime == 0.0 ==> d == 0.0
    ensures speed > 0.0 && fallTime > 0.0 ==> d > 0.0
  {
    var d := speed * fallTime;
    assert speed > 0.0 && fallTime > 0.0 ==> d > 0.0 by {
      if speed > 0.0 && fallTime > 0.0 {
        ProductPositive(speed, fallTime, d);
      }
    }
    d
  }

  /** Drift is linear in the ground speed: scaling the speed by `k` scales the
      drift by `k`, and the drifts of two speeds add up. */
  lemma DriftLinearInSpeed(k: real, s1: real, s2: real, fallTime: real)
    ensures Drift(k * s1, fallTime) == k * Drift(s1, fallTime)
    ensures Drift(s1 + s2, fallTime) == Drift(s1, fallTime) + Drift(s2, fallTime)
  {
  }

  /** Holding the speed positive, a longer fall gives a longer drift. */
  lemma DriftIncreasesWithFallTime(speed: real, t1: real, t2: real)
    requires speed > 0.0 && t1 < t2
    ensures Drift(speed, t1) < Drift(speed, t2)
  {
    ScaleStrictlyIncreasing(speed, t1, t2, Drift(speed, t1), Drift(speed, t2));
  }

  /** The heading reversed, `(heading + 180) % 360`: a direction in [0, 360)
      half a turn away from the heading. */
  function ReciprocalBearing(heading: real): (b: real)
    ensures 0.0 <= b < FullTurn
    ensures WholeTurns(heading + HalfTurn - b)
    ensures !WholeTurns(heading - b)
  {
    var b := Mod360(heading + HalfTurn);
    HalfTurnNotWhole(heading - b);
    b
  }

  /** On a heading already in [0, 360) the reciprocal adds half a turn to the
      first half of the circle and takes half a turn from the second. */
  lemma ReciprocalBearingClosedForm(heading: real)
    requires 0.0 <= heading < FullTurn
    ensures ReciprocalBearing(heading)
         == if heading < HalfTurn then heading + HalfTurn else heading - HalfTurn
  {
    if heading < HalfTurn {
      Mod360Unique(heading + HalfTurn, heading + HalfTurn);
    } else {
      assert (heading + HalfTurn - (heading - HalfTurn)) / FullTurn == 1.0;
      Mod360Unique(heading + HalfTurn, heading - HalfTurn);
    }
  }

  /** Reversing a normalised heading twice gives the heading back. */
  lemma ReciprocalBearingInvolution(heading: real)
    requires 0.0 <= heading < FullTurn
    ensures ReciprocalBearing(ReciprocalBearing(heading)) == heading
  {
    ReciprocalBearingClosedForm(heading);
    ReciprocalBearingClosedForm(ReciprocalBearing(heading));
  }

  /** An aircraft flying due north releases due south of the target. */
  lemma DueNorthReleasesDueSouth()
    ensures ReciprocalBearing(0.0) == HalfTurn
  {
    ReciprocalBearingClosedForm(0.0);
  }

  /** The geodesic request for a payload released from an aircraft with the
      given ground speed and normalised heading, falling for `fallTime`: start
      at the target, travel the drift distance along the reciprocal bearing. */
  function ProjectDrop(originLat: real, originLon: real, speed: real, fallTime: real, heading: real)
    : (req: GeodesicRequest)
    ensures req.originLat == originLat && req.originLon == originLon
    ensures req.meters == Drift(speed, fallTime)
    ensures speed >= 0.0 && fallTime > 0.0 ==> (req.meters > 0.0 <==> speed > 0.0)
    ensures 0.0 <= req.bearing < FullTurn && WholeTurns(heading + HalfTurn - req.bearing)
  {
    GeodesicRequest(originLat, originLon, ReciprocalBearing(heading), Drift(speed, fallTime))
  }
}
