/** Values shared by the components: options, points, and the messages of src/messages/types.h.
    Times are exact seconds and doubles are exact reals. */
module Basics {

  datatype Option<+T> = None | Some(value: T)

  datatype Vec3 = Vec3(x: real, y: real, z: real)

  const ORIGIN := Vec3(0.0, 0.0, 0.0)

  /** A matrix as the sequence of its rows. */
  type Matrix = seq<seq<real>>

  datatype SensorType = Radar | EOIR | ADSB

  datatype MeasurementType = RangeBearing2D | BearingElevation | Position3D

  datatype Measurement = Measurement(
    tMeas: real,
    tSent: real,
    sensorId: nat,
    sensorType: SensorType,
    measurementType: MeasurementType,
    z: seq<real>,
    rRowMajor: seq<real>,
    zDim: nat,
    confidence: real,
    snr: real,
    traceId: nat,
    causalParentId: nat)

  /** The state and covariance a filter carries. */
  datatype Estimate = Estimate(x: seq<real>, p: seq<seq<real>>)

  datatype TrackStatus = Tentative | Confirmed | Deleted

  function MaxReal(a: real, b: real): real {
    if a < b then b else a
  }

  function Min(a: nat, b: nat): nat {
    if a < b then a else b
  }

  function Max(a: nat, b: nat): nat {
    if a < b then b else a
  }

  /** n times x, under a name that proofs can leave uninterpreted. */
  function Multiple(n: nat, x: real): real {
    n as real * x
  }

  lemma {:induction false} MultipleStep(n: nat, x: real)
    ensures Multiple(n + 1, x) == Multiple(n, x) + x && Multiple(0, x) == 0.0
  {
  }

  function Clamp(x: real, lo: real, hi: real): real {
    if x < lo then lo else if hi < x then hi else x
  }

  /** The square root the C++ library supplies, on exact reals. */
  ghost predicate IsSqrt(sqrt: real -> real) {
    forall x: real {:trigger sqrt(x)} | x >= 0.0 :: sqrt(x) >= 0.0 && sqrt(x) * sqrt(x) == x
  }

  /** Euclidean distance, with the square root as a parameter. */
  function Distance(sqrt: real -> real, a: Vec3, b: Vec3): real {
    var dx, dy, dz := a.x - b.x, a.y - b.y, a.z - b.z;
    sqrt(dx * dx + dy * dy + dz * dz)
  }

  lemma {:induction false} SquaresIncrease(a: real, b: real)
    requires 0.0 <= a < b
    ensures a * a < b * b
  {
    var d := b - a;
    assert a * d >= 0.0 && d * b > 0.0;
    assert b * b == a * a + a * d + d * b;
  }

  lemma {:induction false} OneRoot(r: real, d: real)
    requires r >= 0.0 && d >= 0.0 && r * r == d * d
    ensures r == d
  {
    if r < d {
      SquaresIncrease(r, d);
    } else if d < r {
      SquaresIncrease(d, r);
    }
  }

  lemma {:induction false} SquareIsNonNegative(x: real)
    ensures x * x >= 0.0
  {
  }

  /** a and b are d apart, by their coordinates alone. */
  ghost predicate Apart(a: Vec3, b: Vec3, d: real) {
    d >= 0.0 && d * d == (a.x - b.x) * (a.x - b.x) + (a.y - b.y) * (a.y - b.y) + (a.z - b.z) * (a.z - b.z)
  }

  lemma {:induction false} DistanceIs(sqrt: real -> real, a: Vec3, b: Vec3, d: real)
    requires IsSqrt(sqrt)
    ensures Distance(sqrt, a, b) == d <==> Apart(a, b, d)
  {
    SquareIsNonNegative(a.x - b.x);
    SquareIsNonNegative(a.y - b.y);
    SquareIsNonNegative(a.z - b.z);
    var r := Distance(sqrt, a, b);
    assert Apart(a, b, r);
    if Apart(a, b, d) {
      OneRoot(r, d);
    }
  }
}
