/** Where an interceptor flies, told by coordinates alone (src/agents/interceptor/interceptor.cpp:31-73,
    interceptor_manager.cpp:36-54). */
module FlightLaws {
  import opened Basics
  import opened Interceptors

  /** On one axis, d times w is a times the side. */
  ghost predicate OnSide(d: real, w: real, a: real, side: real) {
    d * w == a * side
  }

  /** d times w is a times the way from p to q. */
  ghost predicate Along(p: Vec3, q: Vec3, d: real, a: real, w: Vec3) {
    OnSide(d, w.x, a, q.x - p.x) && OnSide(d, w.y, a, q.y - p.y) && OnSide(d, w.z, a, q.z - p.z)
  }

  /** On one axis, v turned in dt: 2 dt of the way to the full speed along the side, times k. */
  ghost predicate TurnedSide(side: real, d: real, maxSpeed: real, dt: real, v: real, k: real, w: real) {
    d * w == k * ((1.0 - 2.0 * dt) * (d * v) + 2.0 * dt * (maxSpeed * side))
  }

  /** Velocity v turned in dt towards q, d away from p, and shortened by k. */
  ghost predicate Turned(p: Vec3, q: Vec3, d: real, maxSpeed: real, dt: real, v: Vec3, k: real, w: Vec3) {
    && TurnedSide(q.x - p.x, d, maxSpeed, dt, v.x, k, w.x)
    && TurnedSide(q.y - p.y, d, maxSpeed, dt, v.y, k, w.y)
    && TurnedSide(q.z - p.z, d, maxSpeed, dt, v.z, k, w.z)
  }

  ghost predicate CarriedSide(p: real, w: real, dt: real, p': real) {
    p' == p + dt * w
  }

  /** p moved for dt at w. */
  ghost predicate Carried(p: Vec3, w: Vec3, dt: real, p': Vec3) {
    CarriedSide(p.x, w.x, dt, p'.x) && CarriedSide(p.y, w.y, dt, p'.y) && CarriedSide(p.z, w.z, dt, p'.z)
  }

  // ---------------------------------------------------------------- one step, whatever the velocity

  lemma {:induction false} PartOfTurn(side: real, d: real, maxSpeed: real, dt: real, v: real, w: real)
    requires d > 0.0 && w == v + (side * (1.0 / d) * maxSpeed - v) * 2.0 * dt
    ensures TurnedSide(side, d, maxSpeed, dt, v, 1.0, w)
  {
    var u := side * (1.0 / d);
    assert d * u == side by {
      QuotientTimes(1.0, d);
      assert d * u == side * ((1.0 / d) * d);
    }
    assert d * (u * maxSpeed) == maxSpeed * side by {
      assert d * (u * maxSpeed) == (d * u) * maxSpeed;
    }
    Spread(d, v, u * maxSpeed, dt);
  }

  lemma {:induction false} Spread(d: real, v: real, g: real, dt: real)
    ensures d * (v + (g - v) * 2.0 * dt) == (1.0 - 2.0 * dt) * (d * v) + 2.0 * dt * (d * g)
  {
    var e := 2.0 * dt;
    assert (g - v) * 2.0 * dt == (g - v) * e;
    assert d * (v + (g - v) * e) == d * v + d * ((g - v) * e);
    assert d * ((g - v) * e) == e * (d * g) - e * (d * v);
  }

  lemma {:induction false} SteeredTells(p: Vec3, q: Vec3, d: real, maxSpeed: real, dt: real, v: Vec3)
    requires d > 0.0
    ensures Turned(p, q, d, maxSpeed, dt, v, 1.0, Steered(v, Minus(q, p), d, maxSpeed, dt))
  {
    hide TurnedSide;
    var w := Steered(v, Minus(q, p), d, maxSpeed, dt);
    PartOfTurn(q.x - p.x, d, maxSpeed, dt, v.x, w.x);
    PartOfTurn(q.y - p.y, d, maxSpeed, dt, v.y, w.y);
    PartOfTurn(q.z - p.z, d, maxSpeed, dt, v.z, w.z);
  }

  /** The limiter shortens the velocity, to the limit exactly, or leaves it. */
  lemma {:induction false} LimitedTells(sqrt: real -> real, v: Vec3, maxSpeed: real) returns (k: real)
    requires IsSqrt(sqrt) && maxSpeed > 0.0
    ensures 0.0 < k <= 1.0 && Limited(sqrt, v, maxSpeed) == Scale(v, k)
    ensures Norm2(Limited(sqrt, v, maxSpeed)) <= maxSpeed * maxSpeed
    ensures k < 1.0 ==> Norm2(Limited(sqrt, v, maxSpeed)) == maxSpeed * maxSpeed
  {
    hide Norm2, Scale;
    NormIsNonNegative(v);
    LimitedSpeed(sqrt, v, maxSpeed);
    var speed := sqrt(Norm2(v));
    if speed > maxSpeed {
      k := maxSpeed / speed;
      QuotientTimes(maxSpeed, speed);
      QuotientIsFraction(maxSpeed, speed);
      ScaledNorm(v, k);
      SquareOfProduct(k, speed);
    } else {
      k := 1.0;
      ScaledByOne(v);
    }
  }

  lemma {:induction false} ScaledTurn(p: Vec3, q: Vec3, d: real, maxSpeed: real, dt: real, v: Vec3, k: real, w: Vec3)
    requires Turned(p, q, d, maxSpeed, dt, v, 1.0, w)
    ensures Turned(p, q, d, maxSpeed, dt, v, k, Scale(w, k))
  {
    hide TurnedSide;
    ScaledSide(q.x - p.x, d, maxSpeed, dt, v.x, k, w.x, Scale(w, k).x);
    ScaledSide(q.y - p.y, d, maxSpeed, dt, v.y, k, w.y, Scale(w, k).y);
    ScaledSide(q.z - p.z, d, maxSpeed, dt, v.z, k, w.z, Scale(w, k).z);
  }

  lemma {:induction false} ScaledSide(side: real, d: real, maxSpeed: real, dt: real, v: real, k: real, w: real,
                                      scaled: real)
    requires TurnedSide(side, d, maxSpeed, dt, v, 1.0, w) && scaled == w * k
    ensures TurnedSide(side, d, maxSpeed, dt, v, k, scaled)
  {
    assert d * (w * k) == k * (d * w);
  }

  /** What a step does to an engaged interceptor at p, d away from its target q. */
  ghost predicate StepTells(p: Vec3, q: Vec3, d: real, maxSpeed: real, dt: real, v: Vec3, k: real,
                            r: InterceptorState)
  {
    && 0.0 < k <= 1.0 && Turned(p, q, d, maxSpeed, dt, v, k, r.velocity)
    && Norm2(r.velocity) <= maxSpeed * maxSpeed && (k < 1.0 ==> Norm2(r.velocity) == maxSpeed * maxSpeed)
    && Carried(p, r.velocity, dt, r.position)
  }

  /** A step turns the velocity towards the target, limits it, and moves by dt times the new velocity. */
  lemma {:induction false} FlownTells(sqrt: real -> real, maxSpeed: real, s: InterceptorState, dt: real, d: real)
    requires IsSqrt(sqrt) && maxSpeed > 0.0 && s.engaged && dt > 0.0
    requires Apart(s.position, s.assignedTargetPosition, d)
    ensures var r := Flown(sqrt, maxSpeed, s, dt);
            if d < NEGLIGIBLE_DISTANCE then r.position == s.position && r.velocity == s.velocity
            else exists k :: StepTells(s.position, s.assignedTargetPosition, d, maxSpeed, dt, s.velocity, k, r)
  {
    hide Steered, Limited, Norm2, Turned;
    var p, q := s.position, s.assignedTargetPosition;
    LineOfSight(sqrt, p, q, d);
    if d >= NEGLIGIBLE_DISTANCE {
      var steered := Steered(s.velocity, Minus(q, p), d, maxSpeed, dt);
      SteeredTells(p, q, d, maxSpeed, dt, s.velocity);
      var k := LimitedTells(sqrt, steered, maxSpeed);
      ScaledTurn(p, q, d, maxSpeed, dt, s.velocity, k, steered);
      assert StepTells(p, q, d, maxSpeed, dt, s.velocity, k, Flown(sqrt, maxSpeed, s, dt));
    }
  }

  lemma {:induction false} LineOfSight(sqrt: real -> real, p: Vec3, q: Vec3, d: real)
    requires IsSqrt(sqrt) && Apart(p, q, d)
    ensures sqrt(Norm2(Minus(q, p))) == d
  {
    hide Minus;
    var los := Minus(q, p);
    NormOfSides(p, q);
    NormIsNonNegative(los);
    OneRoot(sqrt(Norm2(los)), d);
  }

  lemma {:induction false} NormOfSides(p: Vec3, q: Vec3)
    ensures Norm2(Minus(q, p)) == (p.x - q.x) * (p.x - q.x) + (p.y - q.y) * (p.y - q.y) + (p.z - q.z) * (p.z - q.z)
  {
    SquareOfReverse(q.x, p.x);
    SquareOfReverse(q.y, p.y);
    SquareOfReverse(q.z, p.z);
  }

  lemma {:induction false} SquareOfReverse(a: real, b: real)
    ensures (a - b) * (a - b) == (b - a) * (b - a)
  {
  }

  // ---------------------------------------------------------------- straight flight

  lemma {:induction false} ScaledSquare(d: real, w: real, e: real, side: real, dd: real, ww: real, ee: real,
                                        sides: real)
    requires OnSide(d, w, e, side) && dd == d * d && ww == w * w && ee == e * e && sides == side * side
    ensures OnSide(dd, ww, ee, sides)
  {
    assert d * d * (w * w) == (d * w) * (d * w);
    assert e * e * (side * side) == (e * side) * (e * side);
  }

  lemma {:induction false} SumOfSides(f: real, g: real, a: real, b: real, c: real, x: real, y: real, z: real,
                                      sum: real, total: real)
    requires OnSide(f, a, g, x) && OnSide(f, b, g, y) && OnSide(f, c, g, z)
    requires sum == a + b + c && total == x + y + z
    ensures OnSide(f, sum, g, total)
  {
    assert f * (a + b + c) == f * a + f * b + f * c;
    assert g * (x + y + z) == g * x + g * y + g * z;
  }

  lemma {:induction false} Cancel(f: real, a: real, g: real)
    requires f > 0.0 && OnSide(f, a, g, f)
    ensures a == g
  {
    assert f * (a - g) == 0.0;
  }

  lemma {:induction false} ProductIsPositive(a: real, b: real, c: real)
    requires a > 0.0 && b > 0.0 && c == a * b
    ensures c > 0.0
  {
  }

  /** A velocity of size e along the way to q has that speed. */
  lemma {:induction false} SpeedAlong(p: Vec3, q: Vec3, d: real, e: real, w: Vec3)
    requires Along(p, q, d, e, w) && Apart(p, q, d) && d > 0.0
    ensures Norm2(w) == e * e
  {
    hide OnSide;
    var sx, sy, sz := q.x - p.x, q.y - p.y, q.z - p.z;
    var dd, ee, n := d * d, e * e, Norm2(w);
    ScaledSquare(d, w.x, e, sx, dd, w.x * w.x, ee, sx * sx);
    ScaledSquare(d, w.y, e, sy, dd, w.y * w.y, ee, sy * sy);
    ScaledSquare(d, w.z, e, sz, dd, w.z * w.z, ee, sz * sz);
    NormOfSides(p, q);
    SumOfSides(dd, ee, w.x * w.x, w.y * w.y, w.z * w.z, sx * sx, sy * sy, sz * sz, n, dd);
    ProductIsPositive(d, d, dd);
    Cancel(dd, n, ee);
  }

  /** 2 dt of the way from a to the limit. */
  ghost function Gained(maxSpeed: real, dt: real, a: real): real {
    a + 2.0 * dt * (maxSpeed - a)
  }

  lemma {:induction false} TurnAlong(side: real, d: real, maxSpeed: real, dt: real, v: real, a: real, k: real, w: real)
    requires OnSide(d, v, a, side) && TurnedSide(side, d, maxSpeed, dt, v, k, w)
    ensures OnSide(d, w, k * Gained(maxSpeed, dt, a), side)
  {
    var e := 2.0 * dt;
    assert (1.0 - e) * (a * side) == a * side - e * (a * side);
    assert (a + e * (maxSpeed - a)) * side == a * side + e * (maxSpeed * side) - e * (a * side);
    Regroup(k, Gained(maxSpeed, dt, a), side);
  }

  lemma {:induction false} Regroup(k: real, b: real, side: real)
    ensures k * (b * side) == (k * b) * side
  {
  }

  lemma {:induction false} TurnStaysAlong(p: Vec3, q: Vec3, d: real, maxSpeed: real, dt: real, v: Vec3, k: real,
                                          w: Vec3, a: real, e: real)
    requires Turned(p, q, d, maxSpeed, dt, v, k, w) && Along(p, q, d, a, v) && e == k * Gained(maxSpeed, dt, a)
    ensures Along(p, q, d, e, w)
  {
    hide OnSide, TurnedSide, Gained;
    TurnAlong(q.x - p.x, d, maxSpeed, dt, v.x, a, k, w.x);
    TurnAlong(q.y - p.y, d, maxSpeed, dt, v.y, a, k, w.y);
    TurnAlong(q.z - p.z, d, maxSpeed, dt, v.z, a, k, w.z);
  }

  /** The speed a step leaves: 2 dt of the way from a to the limit, and at most the limit. */
  ghost function SpeedUp(maxSpeed: real, dt: real, a: real): real {
    if Gained(maxSpeed, dt, a) < maxSpeed then Gained(maxSpeed, dt, a) else maxSpeed
  }

  lemma {:induction false} SpeedUpIsPositive(maxSpeed: real, dt: real, a: real)
    requires maxSpeed > 0.0 && dt > 0.0 && 0.0 <= a <= maxSpeed
    ensures Gained(maxSpeed, dt, a) > 0.0 && a <= SpeedUp(maxSpeed, dt, a) <= maxSpeed
    ensures SpeedUp(maxSpeed, dt, a) > 0.0
  {
    var e := 2.0 * dt;
    assert e * (maxSpeed - a) >= 0.0;
    if a == 0.0 {
      assert e * (maxSpeed - a) > 0.0;
    }
  }

  /** Shortened to at most the limit, and to exactly the limit when shortened at all. */
  lemma {:induction false} LimitDecides(k: real, b: real, e: real, maxSpeed: real)
    requires 0.0 < k <= 1.0 && b > 0.0 && maxSpeed > 0.0 && e == k * b
    requires e * e <= maxSpeed * maxSpeed && (k < 1.0 ==> e * e == maxSpeed * maxSpeed)
    ensures e == if b < maxSpeed then b else maxSpeed
  {
    ProductIsPositive(k, b, e);
    if k < 1.0 {
      OneRoot(e, maxSpeed);
      ProductIsPositive(1.0 - k, b, (1.0 - k) * b);
    } else if maxSpeed < b {
      SquaresIncrease(maxSpeed, b);
    }
  }

  /** From rest, or flying straight at its target, an interceptor flies straight at it, at the speed the step leaves. */
  lemma {:induction false} StraightVelocity(sqrt: real -> real, maxSpeed: real, s: InterceptorState, dt: real, d: real,
                                            a: real)
    requires IsSqrt(sqrt) && maxSpeed > 0.0 && s.engaged && dt > 0.0
    requires Apart(s.position, s.assignedTargetPosition, d) && d >= NEGLIGIBLE_DISTANCE
    requires 0.0 <= a <= maxSpeed && Along(s.position, s.assignedTargetPosition, d, a, s.velocity)
    ensures var r := Flown(sqrt, maxSpeed, s, dt);
            && Along(s.position, s.assignedTargetPosition, d, SpeedUp(maxSpeed, dt, a), r.velocity)
            && Carried(s.position, r.velocity, dt, r.position)
  {
    hide Flown, Norm2, Apart, Turned, Carried, Along, Gained;
    var p, q := s.position, s.assignedTargetPosition;
    var r := Flown(sqrt, maxSpeed, s, dt);
    FlownTells(sqrt, maxSpeed, s, dt, d);
    var k :| StepTells(p, q, d, maxSpeed, dt, s.velocity, k, r);
    var b := Gained(maxSpeed, dt, a);
    var e := k * b;
    TurnStaysAlong(p, q, d, maxSpeed, dt, s.velocity, k, r.velocity, a, e);
    SpeedAlong(p, q, d, e, r.velocity);
    SpeedUpIsPositive(maxSpeed, dt, a);
    LimitDecides(k, b, e, maxSpeed);
  }

  lemma {:induction false} LeftOver(d: real, p: real, q: real, w: real, c: real, dt: real, p': real, e: real)
    requires OnSide(d, w, c, q - p) && CarriedSide(p, w, dt, p') && e == d - c * dt
    ensures OnSide(d, q - p', e, q - p)
  {
    var side := q - p;
    assert d * (dt * w) == dt * (d * w);
    assert dt * (c * side) == (c * dt) * side;
    assert d * (side - dt * w) == (d - c * dt) * side;
  }

  /** Moving along the way to q for dt at speed c leaves the rest of the way, still straight ahead. */
  lemma {:induction false} StraightMove(p: Vec3, q: Vec3, d: real, c: real, w: Vec3, dt: real, p': Vec3, e: real)
    requires Apart(p, q, d) && d > 0.0 && Along(p, q, d, c, w) && Carried(p, w, dt, p') && e == d - c * dt >= 0.0
    ensures Apart(p', q, e) && Along(p', q, e, c, w)
  {
    hide Apart, OnSide, CarriedSide;
    LeftOver(d, p.x, q.x, w.x, c, dt, p'.x, e);
    LeftOver(d, p.y, q.y, w.y, c, dt, p'.y, e);
    LeftOver(d, p.z, q.z, w.z, c, dt, p'.z, e);
    StillAhead(d, e, c, q.x - p.x, q.x - p'.x, w.x);
    StillAhead(d, e, c, q.y - p.y, q.y - p'.y, w.y);
    StillAhead(d, e, c, q.z - p.z, q.z - p'.z, w.z);
    SpeedAlong(p, q, d, e, Minus(q, p'));
    NormIsApart(p', q, e);
  }

  lemma {:induction false} NormIsApart(p: Vec3, q: Vec3, e: real)
    requires Norm2(Minus(q, p)) == e * e && e >= 0.0
    ensures Apart(p, q, e)
  {
    NormOfSides(p, q);
  }

  lemma {:induction false} StillAhead(d: real, e: real, c: real, side: real, rest: real, w: real)
    requires d > 0.0 && OnSide(d, w, c, side) && OnSide(d, rest, e, side)
    ensures OnSide(e, w, c, rest)
  {
    assert d * (e * w) == e * (d * w);
    assert d * (c * rest) == c * (d * rest);
    assert e * (c * side) == c * (e * side);
    assert d * (e * w - c * rest) == 0.0;
  }

  /** So it comes closer by exactly its new speed times dt, as long as that is no more than the distance, and goes on
      straight ahead. */
  lemma {:induction false} ClosesIn(sqrt: real -> real, maxSpeed: real, s: InterceptorState, dt: real, d: real, a: real,
                                    e: real)
    requires IsSqrt(sqrt) && maxSpeed > 0.0 && s.engaged && dt > 0.0
    requires Apart(s.position, s.assignedTargetPosition, d) && d >= NEGLIGIBLE_DISTANCE
    requires 0.0 <= a <= maxSpeed && Along(s.position, s.assignedTargetPosition, d, a, s.velocity)
    requires e == d - SpeedUp(maxSpeed, dt, a) * dt && e >= 0.0
    ensures var r := Flown(sqrt, maxSpeed, s, dt);
            && e < d && Apart(r.position, s.assignedTargetPosition, e)
            && Along(r.position, s.assignedTargetPosition, e, SpeedUp(maxSpeed, dt, a), r.velocity)
  {
    hide Flown, Apart, Along, Carried, SpeedUp, Gained;
    StraightVelocity(sqrt, maxSpeed, s, dt, d, a);
    SpeedUpIsPositive(maxSpeed, dt, a);
    var r := Flown(sqrt, maxSpeed, s, dt);
    var c := SpeedUp(maxSpeed, dt, a);
    ProductIsPositive(c, dt, c * dt);
    StraightMove(s.position, s.assignedTargetPosition, d, c, r.velocity, dt, r.position, e);
  }

  /** From rest an interceptor takes off straight at its target. */
  lemma {:induction false} TakesOff(sqrt: real -> real, maxSpeed: real, s: InterceptorState, dt: real, d: real)
    returns (speed: real, e: real)
    requires IsSqrt(sqrt) && maxSpeed > 0.0 && s.engaged && dt > 0.0 && s.velocity == Vec3(0.0, 0.0, 0.0)
    requires Apart(s.position, s.assignedTargetPosition, d) && d >= NEGLIGIBLE_DISTANCE && maxSpeed * dt <= d
    ensures 0.0 < speed <= maxSpeed && e == d - speed * dt < d
    ensures var r := Flown(sqrt, maxSpeed, s, dt);
            && Along(s.position, s.assignedTargetPosition, d, speed, r.velocity)
            && Apart(r.position, s.assignedTargetPosition, e)
  {
    assert Along(s.position, s.assignedTargetPosition, d, 0.0, s.velocity);
    hide Flown, Apart, Along, Carried, SpeedUp, Gained;
    StraightVelocity(sqrt, maxSpeed, s, dt, d, 0.0);
    SpeedUpIsPositive(maxSpeed, dt, 0.0);
    speed := SpeedUp(maxSpeed, dt, 0.0);
    e := d - speed * dt;
    NoFartherThan(speed, maxSpeed, dt);
    ClosesIn(sqrt, maxSpeed, s, dt, d, 0.0, e);
  }

  lemma {:induction false} NoFartherThan(speed: real, maxSpeed: real, dt: real)
    requires 0.0 < speed <= maxSpeed && dt > 0.0
    ensures 0.0 < speed * dt <= maxSpeed * dt
  {
  }

  // ---------------------------------------------------------------- the manager's step

  /** A pursuing interceptor at rest, or flying straight at the position held for its track, closes in on it. */
  lemma {:induction false} PursuitClosesIn(sqrt: real -> real, maxSpeed: real, timeout: real, positions: Positions,
                                           s: InterceptorState, dt: real, d: real, a: real, e: real)
    requires IsSqrt(sqrt) && maxSpeed > 0.0 && s.engaged && dt > 0.0 && s.targetId in positions
    requires Apart(s.position, positions[s.targetId], d) && d >= NEGLIGIBLE_DISTANCE
    requires 0.0 <= a <= maxSpeed && Along(s.position, positions[s.targetId], d, a, s.velocity)
    requires e == d - SpeedUp(maxSpeed, dt, a) * dt && e >= 0.0
    ensures var r := StepOne(sqrt, maxSpeed, timeout, positions, s, dt);
            && e < d && Apart(r.position, positions[s.targetId], e)
            && (r.engaged <==> s.engagementTime + dt <= timeout)
            && (r.engaged ==> r.targetId == s.targetId && r.assignedTargetPosition == positions[s.targetId])
  {
    hide Flown, Apart, Along, SpeedUp;
    var tasked := Tasked(s, s.targetId, positions[s.targetId]);
    ClosesIn(sqrt, maxSpeed, tasked, dt, d, a, e);
    FlownKeeps(sqrt, maxSpeed, tasked, dt);
  }

  lemma {:induction false} FlownKeeps(sqrt: real -> real, maxSpeed: real, s: InterceptorState, dt: real)
    ensures var r := Flown(sqrt, maxSpeed, s, dt);
            && r.interceptorId == s.interceptorId && r.engaged == s.engaged && r.targetId == s.targetId
            && r.assignedTargetPosition == s.assignedTargetPosition
            && r.engagementTime == s.engagementTime + if s.engaged && dt > 0.0 then dt else 0.0
  {
  }

  /** A step ends an engagement exactly when the track's position is unknown or the clock passes the timeout. */
  lemma {:induction false} StepEndsExactly(sqrt: real -> real, maxSpeed: real, timeout: real, positions: Positions,
                                           s: InterceptorState, dt: real)
    ensures var r := StepOne(sqrt, maxSpeed, timeout, positions, s, dt);
            r.engaged <==> s.engaged && s.targetId in positions
                           && s.engagementTime + (if dt > 0.0 then dt else 0.0) <= timeout
  {
    hide Flown;
    if s.engaged && s.targetId in positions {
      FlownKeeps(sqrt, maxSpeed, Tasked(s, s.targetId, positions[s.targetId]), dt);
    }
  }
}
