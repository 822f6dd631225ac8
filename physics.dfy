/** The particles of the simulator as a value, and what `make_particles`,
    `reflect_walls`, `move_particles` and `run` do to it. The class in
    module Simulation runs these rules in place on arrays. */
module Physics {
  import opened Results
  import opened Text
  import opened NdArrays
  import opened Geometry

  /** The four parallel arrays of the simulator; index i is one particle. */
  datatype Particles = Particles(posX: seq<real>, posY: seq<real>, velX: seq<real>, velY: seq<real>)
  {
    predicate Valid()
    {
      |posY| == |posX| && |velX| == |posX| && |velY| == |posX|
    }

    function Count(): nat
    {
      |posX|
    }
  }

  // ---------------------------------------------------------------- make_particles

  const ShapePrefix: string := "Expected 'pos_vel' to have shape (4, N), got: "

  function ShapeMessage(shape: seq<nat>): string
  {
    ShapePrefix + TupleToString(shape)
  }

  /** The error message reports the rejected shape: it can be read back from the message. */
  lemma ShapeMessageReportsShape(shape: seq<nat>)
    ensures |ShapeMessage(shape)| > |ShapePrefix|
    ensures ShapeMessage(shape)[..|ShapePrefix|] == ShapePrefix
    ensures ParseTuple(ShapeMessage(shape)[|ShapePrefix|..]) == shape
  {
    assert ShapeMessage(shape)[|ShapePrefix|..] == TupleToString(shape);
    ParseTupleToString(shape);
  }

  /** So two different shapes are never rejected with the same message. */
  lemma ShapeMessageDeterminesShape(s: seq<nat>, t: seq<nat>)
    requires ShapeMessage(s) == ShapeMessage(t)
    ensures s == t
  {
    ShapeMessageReportsShape(s);
    ShapeMessageReportsShape(t);
  }

  /** The rows of a (4, N) block as the four arrays, or the ValueError that
      names any other shape. */
  function SplitRows(a: NdArray): (r: Result<Particles>)
    requires a.Valid()
    ensures r.Ok? <==> a.Rank() == 2 && a.shape[0] == 4
    ensures r.Ok? ==> r.value.Valid() && r.value.Count() == a.shape[1]
    ensures r.Ok? ==> r.value.posX + r.value.posY + r.value.velX + r.value.velY == a.data
    ensures r.Err? ==> r.error == ValueError(ShapeMessage(a.shape))
  {
    if a.Rank() == 2 && a.shape[0] == 4 then
      var n := a.shape[1];
      ProductOfPair(a.shape);
      assert a.data == a.data[..n] + a.data[n..2 * n] + a.data[2 * n..3 * n] + a.data[3 * n..];
      Ok(Particles(a.Row(0), a.Row(1), a.Row(2), a.Row(3)))
    else
      Err(ValueError(ShapeMessage(a.shape)))
  }

  /** The argument of `make_particles`: a block to split, or nothing, in which
      case nothing is assigned (the random draw is not written yet). */
  function SplitInput(input: Option<NdArray>): (r: Result<Option<Particles>>)
    requires input.Some? ==> input.value.Valid()
    ensures input.None? ==> r == Ok(None)
    ensures input.Some? && SplitRows(input.value).Ok? ==> r == Ok(Some(SplitRows(input.value).value))
    ensures input.Some? && SplitRows(input.value).Err? ==> r == Err(SplitRows(input.value).error)
  {
    match input
    case None => Ok(None)
    case Some(a) =>
      match SplitRows(a)
      case Ok(p) => Ok(Some(p))
      case Err(e) => Err(e)
  }

  const NoneShapeMessage: string := "'NoneType' object has no attribute 'shape'"

  /** `make_particles` as written: the message that reads `pos_vel.shape` is
      built before `pos_vel` is compared with None, so a call without an
      argument fails with an AttributeError instead of reaching the branch
      that does nothing. */
  function SplitInputAsWritten(input: Option<NdArray>): (r: Result<Option<Particles>>)
    requires input.Some? ==> input.value.Valid()
    ensures input.Some? ==> r == SplitInput(input)
  {
    if input.None? then Err(AttributeError(NoneShapeMessage)) else SplitInput(input)
  }

  /** The two differ exactly on the missing argument. */
  lemma SplitInputAsWrittenRejectsNone()
    ensures SplitInputAsWritten(None) == Err(AttributeError(NoneShapeMessage))
    ensures SplitInput(None) == Ok(None)
  {
  }

  /** The block of the test suite, shape (4, 3), is split into its rows. */
  lemma SplitRowsAcceptsFourRows()
    ensures SplitRows(NdArray([4, 3], [1.0, 2.0, 3.0, 4.0, 5.0, 6.0, -1.0, 0.0, 1.0, 1.0, 0.0, -1.0])) ==
      Ok(Particles([1.0, 2.0, 3.0], [4.0, 5.0, 6.0], [-1.0, 0.0, 1.0], [1.0, 0.0, -1.0]))
  {
    var a := NdArray([4, 3], [1.0, 2.0, 3.0, 4.0, 5.0, 6.0, -1.0, 0.0, 1.0, 1.0, 0.0, -1.0]);
    ProductOfPair(a.shape);
    assert a.Row(0) == [1.0, 2.0, 3.0];
    assert a.Row(1) == [4.0, 5.0, 6.0];
    assert a.Row(2) == [-1.0, 0.0, 1.0];
    assert a.Row(3) == [1.0, 0.0, -1.0];
  }

  /** An array of shape (1, 5) is rejected with a message naming that shape. */
  lemma SplitRowsRejectsOneRow()
    ensures SplitRows(NdArray([1, 5], [1.0, 2.0, 3.0, 4.0, 5.0])) ==
      Err(ValueError("Expected 'pos_vel' to have shape (4, N), got: (1, 5)"))
  {
    ProductOfPair([1, 5]);
    assert [1, 5][..1] == [1];
  }

  // ---------------------------------------------------------------- reflect_walls

  /** Strictly between the two walls: a particle on a wall is outside. */
  predicate Inside(x: real, lo: real, hi: real)
  {
    lo < x < hi
  }

  function ReflectComponent(x: real, v: real, lo: real, hi: real): real
  {
    if Inside(x, lo, hi) then v else v * -1.0
  }

  /** One axis of `reflect_walls`: every velocity whose position is not inside is multiplied by -1. */
  function ReflectAxis(pos: seq<real>, vel: seq<real>, lo: real, hi: real): (r: seq<real>)
    requires |pos| == |vel|
    ensures |r| == |vel|
    ensures forall i :: 0 <= i < |r| ==> (Inside(pos[i], lo, hi) ==> r[i] == vel[i]) && (!Inside(pos[i], lo, hi) ==> r[i] == -vel[i])
  {
    seq(|vel|, i requires 0 <= i < |vel| => ReflectComponent(pos[i], vel[i], lo, hi))
  }

  /** `reflect_walls`: both axes, with the walls `radius` and `width - radius`. */
  function Reflect(p: Particles, width: real, radius: real): (q: Particles)
    requires p.Valid()
    ensures q.Valid() && q.Count() == p.Count()
  {
    p.(velX := ReflectAxis(p.posX, p.velX, radius, width - radius),
       velY := ReflectAxis(p.posY, p.velY, radius, width - radius))
  }

  /** Each velocity component is negated when its position is outside the
      open interval between the walls and kept when it is inside; positions
      do not change. */
  lemma ReflectFlipsExactlyOutside(p: Particles, width: real, radius: real, i: nat)
    requires p.Valid() && i < p.Count()
    ensures Reflect(p, width, radius).posX == p.posX && Reflect(p, width, radius).posY == p.posY
    ensures !Inside(p.posX[i], radius, width - radius) ==> Reflect(p, width, radius).velX[i] == -p.velX[i]
    ensures Inside(p.posX[i], radius, width - radius) ==> Reflect(p, width, radius).velX[i] == p.velX[i]
    ensures !Inside(p.posY[i], radius, width - radius) ==> Reflect(p, width, radius).velY[i] == -p.velY[i]
    ensures Inside(p.posY[i], radius, width - radius) ==> Reflect(p, width, radius).velY[i] == p.velY[i]
  {
  }

  /** A particle exactly on a wall is outside: with the defaults, one at
      x = 99 moving right is turned back, one at x = 50 is not. */
  lemma ReflectOnWall()
    ensures Reflect(Particles([99.0, 50.0], [50.0, 50.0], [2.0, 2.0], [0.0, 0.0]), 100.0, 1.0) ==
      Particles([99.0, 50.0], [50.0, 50.0], [-2.0, 2.0], [0.0, 0.0])
  {
    var q := Reflect(Particles([99.0, 50.0], [50.0, 50.0], [2.0, 2.0], [0.0, 0.0]), 100.0, 1.0);
    assert q.velX == [-2.0, 2.0];
    assert q.velY == [0.0, 0.0];
  }

  /** Reflecting twice without a move in between restores every velocity. */
  lemma ReflectTwiceRestores(p: Particles, width: real, radius: real)
    requires p.Valid()
    ensures Reflect(Reflect(p, width, radius), width, radius) == p
  {
    var q := Reflect(Reflect(p, width, radius), width, radius);
    assert q.velX == p.velX;
    assert q.velY == p.velY;
  }

  /** Reflection keeps the absolute value of every velocity component. */
  lemma ReflectKeepsAbsoluteVelocities(p: Particles, width: real, radius: real)
    requires p.Valid()
    ensures forall i :: 0 <= i < p.Count() ==>
      Abs(Reflect(p, width, radius).velX[i]) == Abs(p.velX[i]) &&
      Abs(Reflect(p, width, radius).velY[i]) == Abs(p.velY[i])
  {
  }

  const AmbiguousTruthMessage: string :=
    "The truth value of an array with more than one element is ambiguous. Use a.any() or a.all()"

  /** `reflect_walls` as written: `lo < x < hi` on arrays is `(lo < x) and
      (x < hi)`, and `and` asks for the truth value of the first array of
      comparisons, which NumPy refuses for more than one element. With at
      most one particle `and` picks the elementwise result, so the walls
      reflect as intended. The x axis fails first, before anything changes. */
  function ReflectAsWritten(p: Particles, width: real, radius: real): (r: Result<Particles>)
    requires p.Valid()
    ensures r.Err? <==> 2 <= p.Count()
    ensures r.Err? ==> r.error == ValueError(AmbiguousTruthMessage)
    ensures p.Count() <= 1 ==> r == Ok(Reflect(p, width, radius))
  {
    if 2 <= p.Count() then Err(ValueError(AmbiguousTruthMessage)) else Ok(Reflect(p, width, radius))
  }

  /** Two particles well inside the box: nothing should be reflected, yet the
      chained comparison raises. */
  lemma ReflectAsWrittenFailsForTwoParticles()
    ensures ReflectAsWritten(Particles([50.0, 60.0], [50.0, 60.0], [1.0, 0.0], [0.0, 1.0]), 100.0, 1.0).Err?
    ensures Reflect(Particles([50.0, 60.0], [50.0, 60.0], [1.0, 0.0], [0.0, 1.0]), 100.0, 1.0) ==
      Particles([50.0, 60.0], [50.0, 60.0], [1.0, 0.0], [0.0, 1.0])
  {
    var p := Particles([50.0, 60.0], [50.0, 60.0], [1.0, 0.0], [0.0, 1.0]);
    assert Reflect(p, 100.0, 1.0).velX == p.velX;
    assert Reflect(p, 100.0, 1.0).velY == p.velY;
  }

  // ---------------------------------------------------------------- move_particles

  /** One axis of `move_particles`: `pos + vel * timestep`. */
  function MoveAxis(pos: seq<real>, vel: seq<real>, timestep: real): (r: seq<real>)
    requires |pos| == |vel|
    ensures |r| == |pos|
    ensures forall i :: 0 <= i < |r| ==> r[i] - pos[i] == vel[i] * timestep
  {
    seq(|pos|, i requires 0 <= i < |pos| => pos[i] + vel[i] * timestep)
  }

  /** `move_particles`: advances every position by its velocity times `timestep`. */
  function Move(p: Particles, timestep: real): (q: Particles)
    requires p.Valid()
    ensures q.Valid() && q.Count() == p.Count()
    ensures q.velX == p.velX && q.velY == p.velY
  {
    p.(posX := MoveAxis(p.posX, p.velX, timestep), posY := MoveAxis(p.posY, p.velY, timestep))
  }

  /** Moving by t1 and then by t2 is one move by t1 + t2. */
  lemma MoveComposes(p: Particles, t1: real, t2: real)
    requires p.Valid()
    ensures Move(Move(p, t1), t2) == Move(p, t1 + t2)
  {
    var q, r := Move(Move(p, t1), t2), Move(p, t1 + t2);
    forall i | 0 <= i < p.Count()
      ensures q.posX[i] == r.posX[i] && q.posY[i] == r.posY[i]
    {
      Distribute(p.posX[i], p.velX[i], t1, t2);
      Distribute(p.posY[i], p.velY[i], t1, t2);
    }
    assert q.posX == r.posX && q.posY == r.posY;
  }

  lemma Distribute(x: real, v: real, t1: real, t2: real)
    ensures (x + v * t1) + v * t2 == x + v * (t1 + t2)
  {
  }

  /** A move by zero changes nothing. */
  lemma MoveByZero(p: Particles)
    requires p.Valid()
    ensures Move(p, 0.0) == p
  {
    assert Move(p, 0.0).posX == p.posX;
    assert Move(p, 0.0).posY == p.posY;
  }

  // ---------------------------------------------------------------- run

  /** One iteration of the loop of `run`: reflect, then move. */
  function Step(p: Particles, width: real, radius: real, timestep: real): (q: Particles)
    requires p.Valid()
    ensures q.Valid() && q.Count() == p.Count()
  {
    Move(Reflect(p, width, radius), timestep)
  }

  /** `k` iterations of the loop with the same timestep. */
  function Evolve(p: Particles, width: real, radius: real, timestep: real, k: nat): (q: Particles)
    requires p.Valid()
    ensures q.Valid() && q.Count() == p.Count()
    decreases k
  {
    if k == 0 then p else Step(Evolve(p, width, radius, timestep, k - 1), width, radius, timestep)
  }

  /** The speed of every particle, as `vector_magnitude(vel_x, vel_y)`. */
  function Speeds(norm: (real, real) -> real, p: Particles): (s: seq<real>)
    requires IsMagnitude(norm) && p.Valid()
    ensures |s| == p.Count()
  {
    VectorMagnitude(norm, p.velX, p.velY)
  }

  /** The speed of a particle is non-negative, and zero exactly when it stands still. */
  lemma SpeedZeroIffStill(norm: (real, real) -> real, p: Particles, i: nat)
    requires IsMagnitude(norm) && p.Valid() && i < p.Count()
    ensures 0.0 <= Speeds(norm, p)[i]
    ensures Speeds(norm, p)[i] == 0.0 <==> p.velX[i] == 0.0 && p.velY[i] == 0.0
  {
  }


  /** No particle moves. */
  predicate AtRest(p: Particles)
    requires p.Valid()
  {
    forall i :: 0 <= i < p.Count() ==> p.velX[i] == 0.0 && p.velY[i] == 0.0
  }

  /** `np.max(speed)` is zero exactly when every velocity is zero. */
  lemma MaxSpeedZeroIffAtRest(norm: (real, real) -> real, p: Particles)
    requires IsMagnitude(norm) && p.Valid() && p.Count() > 0
    ensures Max(Speeds(norm, p)) >= 0.0
    ensures Max(Speeds(norm, p)) == 0.0 <==> AtRest(p)
  {
    var s := Speeds(norm, p);
    var m := Max(s);
    assert s[0] <= m;
    if m == 0.0 {
      forall i | 0 <= i < p.Count() ensures p.velX[i] == 0.0 && p.velY[i] == 0.0 {
        assert 0.0 <= s[i] <= m;
      }
    }
    if AtRest(p) {
      var k :| 0 <= k < |s| && s[k] == m;
      assert s[k] == 0.0;
    }
  }

  /** `np.max(speed)` over a non-empty state. */
  function MaxSpeed(norm: (real, real) -> real, p: Particles): (m: real)
    requires IsMagnitude(norm) && p.Valid() && p.Count() > 0
    ensures 0.0 <= m
    ensures m == 0.0 <==> AtRest(p)
  {
    MaxSpeedZeroIffAtRest(norm, p);
    Max(Speeds(norm, p))
  }

  /** `0.2 * radius / np.max(speed)`: the time in which a particle at the
      largest speed covers a fifth of the radius. */
  function Timestep(radius: real, maxSpeed: real): (dt: real)
    requires 0.0 < maxSpeed
    ensures dt * maxSpeed == 0.2 * radius
    ensures 0.0 < radius ==> 0.0 < dt
    ensures radius <= 0.0 ==> dt <= 0.0
  {
    0.2 * radius / maxSpeed
  }

  /** In one timestep no particle covers more than a fifth of the radius,
      and the fastest covers exactly that. */
  lemma TimestepBoundsDisplacement(norm: (real, real) -> real, p: Particles, radius: real)
    requires IsMagnitude(norm) && p.Valid() && 0 < p.Count() && !AtRest(p) && 0.0 < radius
    ensures forall i :: 0 <= i < p.Count() ==>
      Speeds(norm, p)[i] * Timestep(radius, MaxSpeed(norm, p)) <= 0.2 * radius
    ensures MaxSpeed(norm, p) in Speeds(norm, p)
    ensures MaxSpeed(norm, p) * Timestep(radius, MaxSpeed(norm, p)) == 0.2 * radius
  {
    MaxSpeedIsLargest(norm, p);
    SpeedsStepBound(Speeds(norm, p), MaxSpeed(norm, p), radius);
  }

  /** `MaxSpeed` is one of the speeds, and no speed exceeds it. */
  lemma MaxSpeedIsLargest(norm: (real, real) -> real, p: Particles)
    requires IsMagnitude(norm) && p.Valid() && 0 < p.Count()
    ensures MaxSpeed(norm, p) in Speeds(norm, p)
    ensures forall i :: 0 <= i < p.Count() ==> Speeds(norm, p)[i] <= MaxSpeed(norm, p)
  {
  }

  /** The same for any speeds no larger than `maxSpeed`. */
  lemma SpeedsStepBound(s: seq<real>, maxSpeed: real, radius: real)
    requires forall i :: 0 <= i < |s| ==> s[i] <= maxSpeed
    requires 0.0 < maxSpeed && 0.0 < radius
    ensures forall i :: 0 <= i < |s| ==> s[i] * Timestep(radius, maxSpeed) <= 0.2 * radius
  {
    forall i | 0 <= i < |s|
      ensures s[i] * Timestep(radius, maxSpeed) <= 0.2 * radius
    {
      SpeedStepBound(s[i], maxSpeed, radius);
    }
  }

  /** With the timestep taken from the largest speed, a particle no faster
      than that covers at most a fifth of the radius in one timestep, and one
      at the largest speed covers exactly that. */
  lemma SpeedStepBound(speed: real, maxSpeed: real, radius: real)
    requires speed <= maxSpeed && 0.0 < maxSpeed && 0.0 < radius
    ensures speed * Timestep(radius, maxSpeed) <= 0.2 * radius
    ensures speed == maxSpeed ==> speed * Timestep(radius, maxSpeed) == 0.2 * radius
  {
    ScaledBelow(speed, maxSpeed, Timestep(radius, maxSpeed), 0.2 * radius);
  }

  lemma MulRightMonotone(a: real, b: real, c: real)
    requires a <= b && 0.0 < c
    ensures a * c <= b * c
  {
  }

  lemma ScaledBelow(a: real, m: real, dt: real, c: real)
    requires a <= m && 0.0 < dt && dt * m == c
    ensures a * dt <= c
  {
    assert (m - a) * dt >= 0.0;
  }

  lemma Quotient(c: real, m: real)
    requires 0.0 < m
    ensures (c / m) * m == c
    ensures 0.0 < c ==> 0.0 < c / m
    ensures c <= 0.0 ==> c / m <= 0.0
  {
  }

  /** Reflection, and so a step, leaves every speed as it was. */
  lemma StepKeepsSpeeds(norm: (real, real) -> real, p: Particles, width: real, radius: real, timestep: real)
    requires IsMagnitude(norm) && p.Valid()
    ensures Speeds(norm, Step(p, width, radius, timestep)) == Speeds(norm, p)
  {
    var q := Reflect(p, width, radius);
    ReflectKeepsAbsoluteVelocities(p, width, radius);
    MagnitudeIgnoresSigns(norm, p.velX, p.velY, q.velX, q.velY);
  }

  /** Speeds are the same after any number of steps, so the timestep `run`
      computes is the same on every iteration. */
  lemma {:induction false} EvolveKeepsSpeeds(norm: (real, real) -> real, p: Particles, width: real, radius: real, timestep: real, k: nat)
    requires IsMagnitude(norm) && p.Valid()
    ensures Speeds(norm, Evolve(p, width, radius, timestep, k)) == Speeds(norm, p)
    decreases k
  {
    if k > 0 {
      EvolveKeepsSpeeds(norm, p, width, radius, timestep, k - 1);
      StepKeepsSpeeds(norm, Evolve(p, width, radius, timestep, k - 1), width, radius, timestep);
    }
  }

  /** The value of `time` after k iterations: `timestep` added k times to 0.0. */
  function ElapsedTime(timestep: real, k: nat): (t: real)
    ensures 0.0 <= timestep ==> 0.0 <= t
  {
    if k == 0 then 0.0 else ElapsedTime(timestep, k - 1) + timestep
  }

  /** Adding the timestep k times is multiplying it by k. */
  lemma {:induction false} ElapsedTimeIsProduct(timestep: real, k: nat)
    ensures ElapsedTime(timestep, k) == k as real * timestep
  {
    if k > 0 {
      ElapsedTimeIsProduct(timestep, k - 1);
      assert (k - 1) as real * timestep + timestep == k as real * timestep;
    }
  }

  /** A non-positive timestep never takes `time` above 0.0, so with a
      non-positive radius (see Timestep) the loop of `run` cannot end once a
      particle moves. */
  lemma {:induction false} ElapsedTimeWithoutProgress(timestep: real, k: nat)
    requires timestep <= 0.0
    ensures ElapsedTime(timestep, k) <= 0.0
  {
    if k > 0 {
      ElapsedTimeWithoutProgress(timestep, k - 1);
    }
  }

  /** Every particle keeps moving or keeps still, and the largest speed, and
      so the timestep, is the same after any number of steps. */
  lemma EvolveKeepsMotion(norm: (real, real) -> real, p: Particles, width: real, radius: real, timestep: real, k: nat)
    requires IsMagnitude(norm) && p.Valid()
    ensures AtRest(Evolve(p, width, radius, timestep, k)) <==> AtRest(p)
    ensures 0 < p.Count() ==> MaxSpeed(norm, Evolve(p, width, radius, timestep, k)) == MaxSpeed(norm, p)
  {
    var q := Evolve(p, width, radius, timestep, k);
    EvolveKeepsSpeeds(norm, p, width, radius, timestep, k);
    if 0 < p.Count() {
      assert MaxSpeed(norm, q) == MaxSpeed(norm, p);
    }
  }

  /** The number of iterations `while time <= duration` makes when `time`
      grows by `timestep` on each. */
  function StepCount(duration: real, timestep: real): (k: nat)
    requires 0.0 < timestep
    ensures k == 0 <==> duration < 0.0
  {
    if duration < 0.0 then 0
    else
      Quotient(duration, timestep);
      (duration / timestep).Floor + 1
  }

  lemma BelowQuotient(a: real, d: real, dt: real)
    requires 0.0 < dt && a * dt <= d
    ensures a <= d / dt
  {
    assert d / dt - a == (d - a * dt) / dt;
  }

  lemma AboveQuotient(a: real, d: real, dt: real)
    requires 0.0 < dt && d < a * dt
    ensures d / dt < a
  {
    assert a - d / dt == (a * dt - d) / dt;
  }

  /** An iteration that starts within `duration` is one of the StepCount
      iterations. */
  lemma StepCountCoversStart(duration: real, timestep: real, k: nat)
    requires 0.0 < timestep && ElapsedTime(timestep, k) <= duration
    ensures k < StepCount(duration, timestep)
  {
    ElapsedTimeIsProduct(timestep, k);
    MulRightMonotone(0.0, k as real, timestep);
    BelowQuotient(k as real, duration, timestep);
  }

  /** The loop ends after k iterations exactly when k is StepCount: the last
      iteration starts within `duration` and the time after it is past it. */
  lemma StepCountUnique(duration: real, timestep: real, k: nat)
    requires 0.0 < timestep
    ensures StepCount(duration, timestep) == k <==>
      duration < ElapsedTime(timestep, k) && (k == 0 || ElapsedTime(timestep, k - 1) <= duration)
  {
    var n := StepCount(duration, timestep);
    ElapsedTimeIsProduct(timestep, k);
    if 0 < k {
      ElapsedTimeIsProduct(timestep, k - 1);
    }
    if k == n {
      StepCountBounds(duration, timestep);
    }
    if duration < k as real * timestep && (k == 0 || (k - 1) as real * timestep <= duration) {
      StepCountLeast(duration, timestep, k);
    }
  }

  lemma StepCountBounds(duration: real, timestep: real)
    requires 0.0 < timestep
    ensures duration < StepCount(duration, timestep) as real * timestep
    ensures 0 < StepCount(duration, timestep) ==> (StepCount(duration, timestep) - 1) as real * timestep <= duration
  {
    if 0.0 <= duration {
      var n := StepCount(duration, timestep);
      var q := duration / timestep;
      Quotient(duration, timestep);
      assert (n - 1) as real <= q < n as real;
      ScaledBelow((n - 1) as real, q, timestep, duration);
      ScaledAbove(q, n as real, timestep, duration);
    }
  }

  lemma ScaledAbove(m: real, a: real, dt: real, c: real)
    requires m < a && 0.0 < dt && dt * m == c
    ensures c < a * dt
  {
    assert (a - m) * dt > 0.0;
  }

  lemma StepCountLeast(duration: real, timestep: real, k: nat)
    requires 0.0 < timestep
    requires duration < k as real * timestep && (k == 0 || (k - 1) as real * timestep <= duration)
    ensures StepCount(duration, timestep) == k
  {
    if k == 0 {
      assert duration < 0.0;
    } else {
      BelowQuotient((k - 1) as real, duration, timestep);
      AboveQuotient(k as real, duration, timestep);
    }
  }

  /** Without a positive radius `run` never ends once a particle moves:
      after any number k of iterations a particle still moves, the timestep
      is still the first one, and `time` has not passed `duration`, so the
      loop takes iteration k + 1 as well. */
  lemma RunNeverEndsWithoutRadius(norm: (real, real) -> real, p: Particles, width: real, radius: real, duration: real, k: nat)
    requires IsMagnitude(norm) && p.Valid() && 0 < p.Count() && !AtRest(p)
    requires radius <= 0.0 && 0.0 <= duration
    ensures !AtRest(Evolve(p, width, radius, Timestep(radius, MaxSpeed(norm, p)), k))
    ensures MaxSpeed(norm, Evolve(p, width, radius, Timestep(radius, MaxSpeed(norm, p)), k)) == MaxSpeed(norm, p)
    ensures ElapsedTime(Timestep(radius, MaxSpeed(norm, p)), k) <= duration
  {
    var dt := Timestep(radius, MaxSpeed(norm, p));
    EvolveKeepsMotion(norm, p, width, radius, dt, k);
    ElapsedTimeWithoutProgress(dt, k);
  }

  /** `run` takes a step only when `time <= duration` holds at 0.0, there are
      particles and at least one moves; the loop then ends only for a positive radius. */
  predicate RunTerminates(p: Particles, radius: real, duration: real)
    requires p.Valid()
  {
    duration < 0.0 || p.Count() == 0 || AtRest(p) || 0.0 < radius
  }

  /** The state `run` leaves: unchanged when no step is taken, otherwise
      StepCount steps of the one timestep. */
  function RunResult(norm: (real, real) -> real, p: Particles, width: real, radius: real, duration: real): (q: Particles)
    requires IsMagnitude(norm) && p.Valid() && RunTerminates(p, radius, duration)
    ensures q.Valid() && q.Count() == p.Count()
  {
    if duration < 0.0 || p.Count() == 0 || AtRest(p) then p
    else
      var dt := Timestep(radius, MaxSpeed(norm, p));
      Evolve(p, width, radius, dt, StepCount(duration, dt))
  }

  /** `run` fails exactly when it enters the loop with no particles, and then
      with the ValueError of `np.max` on an empty array. */
  function RunOutcome(p: Particles, duration: real): (r: Outcome)
    requires p.Valid()
    ensures r.Fail? <==> 0.0 <= duration && p.Count() == 0
    ensures r.Fail? ==> r.error == ValueError(EmptyMaxMessage)
  {
    if 0.0 <= duration && p.Count() == 0 then Fail(ValueError(EmptyMaxMessage)) else Pass
  }

  /** When every velocity is zero `run` leaves the state as it was. */
  lemma RunAtRestChangesNothing(norm: (real, real) -> real, p: Particles, width: real, radius: real, duration: real)
    requires IsMagnitude(norm) && p.Valid() && AtRest(p)
    ensures RunResult(norm, p, width, radius, duration) == p
  {
  }

  /** `run` never changes a speed: what it does is reflections and moves. */
  lemma RunKeepsSpeeds(norm: (real, real) -> real, p: Particles, width: real, radius: real, duration: real)
    requires IsMagnitude(norm) && p.Valid() && RunTerminates(p, radius, duration)
    ensures Speeds(norm, RunResult(norm, p, width, radius, duration)) == Speeds(norm, p)
  {
    if !(duration < 0.0 || p.Count() == 0 || AtRest(p)) {
      var dt := Timestep(radius, MaxSpeed(norm, p));
      EvolveKeepsSpeeds(norm, p, width, radius, dt, StepCount(duration, dt));
    }
  }

  // ---------------------------------------------------------------- the loop of run

  /** The timestep every iteration of `run` uses when the first one moves
      anything, and an arbitrary positive value otherwise. */
  lemma FirstTimestep(norm: (real, real) -> real, p: Particles, radius: real) returns (dt: real)
    requires IsMagnitude(norm) && p.Valid()
    ensures 0.0 < dt
    ensures 0 < p.Count() && !AtRest(p) && 0.0 < radius ==> dt == Timestep(radius, MaxSpeed(norm, p))
  {
    dt := if 0 < p.Count() && !AtRest(p) && 0.0 < radius then Timestep(radius, MaxSpeed(norm, p)) else 1.0;
  }

  /** What holds at the head of the loop of `run` after k iterations from p:
      `time` and the state are those of k steps of dt, and a step was taken
      only if p moves, with the call's radius and within `duration`. */
  ghost predicate RunLoop(norm: (real, real) -> real, p: Particles, width: real, radius: real, duration: real,
                          dt: real, k: nat, time: real, q: Particles)
    requires IsMagnitude(norm) && p.Valid()
  {
    0.0 < dt && time == ElapsedTime(dt, k) && q == Evolve(p, width, radius, dt, k) &&
    (0 < k ==> 0 < p.Count() && !AtRest(p) && 0.0 < radius && ElapsedTime(dt, k - 1) <= duration)
  }

  lemma RunLoopStarts(norm: (real, real) -> real, p: Particles, width: real, radius: real, duration: real, dt: real)
    requires IsMagnitude(norm) && p.Valid() && 0.0 < dt
    ensures RunLoop(norm, p, width, radius, duration, dt, 0, 0.0, p)
  {
  }

  /** An iteration that finds a particle moving takes the loop one step on. */
  lemma RunLoopSteps(norm: (real, real) -> real, p: Particles, width: real, radius: real, duration: real,
                     dt: real, k: nat, time: real, q: Particles)
    requires IsMagnitude(norm) && p.Valid() && RunTerminates(p, radius, duration)
    requires 0 < p.Count() && !AtRest(p) && 0.0 < radius ==> dt == Timestep(radius, MaxSpeed(norm, p))
    requires RunLoop(norm, p, width, radius, duration, dt, k, time, q) && time <= duration
    requires 0 < q.Count() && !AtRest(q)
    ensures k < StepCount(duration, dt)
    ensures Timestep(radius, MaxSpeed(norm, q)) == dt
    ensures RunLoop(norm, p, width, radius, duration, dt, k + 1, time + dt, Step(q, width, radius, dt))
  {
    StepCountCoversStart(duration, dt, k);
    EvolveKeepsMotion(norm, p, width, radius, dt, k);
    assert k == 0 ==> 0.0 <= duration;
  }

  /** An iteration that finds nothing to do can only be the first. */
  lemma RunLoopStops(norm: (real, real) -> real, p: Particles, width: real, radius: real, duration: real,
                     dt: real, k: nat, time: real, q: Particles)
    requires IsMagnitude(norm) && p.Valid() && RunTerminates(p, radius, duration)
    requires RunLoop(norm, p, width, radius, duration, dt, k, time, q) && time <= duration
    requires q.Count() == 0 || AtRest(q)
    ensures q == p && RunResult(norm, p, width, radius, duration) == p
    ensures RunOutcome(p, duration) == if q.Count() == 0 then Fail(ValueError(EmptyMaxMessage)) else Pass
  {
    EvolveKeepsMotion(norm, p, width, radius, dt, k);
    assert k == 0;
  }

  /** When `time` has passed `duration` the loop has taken StepCount steps. */
  lemma RunLoopEnds(norm: (real, real) -> real, p: Particles, width: real, radius: real, duration: real,
                    dt: real, k: nat, time: real, q: Particles)
    requires IsMagnitude(norm) && p.Valid() && RunTerminates(p, radius, duration)
    requires 0 < p.Count() && !AtRest(p) && 0.0 < radius ==> dt == Timestep(radius, MaxSpeed(norm, p))
    requires RunLoop(norm, p, width, radius, duration, dt, k, time, q) && duration < time
    ensures RunResult(norm, p, width, radius, duration) == q
    ensures RunOutcome(p, duration) == Pass
  {
    if 0 < k {
      StepCountUnique(duration, dt, k);
    }
  }
}
