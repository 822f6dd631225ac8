/** `Simulator`: the box, and the four arrays its methods update in place. */
module Simulation {
  import opened Results
  import opened NdArrays
  import opened Geometry
  import opened Physics

  /** A new array holding `s`. */
  method ArrayOf(s: seq<real>) returns (a: array<real>)
    ensures fresh(a) && a[..] == s
  {
    a := new real[|s|](i requires 0 <= i < |s| => s[i]);
  }

  /** `vel[outside] *= -1` on one axis, where `outside` is every index whose
      position is not strictly between `lo` and `hi`. */
  method ReflectAxisInPlace(pos: array<real>, vel: array<real>, lo: real, hi: real)
    requires pos != vel && pos.Length == vel.Length
    modifies vel
    ensures vel[..] == ReflectAxis(pos[..], old(vel[..]), lo, hi)
  {
    for i := 0 to vel.Length
      invariant forall k :: 0 <= k < i ==> vel[k] == ReflectComponent(pos[k], old(vel[k]), lo, hi)
      invariant forall k :: i <= k < vel.Length ==> vel[k] == old(vel[k])
    {
      if !Inside(pos[i], lo, hi) {
        vel[i] := vel[i] * -1.0;
      }
    }
    assert vel[..] == ReflectAxis(pos[..], old(vel[..]), lo, hi);
  }

  /** `pos += vel * timestep` on one axis. */
  method MoveAxisInPlace(pos: array<real>, vel: array<real>, timestep: real)
    requires pos != vel && pos.Length == vel.Length
    modifies pos
    ensures pos[..] == MoveAxis(old(pos[..]), vel[..], timestep)
  {
    for i := 0 to pos.Length
      invariant forall k :: 0 <= k < i ==> pos[k] == MoveAxis(old(pos[..]), vel[..], timestep)[k]
      invariant forall k :: i <= k < pos.Length ==> pos[k] == old(pos[k])
    {
      pos[i] := pos[i] + vel[i] * timestep;
    }
    assert pos[..] == MoveAxis(old(pos[..]), vel[..], timestep);
  }

  /** The default `duration` of `run`. */
  const DefaultDuration: real := 10.0

  class Simulator {
    const width: real
    const radius: real
    /** null until `MakeParticles` is given an array, as the source's None. */
    var posX: array?<real>
    var posY: array?<real>
    var velX: array?<real>
    var velY: array?<real>

    /** The four arrays are present, of one length, and distinct. */
    ghost predicate Loaded()
      reads this
    {
      posX != null && posY != null && velX != null && velY != null &&
      posY.Length == posX.Length && velX.Length == posX.Length && velY.Length == posX.Length &&
      posX != posY && posX != velX && posX != velY && posY != velX && posY != velY && velX != velY
    }

    /** The contents of the four arrays. */
    ghost function State(): (p: Particles)
      requires Loaded()
      reads this, posX, posY, velX, velY
      ensures p.Valid()
    {
      Particles(posX[..], posY[..], velX[..], velY[..])
    }

    constructor (width: real, radius: real)
      ensures this.width == width && this.radius == radius
      ensures posX == null && posY == null && velX == null && velY == null
    {
      this.width := width;
      this.radius := radius;
      posX, posY, velX, velY := null, null, null, null;
    }

    /** The defaults of the source: a box of width 100 and particles of radius 1. */
    constructor Default()
      ensures width == 100.0 && radius == 1.0
      ensures posX == null && posY == null && velX == null && velY == null
    {
      width := 100.0;
      radius := 1.0;
      posX, posY, velX, velY := null, null, null, null;
    }

    /** `make_particles`: a (4, N) block becomes the four arrays; any other
        shape fails and changes nothing; no block changes nothing. */
    method MakeParticles(posVel: Option<NdArray>) returns (outcome: Outcome)
      requires posVel.Some? ==> posVel.value.Valid()
      modifies this
      ensures SplitInput(posVel).Err? ==> outcome == Fail(SplitInput(posVel).error) && unchanged(this)
      ensures SplitInput(posVel) == Ok(None) ==> outcome == Pass && unchanged(this)
      ensures SplitInput(posVel).Ok? && SplitInput(posVel).value.Some? ==>
        outcome == Pass && Loaded() && fresh(posX) && fresh(posY) && fresh(velX) && fresh(velY) &&
        State() == SplitInput(posVel).value.value
    {
      match SplitInput(posVel)
      case Err(e) =>
        outcome := Fail(e);
      case Ok(None) =>
        outcome := Pass;
      case Ok(Some(p)) =>
        posX := ArrayOf(p.posX);
        posY := ArrayOf(p.posY);
        velX := ArrayOf(p.velX);
        velY := ArrayOf(p.velY);
        outcome := Pass;
    }

    /** `reflect_walls`: every velocity component whose position is not
        strictly inside the walls is negated. */
    method ReflectWalls()
      requires Loaded()
      modifies velX, velY
      ensures Loaded() && State() == Reflect(old(State()), width, radius)
    {
      ReflectAxisInPlace(posX, velX, radius, width - radius);
      ReflectAxisInPlace(posY, velY, radius, width - radius);
    }

    /** `move_particles`: every position advances by its velocity times `timestep`. */
    method MoveParticles(timestep: real)
      requires Loaded()
      modifies posX, posY
      ensures Loaded() && State() == Move(old(State()), timestep)
    {
      MoveAxisInPlace(posX, velX, timestep);
      MoveAxisInPlace(posY, velY, timestep);
    }

    /** The body of the loop of `run`: the speeds, the check that some
        particle moves, the timestep, the reflection and the move. `exit` is
        None when the loop goes on, and otherwise the outcome it ends with. */
    method RunIteration(norm: (real, real) -> real) returns (exit: Option<Outcome>, timestep: real)
      requires Loaded() && IsMagnitude(norm)
      modifies posX, posY, velX, velY
      ensures Loaded()
      ensures old(State()).Count() == 0 ==>
        exit == Some(Fail(ValueError(EmptyMaxMessage))) && State() == old(State())
      ensures 0 < old(State()).Count() && AtRest(old(State())) ==>
        exit == Some(Pass) && State() == old(State())
      ensures 0 < old(State()).Count() && !AtRest(old(State())) ==>
        exit == None && timestep == Timestep(radius, MaxSpeed(norm, old(State()))) &&
        State() == Step(old(State()), width, radius, timestep)
    {
      var speed := VectorMagnitude(norm, velX[..], velY[..]);
      if |speed| == 0 {
        return Some(Fail(ValueError(EmptyMaxMessage))), 0.0;
      }
      var maxSpeed := Max(speed);
      assert maxSpeed == MaxSpeed(norm, State());
      if maxSpeed == 0.0 {
        return Some(Pass), 0.0;
      }
      timestep := Timestep(radius, maxSpeed);
      ReflectWalls();
      MoveParticles(timestep);
      exit := None;
    }

    /** One pass of the loop of `run`, from the loop state after k iterations:
        either the loop stops here with the outcome and the state `run` ends
        with, or it takes iteration k + 1 of the `StepCount` iterations and
        returns the new `time`. */
    method Advance(norm: (real, real) -> real, ghost p0: Particles, duration: real, ghost dt0: real,
                   ghost k: nat, time: real) returns (exit: Option<Outcome>, time': real)
      requires Loaded() && IsMagnitude(norm) && p0.Valid() && RunTerminates(p0, radius, duration)
      requires 0 < p0.Count() && !AtRest(p0) && 0.0 < radius ==> dt0 == Timestep(radius, MaxSpeed(norm, p0))
      requires RunLoop(norm, p0, width, radius, duration, dt0, k, time, State()) && time <= duration
      modifies posX, posY, velX, velY
      ensures Loaded()
      ensures exit.Some? ==>
        exit.value == RunOutcome(p0, duration) && State() == RunResult(norm, p0, width, radius, duration)
      ensures exit.None? ==>
        k < StepCount(duration, dt0) && RunLoop(norm, p0, width, radius, duration, dt0, k + 1, time', State())
    {
      ghost var q := State();
      var timestep;
      exit, timestep := RunIteration(norm);
      if exit.Some? {
        RunLoopStops(norm, p0, width, radius, duration, dt0, k, time, q);
        assert q == p0 && State() == q;
        time' := time;
      } else {
        RunLoopSteps(norm, p0, width, radius, duration, dt0, k, time, q);
        time' := time + timestep;
      }
    }

    /** `run` without the plot: while `time <= duration`, stop if no particle
        moves, otherwise reflect and move by the timestep that takes the
        fastest particle a fifth of the radius. `norm` is the magnitude
        `vector_magnitude` takes of the two velocity components. */
    method Run(duration: real, norm: (real, real) -> real) returns (outcome: Outcome)
      requires Loaded() && IsMagnitude(norm)
      requires RunTerminates(State(), radius, duration)
      modifies posX, posY, velX, velY
      ensures Loaded()
      ensures outcome == RunOutcome(old(State()), duration)
      ensures State() == RunResult(norm, old(State()), width, radius, duration)
    {
      ghost var p0 := State();
      ghost var dt0 := FirstTimestep(norm, p0, radius);
      ghost var k: nat := 0;
      var time := 0.0;
      outcome := Pass;
      RunLoopStarts(norm, p0, width, radius, duration, dt0);
      while time <= duration
        invariant Loaded()
        invariant RunLoop(norm, p0, width, radius, duration, dt0, k, time, State())
        decreases StepCount(duration, dt0) - k
      {
        var exit;
        exit, time := Advance(norm, p0, duration, dt0, k, time);
        if exit.Some? {
          outcome := exit.value;
          return;
        }
        k := k + 1;
      }
      RunLoopEnds(norm, p0, width, radius, duration, dt0, k, time, State());
    }

    /** `run()` with its default `duration` of 10. */
    method RunDefault(norm: (real, real) -> real) returns (outcome: Outcome)
      requires Loaded() && IsMagnitude(norm)
      requires RunTerminates(State(), radius, DefaultDuration)
      modifies posX, posY, velX, velY
      ensures Loaded()
      ensures outcome == RunOutcome(old(State()), DefaultDuration)
      ensures State() == RunResult(norm, old(State()), width, radius, DefaultDuration)
    {
      outcome := Run(DefaultDuration, norm);
    }
  }
}
