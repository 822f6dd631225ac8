# boxsim in Dafny

A model of the physics core of boxsim, a two-dimensional gas simulator. Particles
move freely in a square box of side `width` and bounce off its walls. A particle
of radius `radius` is inside the box when its coordinate lies strictly between
`radius` and `width - radius`.

The simulator keeps four parallel arrays: `pos_x`, `pos_y`, `vel_x` and `vel_y`.
- `make_particles` fills them from a (4, N) block.
- `reflect_walls` negates every velocity component whose position is outside.
- `move_particles` advances every position by velocity times timestep.
- `run` repeats reflect-then-move while the elapsed time has not passed `duration`. Its timestep lets the fastest particle cover a fifth of the radius, and it stops early when nothing moves.

The helper `outer_subtract_self` builds the matrix of pairwise differences of a
one-dimensional array.

Layout, one module per file:

- `results.dfy` (`Results`): errors as values — `ValueError` and `AttributeError`, `Result`, `Option` and the `Outcome` of a call.
- `text.dfy` (`Text`): the decimal rendering of numbers and shape tuples that the error messages contain.
- `ndarrays.dfy` (`NdArrays`): an array of reals with its shape, and `np.max`.
- `geometry.dfy` (`Geometry`): `outer_subtract_self`, with NumPy broadcasting written out, and `vector_magnitude`.
- `physics.dfy` (`Physics`): the four arrays as a value `Particles`, and every rule of the simulator as a function on it, with the lemmas about those rules. It also gives the number of iterations `run` makes (`StepCount`) and the state it leaves (`RunResult`).
- `simulator.dfy` (`Simulation`): the class `Simulator`. Its array fields are `null` where the source holds `None`. Its methods update the arrays in place and are proved against the functions of `Physics`.

Numbers are Dafny `real`. There is no square root over the reals, so the magnitude
is a parameter `norm` of `vector_magnitude` and of `run`. `IsMagnitude(norm)` gives
the properties the simulator relies on:
- it is non-negative;
- it is zero exactly when both components are zero;
- it depends only on the absolute values of the components.

## Model

| member | source | states |
|---|---|---|
| Geometry.OuterSubtractSelf | boxsim/simulation.py:5-12 | succeeds exactly for a one-dimensional input of length n; the result is n×n with entry (i, j) equal to `a[j] - a[i]`; any other rank gives a ValueError whose message is `DimensionMessage` of that rank |
| Geometry.BroadcastSubtract | boxsim/simulation.py:10 | NumPy broadcasting of `x - y`: on each axis an extent of 1 takes the other operand's extent, and each entry is taken from row/column 0 of an operand whose extent is 1 |
| Geometry.OuterSubtractSelfAntisymmetric | boxsim/simulation.py:10 | the difference matrix is antisymmetric and zero on the diagonal |
| Geometry.OuterSubtractSelfExample | tests/test_simulation.py:44-49 | `[1, 2, 3]` gives `[[0, 1, 2], [-1, 0, 1], [-2, -1, 0]]` |
| Geometry.OuterSubtractSelfRejectsMatrix | tests/test_simulation.py:38-42 | a (1, 3) array is rejected with "Expected array of dimension 1, got: 2" |
| Geometry.DimensionMessageReportsRank | boxsim/simulation.py:11-12 | the message is the fixed prefix followed by the rank, and the rank can be read back from it |
| Text.ParseNatToString | boxsim/simulation.py:12 | the decimal rendering of a number loses nothing: parsing it gives the number back |
| Text.NatToString | boxsim/simulation.py:12 | a non-empty string of decimal digits with no leading zero |
| Text.TupleToString | boxsim/simulation.py:43 | a shape tuple is written in parentheses, as Python writes `pos_vel.shape`; what it contains is stated by `ParseTupleToString` |
| Text.ParseJoinNats | boxsim/simulation.py:43 | numbers joined by ", " are read back in order |
| Text.ParseTupleToString | boxsim/simulation.py:43 | the rendering of a shape loses nothing: parsing it gives every entry back, in order |
| Geometry.VectorMagnitude | boxsim/simulation.py:15-17 | one value per particle; every value is non-negative and is zero exactly when both components are zero |
| Geometry.MagnitudeIgnoresSigns | boxsim/simulation.py:17 | the magnitudes depend only on the absolute values of the components |
| NdArrays.Max | boxsim/simulation.py:96 | `np.max`: an entry of the array that no entry exceeds |
| NdArrays.NdArray.Row | boxsim/simulation.py:47-50 | `a[k]` of a two-dimensional array: as many entries as there are columns, entry j being entry k × N + j of the array in row-major order |
| Physics.SplitRows | boxsim/simulation.py:43-52 | succeeds exactly for rank 2 with 4 rows; then the four arrays have one length N, the number of columns, and laid end to end they are the input's entries; otherwise a ValueError naming the shape |
| Physics.ShapeMessageReportsShape | boxsim/simulation.py:43 | the message is the fixed prefix followed by the shape, and the shape can be read back from it |
| Physics.ShapeMessageDeterminesShape | boxsim/simulation.py:43 | two different shapes are never rejected with the same message |
| Physics.SplitInput | boxsim/simulation.py:45-55 | no argument succeeds and assigns nothing; a block succeeds or fails as `SplitRows` |
| Physics.SplitRowsAcceptsFourRows | tests/test_simulation.py:17-23 | the (4, 3) block of the suite is split into its four rows |
| Physics.SplitRowsRejectsOneRow | tests/test_simulation.py:26-30 | a (1, 5) array is rejected with "Expected 'pos_vel' to have shape (4, N), got: (1, 5)" |
| Physics.SplitInputAsWritten | boxsim/simulation.py:43-45 | as written, a call without an argument fails with an AttributeError; with an argument it agrees with `SplitInput` |
| Physics.SplitInputAsWrittenRejectsNone | boxsim/simulation.py:43-55 | the as-written and intended versions differ on the missing argument |
| Physics.ReflectAxis | boxsim/simulation.py:60-63 | one axis of `reflect_walls`: one velocity per particle, kept when the position is strictly inside `(lo, hi)` and negated otherwise |
| Physics.Reflect | boxsim/simulation.py:57-63 | `reflect_walls` on values keeps the four arrays of one length; what it does to each component is stated by `ReflectFlipsExactlyOutside` |
| Physics.ReflectFlipsExactlyOutside | boxsim/simulation.py:58-63 | on each axis a velocity component is negated when its position is not strictly between `radius` and `width - radius`, and kept when it is; positions do not change |
| Physics.ReflectOnWall | boxsim/simulation.py:60-62 | a particle exactly on a wall counts as outside and is turned back |
| Physics.ReflectTwiceRestores | boxsim/simulation.py:60-63 | two reflections with no move in between restore every velocity |
| Physics.ReflectKeepsAbsoluteVelocities | boxsim/simulation.py:62-63 | every velocity component keeps its absolute value |
| Physics.ReflectAsWritten | boxsim/simulation.py:60-61 | as written, the chained comparison raises NumPy's ambiguous-truth ValueError exactly when there are two or more particles, and agrees with `Reflect` otherwise |
| Physics.ReflectAsWrittenFailsForTwoParticles | boxsim/simulation.py:60-61 | two particles inside the box, which need no reflection, make the as-written rule raise |
| Physics.MoveAxis | boxsim/simulation.py:67 | one axis of `move_particles`: one position per particle, each advanced by velocity × timestep |
| Physics.Move | boxsim/simulation.py:65-68 | `move_particles` on values leaves the velocities as they were |
| Physics.MoveComposes | boxsim/simulation.py:67-68 | a move by t1 and then by t2 is one move by t1 + t2 |
| Physics.MoveByZero | boxsim/simulation.py:67-68 | a move by zero changes nothing |
| Physics.Step | boxsim/simulation.py:108-109 | one iteration keeps the four arrays of one length |
| Physics.Evolve | boxsim/simulation.py:93-110 | any number of iterations keeps the four arrays of one length |
| Physics.StepKeepsSpeeds | boxsim/simulation.py:94-109 | an iteration leaves every speed as it was |
| Physics.EvolveKeepsSpeeds | boxsim/simulation.py:93-110 | every speed is the same after any number of iterations |
| Physics.EvolveKeepsMotion | boxsim/simulation.py:94-102 | the state stays at rest or stays moving, and the largest speed, and so the timestep, is the same on every iteration |
| Physics.Speeds | boxsim/simulation.py:94 | `vector_magnitude` of the velocities: one speed per particle |
| Physics.SpeedZeroIffStill | boxsim/simulation.py:94 | a particle's speed is non-negative, and zero exactly when both its velocity components are |
| Physics.MaxSpeedZeroIffAtRest | boxsim/simulation.py:94-98 | the largest speed is non-negative, and it is zero exactly when every velocity is zero |
| Physics.MaxSpeed | boxsim/simulation.py:94-96 | the largest speed is non-negative, and zero exactly when nothing moves |
| Physics.Timestep | boxsim/simulation.py:100-102 | timestep × largest speed = 0.2 × radius; positive for a positive radius, non-positive otherwise |
| Physics.TimestepBoundsDisplacement | boxsim/simulation.py:100-102 | for a moving state and a positive radius: in one timestep no particle's speed × timestep exceeds a fifth of the radius, and the largest speed, which is one of the particles' speeds, covers exactly that |
| Physics.MaxSpeedIsLargest | boxsim/simulation.py:96 | the largest speed is the speed of some particle, and no particle is faster |
| Physics.SpeedsStepBound | boxsim/simulation.py:100-102 | with the timestep of the largest speed, any speed no larger covers at most a fifth of the radius |
| Physics.ElapsedTime | boxsim/simulation.py:92-110 | `time` after k iterations of `time += timestep` from 0.0; never negative for a non-negative timestep |
| Physics.StepCount | boxsim/simulation.py:93 | the number of iterations for a positive timestep: none exactly when `duration` is negative, since `time` starts at 0 |
| Physics.ElapsedTimeIsProduct | boxsim/simulation.py:92-110 | after k iterations `time` is k × timestep |
| Physics.ElapsedTimeWithoutProgress | boxsim/simulation.py:102-110 | with a non-positive timestep `time` never exceeds 0, so the loop cannot end once a particle moves |
| Physics.StepCountCoversStart | boxsim/simulation.py:93 | an iteration that begins within `duration` is one of the `StepCount` iterations |
| Physics.StepCountUnique | boxsim/simulation.py:92-110 | k is the iteration count exactly when the k-th iteration begins within `duration` and `time` has passed it after k iterations |
| Physics.StepCountBounds | boxsim/simulation.py:93-110 | after `StepCount` iterations `time` has passed `duration`, and the last of them began within it |
| Physics.StepCountLeast | boxsim/simulation.py:93-110 | no other count satisfies both bounds |
| Physics.RunOutcome | boxsim/simulation.py:93-96 | what `run` ends with: it fails, with the ValueError of `np.max` on an empty array, exactly when it enters the loop (`duration` not negative) with no particles |
| Physics.RunResult | boxsim/simulation.py:87-110 | the state `run` leaves has the same number of particles |
| Physics.RunAtRestChangesNothing | boxsim/simulation.py:96-98 | when every velocity is zero `run` leaves the state as it was |
| Physics.RunKeepsSpeeds | boxsim/simulation.py:93-110 | `run` changes no speed |
| Physics.RunNeverEndsWithoutRadius | boxsim/simulation.py:93-110 | as written, with a non-positive radius and a particle moving, after any number of iterations a particle still moves, the timestep is unchanged and `time` has not passed a non-negative `duration`, so the loop never ends |
| Physics.FirstTimestep | boxsim/simulation.py:102 | always positive; with a positive radius and a particle moving, it is the timestep of the first iteration |
| Physics.RunLoopStarts | boxsim/simulation.py:92 | the loop starts at time 0 with the state given |
| Physics.RunLoopSteps | boxsim/simulation.py:99-110 | an iteration that finds a particle moving uses the first timestep, is one of the `StepCount` iterations, and advances the loop by one step |
| Physics.RunLoopStops | boxsim/simulation.py:94-98 | an iteration that finds no particle, or none moving, is the first: the state is the one given, and the outcome is the empty-array error or a normal stop |
| Physics.RunLoopEnds | boxsim/simulation.py:93 | when `time` has passed `duration` the loop has left `RunResult` and succeeds |
| Simulation.ReflectAxisInPlace | boxsim/simulation.py:60-63 | one axis of `reflect_walls` in place: the velocity array becomes `ReflectAxis` of its old contents |
| Simulation.MoveAxisInPlace | boxsim/simulation.py:67-68 | one axis of `move_particles` in place: the position array becomes `MoveAxis` of its old contents |
| Simulation.Simulator.constructor | boxsim/simulation.py:22-30 | stores `width` and `radius`; no particles yet |
| Simulation.Simulator.Default | boxsim/simulation.py:22-30 | a box of width 100 and particles of radius 1; no particles yet |
| Simulation.Simulator.MakeParticles | boxsim/simulation.py:36-55 | a (4, N) block gives four new arrays whose state is `SplitRows` of it; an error changes nothing; no argument changes nothing |
| Simulation.Simulator.ReflectWalls | boxsim/simulation.py:57-63 | the new state is `Reflect` of the old |
| Simulation.Simulator.MoveParticles | boxsim/simulation.py:65-68 | the new state is `Move` of the old |
| Simulation.Simulator.RunIteration | boxsim/simulation.py:94-109 | with no particles it reports the empty-array error, with none moving it stops, and otherwise it takes one `Step` with `Timestep` of the largest speed |
| Simulation.Simulator.Advance | boxsim/simulation.py:93-110 | one pass of the loop from the state after k iterations: either the loop stops with `RunOutcome` and `RunResult`, or it is iteration k + 1 of the `StepCount` iterations and the loop state moves one step on |
| Simulation.Simulator.Run | boxsim/simulation.py:87-110 | the outcome is `RunOutcome` and the new state is `RunResult` of the old: `StepCount` steps of the one timestep, or no change when nothing moves or `duration` is negative |
| Simulation.Simulator.RunDefault | boxsim/simulation.py:87 | `run()` with the default `duration` of 10: the same outcome and state as `Run` for that duration |

## Left out

- Plotting: `setup_plot`, the `animate` branch with `plt.ion` and `plt.pause`, and the fields `fig`, `ax` and `plotter` produce graphics only. The message printed when nothing moves is left out for the same reason.
- The random draw of `make_particles` is not written in the source, which only has `pass`. The model therefore assigns nothing when no block is given.
- The suite in tests/test_simulation.py calls `stack_pos_vel`, the keyword `positions_velocities=` and the attribute `positions_x`, and expects 50 random particles. None of these exist in boxsim/simulation.py, so they are not modelled.
- Floating point: numbers are exact reals. Rounding of `time += timestep` could change the number of iterations by one near `duration`, and this is not captured.
- NumPy dtypes: every array is an array of reals. With integer arrays, as in the suite, NumPy would refuse the in-place `pos_x += vel_x * timestep`.
- Geometry.VectorMagnitude: it does not compute `sqrt(x**2 + y**2)`. The magnitude is the parameter `norm`, and the model proves only what follows from `IsMagnitude`.
- Geometry.VectorMagnitude: it requires two arrays of one length. NumPy would also broadcast other shapes, but the simulator never passes any.
- Aliasing: the source's fields are views of the rows of the caller's block, so `reflect_walls` and `move_particles` also change the caller's array. `MakeParticles` copies the rows into new arrays instead.
- Simulation.Simulator.Run: it requires `RunTerminates`. With a non-positive radius and a moving particle the source loops for ever, because `time` never grows (`RunNeverEndsWithoutRadius`, the last row of "## Findings"); those calls are excluded.
- The `animate` parameter of `run` and its default `False` are left out with the plotting; the default `duration` is `RunDefault`.
- Simulation.Simulator.Run: with no particles `np.max` raises, and this is modelled as the outcome `Fail`. A call before `make_particles` has loaded arrays raises a plain Python TypeError on `None` (`None ** 2` at line 17, `radius < None` at line 60, `None * timestep` at line 67); the methods require `Loaded()` instead.
- Simulation.Simulator.ReflectWalls and Simulation.Simulator.MoveParticles: they require `Loaded()` for the same reason.
- `reflect_walls` with no particles: whether NumPy accepts the truth value of an empty array depends on its version. The model treats the call as changing nothing.
- `width` and `radius` are constants of a simulator. Python would let a caller reassign them.
- `setup.py` is packaging only.

## Findings

| source | as written | input that shows it | evidently intended | confidence | as-written member | corrected member |
|---|---|---|---|---|---|---|
| boxsim/simulation.py:43 | the error message is built from `pos_vel.shape` before `pos_vel` is compared with `None` | `make_particles()` with no argument: `None` has no `shape`, so an AttributeError is raised | the `None` branch at lines 53-55 is reached and nothing is assigned | high, not executed | Physics.SplitInputAsWritten (shown by Physics.SplitInputAsWrittenRejectsNone) | Physics.SplitInput, used by Simulation.Simulator.MakeParticles |
| boxsim/simulation.py:60-61 | `radius < pos_x < width - radius` on arrays means `(radius < pos_x) and (pos_x < width - radius)`, and `and` asks for the truth value of an array of comparisons | every state with two or more particles (the contract of Physics.ReflectAsWritten), e.g. both well inside the box at x = 50 and x = 60 (Physics.ReflectAsWrittenFailsForTwoParticles): NumPy raises a ValueError | the elementwise open-interval test that line 58 describes | high, not executed | Physics.ReflectAsWritten | Physics.Reflect (proved by Physics.ReflectFlipsExactlyOutside), used by Simulation.Simulator.ReflectWalls |
| boxsim/simulation.py:102-110 | the timestep `0.2 * radius / max(speed)` is not positive when `radius <= 0`, so `time` never grows past 0 | `Simulator(radius=0.0)` with one particle of velocity (1, 0) and `run(10.0)`: every iteration takes a zero step and `time` stays 0 | `run` ends after finitely many iterations, which needs a positive radius | medium, not executed | Physics.RunNeverEndsWithoutRadius | Simulation.Simulator.Run, which requires Physics.RunTerminates and is proved to end (its loop decreases `StepCount - k`) with the state Physics.RunResult |
