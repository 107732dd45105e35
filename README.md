# UAV payload drop calculator — verified model of the drop calculation

The calculator takes a payload mass (grams), the aircraft's altitude above mean
sea level, its ground speed and heading, and the target's latitude and
longitude. It looks up the ground elevation at the target, computes the fall
height, the fall time of the payload under quadratic drag, and the horizontal
drift during the fall, and places the release point that far from the target
along the reciprocal of the heading.

This project models that calculation (`calculate_drop`, Drop.py:21-51) as pure
Dafny functions over mathematical reals, and proves what it computes:

- `Wrappers` — the `Option` type used for the elevation lookup's outcome.
- `Angles` — Python's float `x % 360`, written as `x - 360 * floor(x / 360)`,
  with the facts that characterise it (range [0, 360), whole turns, uniqueness).
- `RealArith` — `x**2` and the few facts about real products the proofs need.
- `FallModel` — grams to kilograms, the terminal velocity
  `sqrt(2 m g / (rho A Cd))` and the fall time
  `(v_t / g) * tanh(g h / v_t**2)`, with the calculator's constants
  (rho = 1.225, Cd = 0.8, r = 0.025 m, A = pi r**2, g = 9.81, pi = Python's
  `math.pi`). The two Python exceptions the formulas can raise are modelled as
  `None`: the square root of a negative number and the division by a zero
  terminal speed.
- `DriftProjector` — the drift `speed * fall time`, the reciprocal bearing
  `(heading + 180) % 360`, and the request handed to the geodesic library
  (origin, bearing, distance).
- `Drop` — `Calculate`, one press of the button: the failed-lookup stop, the
  ground-level error carrying both altitudes, the input error for a mass that
  is not positive (with which exception raised it), or the solution.

`sqrt` and `tanh` are not defined in Dafny: they are the two fields of a
`MathLib` value passed in, and the ghost predicate `FallModel.Sound` states
the only facts the proofs use: `sqrt(y) >= 0` and `sqrt(y)**2 == y` for
`y >= 0`; `0 < tanh(x) < 1` and `tanh(x) < x` for `x > 0`; `tanh` strictly
increasing.

The order of the outcomes follows the code, not an up-front validation: the
lookup is checked first (Drop.py:30-32), then the fall height (Drop.py:34-37),
and only then does a mass that is not positive fail, inside the formulas at
Drop.py:46-47 (a negative mass makes `math.sqrt` raise; a zero mass makes the
terminal speed 0 and the division at line 47 raise), ending in the catch-all
at Drop.py:70-71. So a zero-mass payload dropped from below ground level is a
ground-level error, not an input error.

The fall-time formula is modelled as written. As a consequence the fall time
is bounded by `v_t / g` however great the height (`FallModel.FallTimeBound`);
the model does not replace it by the exact solution of the drag equation.

## Model

| member | source | states |
|---|---|---|
| `FallModel.GramsToKg` | Drop.py:23 | the mass in kilograms times 1000 is the entered grams, and it is positive exactly when the grams are |
| `Angles.Mod360` | Drop.py:28 | the reduced heading lies in [0, 360) and differs from the entered heading by a whole number of turns |
| `Angles.Mod360Unique` | Drop.py:28 | those two properties determine the reduced heading: any angle in [0, 360) a whole number of turns away from the input is it |
| `Angles.Mod360WholeTurns` | Drop.py:28 | adding any whole number of turns to the heading leaves the reduced heading unchanged |
| `Angles.Mod360Idempotent` | Drop.py:28 | reducing twice is reducing once, and a heading already in [0, 360) is kept as it is |
| `Angles.Mod360OfSum` | Drop.py:51 | reducing the heading before adding 180 gives the same bearing as reducing the raw sum |
| `FallModel.TerminalSpeedSquared` | Drop.py:46 | the argument of the square root is positive exactly for a positive mass and zero exactly for a zero mass (`r**2` at Drop.py:43 is the helper `RealArith.Square`) |
| `FallModel.TerminalVelocity` | Drop.py:40-46 | the square root fails (math domain error) exactly for a negative mass; otherwise the terminal speed is non-negative, its square is `2 m g / (rho A Cd)`, and it is positive exactly for a positive mass |
| `FallModel.FallTime` | Drop.py:47 | the formula divides by zero exactly when the terminal speed is zero; for positive speed and height the fall time lies strictly between 0 and `v_t / g` (`v_terminal**2` is the helper `RealArith.Square`) |
| `FallModel.FallTimeBound` | Drop.py:47 | the saturation bound: `0 < (v_t / g) * tanh(g h / v_t**2) < v_t / g` for every positive speed and height |
| `FallModel.FallTimeBelowHeightOverSpeed` | Drop.py:47 | since `tanh(x) < x`, the fall time is below `h / v_t`, the time to fall the whole height at the terminal speed |
| `FallModel.FallTimeIncreasesWithHeight` | Drop.py:47 | at a fixed positive terminal speed a greater fall height gives a strictly longer fall time |
| `DriftProjector.Drift` | Drop.py:49 | zero speed or zero fall time gives zero drift; positive speed and fall time give a positive drift |
| `DriftProjector.DriftLinearInSpeed` | Drop.py:49 | the drift scales with the speed and is additive in it |
| `DriftProjector.DriftIncreasesWithFallTime` | Drop.py:49 | at a positive speed a longer fall gives a strictly longer drift |
| `DriftProjector.ReciprocalBearing` | Drop.py:51 | the projection bearing lies in [0, 360), is half a turn (modulo whole turns) from the heading, and is never the heading itself |
| `DriftProjector.ReciprocalBearingClosedForm` | Drop.py:51 | for a heading in [0, 360) the bearing is the heading plus 180 below 180, and the heading minus 180 from 180 on |
| `DriftProjector.ReciprocalBearingInvolution` | Drop.py:51 | reversing a reduced heading twice gives it back |
| `DriftProjector.DueNorthReleasesDueSouth` | Drop.py:51 | heading 0 gives bearing 180 |
| `DriftProjector.ProjectDrop` | Drop.py:49-51 | the geodesic request starts at the target, travels the drift distance, along a bearing in [0, 360) half a turn from the heading; with non-negative speed and positive fall time the distance is positive exactly when the speed is |
| `Drop.Calculate` | Drop.py:21-51 | exactly one outcome, in the code's order: a failed lookup gives `AltitudeUnavailable` and nothing else; a plane at or below the ground gives `GroundLevelError` with both altitudes; otherwise a mass that is not positive gives `InputError` (square root of a negative for a negative mass, division by zero for zero); otherwise a solution whose fall height is altitude minus ground, whose fall time is the fall-time formula at the terminal speed of the entered mass and at that fall height, and lies in (0, v_t / g), whose drift is speed times fall time, starting at the target on a bearing in [0, 360) half a turn from the entered heading |
| `Drop.FallTimeIncreasesWithAltitude` | Drop.py:34-49 | over the same ground, a higher aircraft still has a solution, with a strictly longer fall and, at positive speed, a strictly longer drift |
| `Drop.DriftScalesWithSpeed` | Drop.py:49-51 | scaling the speed by k scales the drift distance by k and changes nothing else in the solution (k = 0 releases over the target) |
| `Drop.HeadingWholeTurnsIrrelevant` | Drop.py:28-51 | headings that differ by whole turns give the same outcome |
| `Drop.NorthboundReleasesDueSouth` | Drop.py:28-51 | a heading of 0, or any whole number of turns, puts the release point on bearing 180 |
| `Drop.ReferenceScenario` | Drop.py:21-51 | 500 g from 100 m over sea-level ground at 30 m/s heading 0 at (0, 0): a solution with fall height 100 m, request (0, 0, bearing 180, 30 m per second of fall), terminal speed between 71.40 and 71.402 m/s, fall time below both `v_t / g` and `h / v_t`, hence below 1.4006 s, and a drift below 42.02 m |

## Left out

- The Tkinter interface (Drop.py:53-68, 73-113): widgets, map markers and the result text. It is presentation only.
- `get_ground_altitude` (Drop.py:10-18), an HTTP request to Open-Elevation with a 5 s timeout and an error dialog: its outcome is the `Option<real>` argument of `Calculate`.
- The geodesic destination point, `distance(...).destination(...)` from geopy (Drop.py:50-51), is an ellipsoidal-geodesic library call: the model stops at the origin, bearing and distance it is given. geopy's `Point` constructor is not part of this model, so any validation it performs on the latitude or longitude is not modelled either.
- Parsing of the six entry fields with `float(...)` and the resulting input errors for text that is not a number (Drop.py:23-28, 70-71): the inputs are already reals. Only the arithmetic faults of the formulas are modelled as input errors.
- IEEE double behaviour: rounding in `/`, `sqrt`, `tanh` and `%`, infinities and NaN, a tiny positive mass whose `v_terminal**2` underflows to 0, and a tiny negative heading whose `% 360` rounds to 360.0. The model is over mathematical reals.
- `sqrt` and `tanh` are parameters described only by `FallModel.Sound`; their numeric values are not modelled, so the reference scenario gives bounds (the terminal speed to within 0.002 m/s, the fall time from above), not the fall time itself.
- Monotonicity of the fall time in the mass is not stated: the formula at Drop.py:47 is not monotone in the terminal speed (for large `v_t` the fall time behaves like `h / v_t` and decreases), and the facts about `tanh` in `FallModel.Sound` decide neither direction.
- A negative ground speed is not rejected by the code; the model keeps it and produces a negative drift distance, and what geopy does with it is not modelled.
- Determinism of the calculation needs no lemma: every member is a Dafny function of its arguments.
