/** The drop calculation: from the form's inputs and the ground elevation at
    the target, either the geodesic request that places the release point, or
    the reason the calculation stopped. The checks come in the calculator's
    order: the elevation lookup, then the fall height, then the arithmetic of
    the terminal-velocity formula. */
module Drop {
  import opened Wrappers
  import opened Angles
  import opened RealArith
  import opened FallModel
  import opened DriftProjector

  /** The six form fields, already read as numbers. */
  datatype DropInput = DropInput(
    massGrams: real,
    altitude: real,
    speed: real,
    lat: real,
    lon: real,
    heading: real)

  /** The Python exception that ends the calculation as an input error. */
  datatype ArithmeticFault =
    | SqrtOfNegative  // `math.sqrt` of a negative number: "math domain error"
    | DivisionByZero  // `(g * h) / v_terminal**2` with a zero terminal speed

  datatype DropOutcome =
    | AltitudeUnavailable
    | GroundLevelError(planeAltitude: real, groundAltitude: real)
    | InputError(fault: ArithmeticFault)
    | Ok(groundAltitude: real, fallHeight: real, fallTime: real, projection: GeodesicRequest)

  /** One press of "Calculate Drop Point". `ground` is the outcome of the
      elevation lookup at the target: `None` when it failed. */
  function Calculate(lib: MathLib, input: DropInput, ground: Option<real>): (r: DropOutcome)
    requires Sound(lib)
    // A failed lookup stops everything; nothing is computed from it.
    ensures r == AltitudeUnavailable <==> ground.None?
    // A plane at or below the ground is reported with both altitudes.
    ensures r.GroundLevelError? <==> ground.Some? && input.altitude <= ground.value
    ensures r.GroundLevelError? ==> r == GroundLevelError(input.altitude, ground.value)
    // A mass that is not positive fails in the formula, for its own reason.
    ensures r.InputError? <==> ground.Some? && input.altitude > ground.value && input.massGrams <= 0.0
    ensures r.InputError? ==> (r.fault == SqrtOfNegative <==> input.massGrams < 0.0)
    // Otherwise there is a solution.
    ensures r.Ok? <==> ground.Some? && input.altitude > ground.value && input.massGrams > 0.0
    ensures r.Ok? ==> r.groundAltitude == ground.value
    ensures r.Ok? ==> r.fallHeight == input.altitude - ground.value && r.fallHeight > 0.0
    // The fall time is the formula's, at the terminal speed of this mass and this fall height.
    ensures r.Ok? ==> TerminalVelocity(lib, GramsToKg(input.massGrams)).Some?
    ensures r.Ok? ==>
      Some(r.fallTime) == FallTime(lib, TerminalVelocity(lib, GramsToKg(input.massGrams)).value, r.fallHeight)
    ensures r.Ok? ==>
      0.0 < r.fallTime < lib.sqrt(TerminalSpeedSquared(GramsToKg(input.massGrams))) / Gravity
    ensures r.Ok? ==> r.projection.meters == input.speed * r.fallTime
    ensures r.Ok? ==> r.projection.originLat == input.lat && r.projection.originLon == input.lon
    ensures r.Ok? ==> 0.0 <= r.projection.bearing < FullTurn
    ensures r.Ok? ==> WholeTurns(input.heading + HalfTurn - r.projection.bearing)
  {
    var massKg := GramsToKg(input.massGrams);
    var heading := Mod360(input.heading);
    match ground
    case None => AltitudeUnavailable
    case Some(groundAltitude) =>
      var h := input.altitude - groundAltitude;
      if h <= 0.0 then GroundLevelError(input.altitude, groundAltitude)
      else
        match TerminalVelocity(lib, massKg)
        case None => InputError(SqrtOfNegative)
        case Some(v) =>
          match FallTime(lib, v, h)
          case None => InputError(DivisionByZero)
          case Some(t) =>
            var projection := ProjectDrop(input.lat, input.lon, input.speed, t, heading);
            assert WholeTurns(input.heading + HalfTurn - projection.bearing) by {
              Mod360OfSum(input.heading, HalfTurn);
              assert projection.bearing == Mod360(input.heading + HalfTurn);
            }
            Ok(groundAltitude, h, t, projection)
  }

  /** Raising the aircraft over the same ground, with everything else held,
      keeps the solution and lengthens the fall; with a positive ground speed
      the release point moves further from the target. */
  lemma FallTimeIncreasesWithAltitude(lib: MathLib, input: DropInput, ground: Option<real>, higher: real)
    requires Sound(lib)
    requires Calculate(lib, input, ground).Ok?
    requires higher > input.altitude
    ensures Calculate(lib, input.(altitude := higher), ground).Ok?
    ensures Calculate(lib, input.(altitude := higher), ground).fallTime
          > Calculate(lib, input, ground).fallTime
    ensures input.speed > 0.0 ==>
      Calculate(lib, input.(altitude := higher), ground).projection.meters
      > Calculate(lib, input, ground).projection.meters
  {
    var r1 := Calculate(lib, input, ground);
    var r2 := Calculate(lib, input.(altitude := higher), ground);
    var v := TerminalVelocity(lib, GramsToKg(input.massGrams)).value;
    FallTimeIncreasesWithHeight(lib, v, r1.fallHeight, r2.fallHeight);
    if input.speed > 0.0 {
      DriftIncreasesWithFallTime(input.speed, r1.fallTime, r2.fallTime);
    }
  }

  /** Scaling the ground speed by `k` scales the drift by `k` and changes
      nothing else; in particular zero speed releases over the target. */
  lemma DriftScalesWithSpeed(lib: MathLib, input: DropInput, ground: Option<real>, k: real)
    requires Sound(lib)
    requires Calculate(lib, input, ground).Ok?
    ensures Calculate(lib, input.(speed := k * input.speed), ground)
         == var r := Calculate(lib, input, ground);
            r.(projection := r.projection.(meters := k * r.projection.meters))
  {
    var t := Calculate(lib, input, ground).fallTime;
    DriftLinearInSpeed(k, input.speed, 0.0, t);
  }

  /** Headings that differ by whole turns give the same outcome: reducing the
      heading modulo 360 loses nothing. */
  lemma HeadingWholeTurnsIrrelevant(lib: MathLib, input: DropInput, ground: Option<real>, n: int)
    requires Sound(lib)
    ensures Calculate(lib, input.(heading := input.heading + FullTurn * n as real), ground)
         == Calculate(lib, input, ground)
  {
    Mod360WholeTurns(input.heading, n);
  }

  /** An aircraft heading due north (0 degrees, or any whole number of turns)
      is given a release point due south (180 degrees) of the target. */
  lemma NorthboundReleasesDueSouth(lib: MathLib, input: DropInput, ground: Option<real>)
    requires Sound(lib)
    requires Calculate(lib, input, ground).Ok?
    requires WholeTurns(input.heading)
    ensures Calculate(lib, input, ground).projection.bearing == HalfTurn
  {
    var n := (input.heading / FullTurn).Floor;
    assert input.heading == 0.0 + FullTurn * n as real;
    HeadingWholeTurnsIrrelevant(lib, input.(heading := 0.0), ground, n);
    assert input.(heading := 0.0).(heading := 0.0 + FullTurn * n as real) == input;
    DueNorthReleasesDueSouth();
  }

  /** A 500 g payload from 100 m over sea-level ground at 30 m/s heading north,
      at (0, 0): the fall height is 100 m and the release point lies due south
      of the target at 30 m per second of fall. With
      `v_t^2 = 2 * 0.5 * 9.81 / (1.225 * pi * 0.025^2 * 0.8)`, between 71.40^2
      and 71.402^2, the fall lasts less than both `v_t / g` and `h / v_t`, so
      under 1.4006 s, and the drift is under 42.02 m. */
  lemma ReferenceScenario(lib: MathLib)
    requires Sound(lib)
    ensures var r := Calculate(lib, DropInput(500.0, 100.0, 30.0, 0.0, 0.0, 0.0), Some(0.0));
      && r.Ok?
      && r.fallHeight == 100.0
      && r.projection == GeodesicRequest(0.0, 0.0, HalfTurn, 30.0 * r.fallTime)
      && 0.0 < r.fallTime < lib.sqrt(2.0 * 0.5 * 9.81 / (1.225 * (Pi * Square(0.025)) * 0.8)) / 9.81
      && 71.40 < lib.sqrt(2.0 * 0.5 * 9.81 / (1.225 * (Pi * Square(0.025)) * 0.8)) < 71.402
      && r.fallTime < 1.4006
      && 0.0 < r.projection.meters < 42.02
  {
    var input := DropInput(500.0, 100.0, 30.0, 0.0, 0.0, 0.0);
    var r := Calculate(lib, input, Some(0.0));
    NorthboundReleasesDueSouth(lib, input, Some(0.0));
    SqrtBelow(lib, TerminalSpeedSquared(0.5), 71.402);
    SqrtAbove(lib, TerminalSpeedSquared(0.5), 71.40);
    var v := lib.sqrt(TerminalSpeedSquared(0.5));
    FallTimeBelowHeightOverSpeed(lib, v, 100.0);
    QuotientDecreasingInDivisor(100.0, 71.40, v);
  }
}
