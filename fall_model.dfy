/** The terminal fall model: a payload of known mass released from rest falls a
    height `h` under gravity and quadratic drag. The fall time is the closed form
    `(v_t / g) * tanh(g * h / v_t^2)` with terminal speed
    `v_t = sqrt(2 * m * g / (rho * A * Cd))`, exactly as the calculator writes it. */
module FallModel {
  import opened Wrappers
  import opened RealArith

  /** The two transcendental functions the formula needs, as supplied by the
      host's math library. */
  datatype MathLib = MathLib(sqrt: real -> real, tanh: real -> real)

  /** What the model relies on about the math library, and nothing more. */
  ghost predicate Sound(lib: MathLib) {
    && (forall y :: y >= 0.0 ==> lib.sqrt(y) >= 0.0 && Square(lib.sqrt(y)) == y)
    && (forall x :: x > 0.0 ==> 0.0 < lib.tanh(x) < 1.0 && lib.tanh(x) < x)
    && (forall x, y :: x < y ==> lib.tanh(x) < lib.tanh(y))
  }

  /** Python's `math.pi`. */
  const Pi: real := 3.141592653589793
  /** Air density, kg/m^3. */
  const AirDensity: real := 1.225
  /** Drag coefficient of a cylinder. */
  const DragCoefficient: real := 0.8
  /** Payload radius, m. */
  const PayloadRadius: real := 0.025
  /** Gravitational acceleration, m/s^2. */
  const Gravity: real := 9.81
  /** Frontal area of the payload, m^2. */
  const FrontalArea: real := Pi * Square(PayloadRadius)

  /** The payload mass is entered in grams and used in kilograms. */
  function GramsToKg(grams: real): (kg: real)
    ensures kg * 1000.0 == grams
    ensures kg > 0.0 <==> grams > 0.0
  {
    grams / 1000.0
  }

  /** The argument of the square root: the square of the terminal speed. */
  function TerminalSpeedSquared(massKg: real): (q: real)
    ensures q > 0.0 <==> massKg > 0.0
    ensures q == 0.0 <==> massKg == 0.0
    ensures q * (AirDensity * FrontalArea * DragCoefficient) == 2.0 * massKg * Gravity
  {
    (2.0 * massKg * Gravity) / (AirDensity * FrontalArea * DragCoefficient)
  }

  /** Terminal speed at which drag balances weight. `None` is Python's
      "math domain error": the square root of a negative number. */
  function TerminalVelocity(lib: MathLib, massKg: real): (v: Option<real>)
    requires Sound(lib)
    ensures v.Some? <==> massKg >= 0.0
    ensures v.Some? ==> v.value >= 0.0 && Square(v.value) == TerminalSpeedSquared(massKg)
    ensures v.Some? ==> (v.value > 0.0 <==> massKg > 0.0)
  {
    var q := TerminalSpeedSquared(massKg);
    if q < 0.0 then None
    else
      SqrtFacts(lib, q);
      Some(lib.sqrt(q))
  }

  /** The square root of a non-negative real is its non-negative root, and is
      positive exactly when its argument is. */
  lemma SqrtFacts(lib: MathLib, y: real)
    requires Sound(lib)
    requires y >= 0.0
    ensures lib.sqrt(y) >= 0.0 && Square(lib.sqrt(y)) == y
    ensures lib.sqrt(y) > 0.0 <==> y > 0.0
  {
    var s := lib.sqrt(y);
    assert s >= 0.0 && Square(s) == y;
    SquarePositive(s);
  }

  /** A square root is below any positive bound whose square exceeds its argument. */
  lemma SqrtBelow(lib: MathLib, y: real, c: real)
    requires Sound(lib)
    requires 0.0 <= y < Square(c) && c > 0.0
    ensures lib.sqrt(y) < c
  {
    SqrtFacts(lib, y);
    if lib.sqrt(y) > c {
      SquareIncreasing(c, lib.sqrt(y));
    }
  }

  /** A square root is above any non-negative bound whose square is below its argument. */
  lemma SqrtAbove(lib: MathLib, y: real, c: real)
    requires Sound(lib)
    requires 0.0 <= c && Square(c) < y
    ensures lib.sqrt(y) > c
  {
    SqrtFacts(lib, y);
    if lib.sqrt(y) < c {
      SquareIncreasing(lib.sqrt(y), c);
    }
  }

  /** Fall time from height `h` at terminal speed `v`. `None` is Python's
      division by zero, which happens exactly when `v` is zero. For a positive
      speed and height the time is positive and below the saturation bound `v / g`. */
  function FallTime(lib: MathLib, v: real, h: real): (t: Option<real>)
    requires Sound(lib)
    ensures t.None? <==> v == 0.0
    ensures v > 0.0 && h > 0.0 ==> t.Some? && 0.0 < t.value < v / Gravity
  {
    SquarePositive(v);
    if Square(v) == 0.0 then None
    else
      var t := (v / Gravity) * lib.tanh((Gravity * h) / Square(v));
      assert v > 0.0 && h > 0.0 ==> 0.0 < t < v / Gravity by {
        if v > 0.0 && h > 0.0 {
          FallTimeBound(lib, v, h, t);
        }
      }
      Some(t)
  }

  /** The saturation bound of the tanh formula for positive speed and height. */
  lemma FallTimeBound(lib: MathLib, v: real, h: real, t: real)
    requires Sound(lib)
    requires v > 0.0 && h > 0.0
    requires Square(v) > 0.0 && t == (v / Gravity) * lib.tanh((Gravity * h) / Square(v))
    ensures 0.0 < t < v / Gravity
  {
    SquarePositive(v);
    var x := (Gravity * h) / Square(v);
    QuotientIncreasing(0.0, Gravity * h, Square(v));
    var th := lib.tanh(x);
    assert 0.0 < th < 1.0;
    var scale := v / Gravity;
    QuotientIncreasing(0.0, v, Gravity);
    ScaleStrictlyIncreasing(scale, 0.0, th, 0.0, t);
    ScaleStrictlyIncreasing(scale, th, 1.0, t, scale);
  }

  /** Holding the payload fixed, a greater fall height gives a strictly longer
      fall time: the formula is increasing in `h`. */
  lemma FallTimeIncreasesWithHeight(lib: MathLib, v: real, h1: real, h2: real)
    requires Sound(lib)
    requires v > 0.0 && h1 < h2
    ensures FallTime(lib, v, h1).Some? && FallTime(lib, v, h2).Some?
    ensures FallTime(lib, v, h1).value < FallTime(lib, v, h2).value
  {
    SquarePositive(v);
    var x1 := (Gravity * h1) / Square(v);
    var x2 := (Gravity * h2) / Square(v);
    ScaleStrictlyIncreasing(Gravity, h1, h2, Gravity * h1, Gravity * h2);
    QuotientIncreasing(Gravity * h1, Gravity * h2, Square(v));
    assert lib.tanh(x1) < lib.tanh(x2);
    QuotientIncreasing(0.0, v, Gravity);
    ScaleStrictlyIncreasing(v / Gravity, lib.tanh(x1), lib.tanh(x2),
      FallTime(lib, v, h1).value, FallTime(lib, v, h2).value);
  }

  /** Since `tanh(x) < x`, the fall is shorter than falling the whole height at
      the terminal speed: `t_fall < h / v_t`. */
  lemma FallTimeBelowHeightOverSpeed(lib: MathLib, v: real, h: real)
    requires Sound(lib)
    requires v > 0.0 && h > 0.0
    ensures FallTime(lib, v, h).Some? && FallTime(lib, v, h).value < h / v
  {
    SquarePositive(v);
    var x := (Gravity * h) / Square(v);
    QuotientIncreasing(0.0, Gravity * h, Square(v));
    assert lib.tanh(x) < x;
    var scale := v / Gravity;
    QuotientIncreasing(0.0, v, Gravity);
    ScaleStrictlyIncreasing(scale, lib.tanh(x), x, FallTime(lib, v, h).value, scale * x);
    assert scale * x == h / v by {
      assert Square(v) == v * v;
      assert scale * x == (v * (Gravity * h)) / (Gravity * (v * v));
    }
  }
}
