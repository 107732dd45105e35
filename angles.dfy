/** Angles in degrees, reduced the way Python's float `%` reduces them:
    `x % 360` is `x - 360 * floor(x / 360)`, so the result always has the
    sign of the divisor. */
module Angles {

  const FullTurn: real := 360.0
  const HalfTurn: real := 180.0

  /** `d` is a whole number of full turns (a multiple of 360 degrees). */
  predicate WholeTurns(d: real) {
    (d / FullTurn).Floor as real == d / FullTurn
  }

  /** Python's `x % 360` on floats, over the reals. */
  function Mod360(x: real): (r: real)
    ensures 0.0 <= r < FullTurn
    ensures WholeTurns(x - r)
  {
    x - FullTurn * (x / FullTurn).Floor as real
  }

  /** The two properties of `Mod360` determine it: any angle in [0, 360)
      that differs from `x` by whole turns is `Mod360(x)`. */
  lemma Mod360Unique(x: real, r: real)
    requires 0.0 <= r < FullTurn
    requires WholeTurns(x - r)
    ensures Mod360(x) == r
  {
    var k := ((x - r) / FullTurn).Floor;
    assert x == r + FullTurn * k as real;
    assert x / FullTurn == r / FullTurn + k as real;
    assert 0.0 <= r / FullTurn < 1.0;
    assert (x / FullTurn).Floor == k;
  }

  /** Adding whole turns does not change the reduced angle. */
  lemma Mod360WholeTurns(x: real, k: int)
    ensures Mod360(x + FullTurn * k as real) == Mod360(x)
  {
    var r := Mod360(x);
    var j := ((x - r) / FullTurn).Floor;
    assert x - r == FullTurn * j as real;
    assert (x + FullTurn * k as real) - r == FullTurn * (j + k) as real;
    assert ((x + FullTurn * k as real) - r) / FullTurn == (j + k) as real;
    Mod360Unique(x + FullTurn * k as real, r);
  }

  /** Reducing twice is reducing once, and angles already in [0, 360) are kept. */
  lemma Mod360Idempotent(x: real)
    ensures Mod360(Mod360(x)) == Mod360(x)
    ensures 0.0 <= x < FullTurn ==> Mod360(x) == x
  {
    Mod360Unique(Mod360(x), Mod360(x));
    if 0.0 <= x < FullTurn {
      Mod360Unique(x, x);
    }
  }

  /** Reducing the first summand before adding gives the same reduced sum. */
  lemma Mod360OfSum(x: real, y: real)
    ensures Mod360(Mod360(x) + y) == Mod360(x + y)
  {
    var k := ((x - Mod360(x)) / FullTurn).Floor;
    assert x == Mod360(x) + FullTurn * k as real;
    Mod360WholeTurns(Mod360(x) + y, k);
  }

  /** An angle half a turn away from a whole number of turns is not one. */
  lemma HalfTurnNotWhole(d: real)
    requires WholeTurns(d + HalfTurn)
    ensures !WholeTurns(d)
  {
    var k := ((d + HalfTurn) / FullTurn).Floor;
    assert d / FullTurn == k as real - 0.5;
    assert (d / FullTurn).Floor == k - 1;
  }
}
