/**
 * Bringing an angle difference into [-PI, PI] (the two `while` loops at the
 * start of `draw_sprite`, src/main.rs:131-137).
 *
 * The loops subtract 2*PI while the angle is above PI, then add 2*PI while it
 * is below -PI. `WrapDown` and `WrapUp` are the same two loops written as
 * recursion; `NormalizeAngle` is the loop itself, proved to compute them.
 */
module Angles {

  /** `std::f32::consts::PI`, the nearest `f32` to pi, to eight digits. */
  const PI: real := 3.1415927

  /** The first loop: subtract 2*PI while the angle exceeds PI. */
  function WrapDown(a: real): real
    decreases a
  {
    if a > PI then WrapDown(a - 2.0 * PI) else a
  }

  /** The second loop: add 2*PI while the angle is below -PI. */
  function WrapUp(a: real): real
    decreases -a
  {
    if a < -PI then WrapUp(a + 2.0 * PI) else a
  }

  /** The angle left behind by both loops. */
  function Normalized(a: real): real
  {
    WrapUp(WrapDown(a))
  }

  /** `a` plus `k` whole turns. */
  function Turned(a: real, k: int): real
  {
    a + 2.0 * PI * (k as real)
  }

  /** The first loop subtracts a whole number of turns and stops at or below
      PI; when it ran at all, it stops strictly above -PI. */
  lemma {:induction false} WrapDownTurns(a: real) returns (k: nat)
    ensures WrapDown(a) == Turned(a, -(k as int))
    ensures WrapDown(a) <= PI
    ensures a <= PI ==> k == 0
    ensures a > PI ==> -PI < WrapDown(a)
    decreases a
  {
    if a > PI {
      var j := WrapDownTurns(a - 2.0 * PI);
      k := j + 1;
    } else {
      k := 0;
    }
  }

  /** The second loop adds a whole number of turns and stops at or above -PI;
      started at or below PI it also stays at or below PI. */
  lemma {:induction false} WrapUpTurns(a: real) returns (k: nat)
    ensures WrapUp(a) == Turned(a, k)
    ensures -PI <= WrapUp(a)
    ensures a >= -PI ==> k == 0
    ensures a < -PI ==> WrapUp(a) < PI
    ensures a <= PI ==> WrapUp(a) <= PI
    decreases -a
  {
    if a < -PI {
      var j := WrapUpTurns(a + 2.0 * PI);
      k := j + 1;
    } else {
      k := 0;
    }
  }

  /** Termination aside, the property the loops exist for: the result lies in
      [-PI, PI] and differs from the input by a whole number of turns. */
  lemma NormalizedInRange(a: real) returns (k: int)
    ensures -PI <= Normalized(a) <= PI
    ensures Normalized(a) == Turned(a, k)
  {
    var down := WrapDownTurns(a);
    var up := WrapUpTurns(WrapDown(a));
    k := up as int - down as int;
  }

  /** An angle already in [-PI, PI] is left alone. */
  lemma NormalizedFixesRange(a: real)
    requires -PI <= a <= PI
    ensures Normalized(a) == a
  {
    var down := WrapDownTurns(a);
    var up := WrapUpTurns(a);
  }

  /** The result is the representative of `a` modulo 2*PI: any angle strictly
      inside (-PI, PI) that differs from `a` by whole turns is the result.
      (At the two ends, PI and -PI name the same direction; which one comes
      out depends on the side the input started from.) */
  lemma NormalizedUnique(a: real, r: real, k: int)
    requires -PI < r < PI
    requires r == Turned(a, k)
    ensures Normalized(a) == r
  {
    var j := NormalizedInRange(a);
    var n := Normalized(a);
    // r - n == 2*PI*(k - j) and |r - n| < 2*PI, so k == j.
    assert n == Turned(a, j);
    assert k == j;
  }

  /** `angle_diff` after the two loops of `draw_sprite`. */
  method NormalizeAngle(a: real) returns (r: real)
    ensures r == Normalized(a)
    ensures -PI <= r <= PI
  {
    r := a;
    while r > PI
      invariant WrapDown(r) == WrapDown(a)
      decreases r
    {
      r := r - 2.0 * PI;
    }
    while r < -PI
      invariant WrapUp(r) == Normalized(a)
      decreases -r
    {
      r := r + 2.0 * PI;
    }
    var _ := NormalizedInRange(a);
  }
}
