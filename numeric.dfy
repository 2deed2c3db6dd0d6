/**
 * Numeric conversions used by the renderer. The renderer computes its
 * geometry in floating point and then converts to pixel indices with Rust's
 * `as usize` / `as u32` casts; here the floating-point quantities are reals
 * and the casts are written out.
 */
module Numeric {

  /** Rust's float-to-unsigned `as` cast on a finite value: it saturates at 0
      for negative inputs and otherwise truncates toward zero (which, for a
      non-negative value, is the floor). */
  function AsUsize(r: real): (n: nat)
    ensures r <= 0.0 ==> n == 0
    ensures 0.0 <= r ==> n as real <= r < n as real + 1.0
  {
    if r <= 0.0 then 0 else r.Floor
  }

  /** `f32::abs`. */
  function Abs(r: real): (a: real)
    ensures 0.0 <= a
    ensures a == r || a == -r
  {
    if r < 0.0 then -r else r
  }

  /** `f32::max`, as used by `(v).max(0.0)`. */
  function MaxReal(a: real, b: real): (m: real)
    ensures a <= m && b <= m
    ensures m == a || m == b
  {
    if a < b then b else a
  }

  /** `usize::min`. */
  function MinNat(a: nat, b: nat): (m: nat)
    ensures m <= a && m <= b
    ensures m == a || m == b
  {
    if a < b then a else b
  }

  /** The cast is monotone: a larger float never gives a smaller index. */
  lemma AsUsizeMonotone(r: real, s: real)
    requires r <= s
    ensures AsUsize(r) <= AsUsize(s)
  {
    if 0.0 < r {
      assert AsUsize(r) as real <= r <= s;
      assert s < AsUsize(s) as real + 1.0;
    }
  }

  /** A value strictly below a whole number casts to an index strictly below
      that number. */
  lemma AsUsizeBelow(r: real, n: nat)
    requires r < n as real
    requires 0 < n
    ensures AsUsize(r) < n
  {
  }

  /** The product of two non-negative reals is non-negative. */
  lemma ProductNonneg(a: real, b: real)
    requires 0.0 <= a && 0.0 <= b
    ensures 0.0 <= a * b
  {
  }

  /** A non-negative product with a positive factor has a non-negative other factor. */
  lemma FactorNonneg(a: real, b: real)
    requires 0.0 < b && 0.0 <= a * b
    ensures 0.0 <= a
  {
  }
}
