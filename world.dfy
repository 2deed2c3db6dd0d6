/**
 * The values the renderer reads but never changes while drawing a frame,
 * and the external computations it relies on.
 */
module World {

  /** The viewer: position, facing angle `a` and field of view `fov`, both in
      radians (`player.rs` is not part of this model; these are the fields
      the renderer reads). */
  datatype Player = Player(x: real, y: real, a: real, fov: real)

  /** An enemy billboard: its position and the key of its texture. */
  datatype Enemy = Enemy(x: real, y: real, textureKey: char)

  /** The scale that turns "screen size over distance" into pixels, shared by
      the wall strips and the sprites (`* 70.0`). */
  const PROJECTION: real := 70.0

  /** The floating-point library calls the renderer makes, as uninterpreted
      functions over the reals: `f32::cos`, `f32::atan2` (called as
      `dy.atan2(dx)`) and `f32::sqrt`. */
  datatype Maths = Maths(cos: real -> real, atan2: (real, real) -> real, sqrt: real -> real)
}
