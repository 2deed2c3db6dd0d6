# Raycaster renderer core in Dafny

This project models the drawing core of a small Rust raycaster (a
Wolfenstein-style first-person view with enemy billboards). All of it
lives in `src/main.rs`. Three drawing passes write into a framebuffer
through its "current colour" write path: `set_current_color`, then
`set_pixel`.

- **Overhead view** (`draw_cell`, `render_maze`). Every non-blank maze cell
  (row r, column c) becomes a RED `block_size` square at pixel
  `(c*bs, r*bs)`.
- **Wall view** (`render_3d`).
  - Each screen column `i` casts one ray at `a - fov/2 + fov*i/n`.
  - The ray's distance is corrected for fish-eye (times the cosine of the
    angular offset).
  - The corrected distance gives a strip `[stake_top, stake_bottom)`
    centred on the middle row. The strip is filled with the texel of the
    wall that was hit, at row `ty = (y - top)/(bottom - top)*128`.
- **Sprites** (`draw_sprite`, `render_enemies`).
  - The enemy's direction relative to the viewer is wrapped into
    [-PI, PI] by two `while` loops.
  - The sprite is culled outside half the field of view or outside the
    distance range [50, 1000].
  - Otherwise a square box is placed at the screen column
    `(angle_diff/fov + 0.5)*width` and clipped to the screen. Every box
    pixel whose texel is not the transparent sentinel is painted.
  - The three fixed enemies are drawn in order, with no depth test.

Modules:

- `Numeric` (numeric.dfy): Rust's float-to-index casts and `abs`/`max`/`min`.
- `Angles` (angles.dfy): the angle normalisation loops.
- `Screen` (screen.dfy): colours, the texture lookup and the `Framebuffer`
  class.
  - The class has `const` `width`, `height` and `pixels: array2<Color>`
    indexed `[x, y]`, and a mutable `currentColor`.
  - `SetCurrentColor` and `SetPixel` are its write path.
- `World` (world.dfy): player, enemy, the projection constant 70 and the
  maths library.
- `Overhead` (overhead.dfy): `draw_cell` and `render_maze`.
- `Walls` (walls.dfy): `render_3d`.
- `Sprites` (sprites.dfy): `draw_sprite` and `render_enemies`.

Every modelled loop of the source is a `while` loop here, proved against a reference
function of the inputs:

- `WallPixel` for the wall view.
- `BoxPixel`, `SpritePixel` and `Layered` for sprites.
- `WallAt` for the overhead view.

Each drawing method's postcondition gives every pixel of the framebuffer
and the final current colour.

External computations are parameters:

- `cast_ray`, for the fixed maze, block size and player, is a function
  from ray angle to `(distance, impact, tx)`.
- The texture manager's `get_pixel_color` is a function
  `(key, tx, ty) -> Color`.
- `cos`, `atan2` and `sqrt` are uninterpreted functions over the reals in
  `World.Maths`.

Floating-point values are reals. `PI` is the `f32` constant 3.1415927.

The float-to-integer casts `as usize` / `as u32` follow Rust's defined
cast semantics:

- a negative value saturates to 0;
- a non-negative value truncates toward zero.

This applies in `render_3d`'s `stake_top` as well, where the code does not
clamp with `.max(0.0)` itself.

## Model

| member | source | states |
|---|---|---|
| Numeric.AsUsize | src/main.rs:110-111 | float-to-index cast: 0 for a non-positive value, otherwise the whole number n with n <= r < n + 1 |
| Numeric.AsUsizeMonotone | src/main.rs:110-111 | a larger float never casts to a smaller index (so `stake_top <= stake_bottom`) |
| Numeric.Abs | src/main.rs:139 | `abs` is non-negative and equals r or -r |
| Numeric.MaxReal | src/main.rs:155-156 | `.max(0.0)` is at least both arguments and is one of them |
| Numeric.MinNat | src/main.rs:158-159 | `.min(width)` is at most both arguments and is one of them |
| Angles.WrapDownTurns | src/main.rs:132-134 | the first loop removes a whole number k of turns, ends at or below PI, does nothing when the angle is already at or below PI, and ends above -PI when it ran |
| Angles.WrapUpTurns | src/main.rs:135-137 | the second loop adds a whole number of turns, ends at or above -PI, does nothing when the angle is already at or above -PI, and never pushes an angle at or below PI above PI |
| Angles.NormalizedInRange | src/main.rs:131-137 | after both loops the angle lies in [-PI, PI] and differs from the input by an integer multiple of 2*PI |
| Angles.NormalizedFixesRange | src/main.rs:131-137 | an angle already in [-PI, PI] is not changed |
| Angles.NormalizedUnique | src/main.rs:131-137 | the result is the one angle strictly inside (-PI, PI) congruent to the input modulo 2*PI, whenever such an angle exists |
| Angles.NormalizeAngle | src/main.rs:131-137 | the two `while` loops terminate, and the result is the normalised angle, in [-PI, PI] |
| Screen.Framebuffer.constructor | src/main.rs:202 | `Framebuffer::new(width, height, background)` gives a valid framebuffer of that size with every pixel the background colour; `framebuffer.rs` is not part of this model, so that initial fill is taken from the role of the `background` argument |
| Screen.Framebuffer.SetCurrentColor | src/main.rs:118 | the current colour becomes the given colour |
| Screen.Framebuffer.SetPixel | src/main.rs:119 | pixel (x, y) takes the current colour and every other pixel is unchanged |
| Overhead.DrawCell | src/main.rs:28-46 | a blank cell writes nothing and keeps the current colour; any other cell makes exactly the bs x bs square at (xo, yo) RED and selects RED |
| Overhead.DivBlock | src/main.rs:56-57 | coordinate v lies in block k (k*bs <= v < k*bs + bs) exactly when v / bs == k |
| Overhead.CellSquare | src/main.rs:56-59 | the square drawn for cell (r, c) at (c*bs, r*bs) is exactly the set of pixels whose block coordinates are (c, r) |
| Overhead.PaintStep | src/main.rs:54-60 | drawing cell (r, c) adds exactly that cell's square (when the cell is a wall) to the region painted so far, and the square fits on the screen |
| Overhead.RowStep | src/main.rs:54-55 | finishing row r is the same painted region as starting row r + 1 |
| Overhead.RenderMaze | src/main.rs:48-61 | afterwards every pixel of a non-blank cell's block is RED and every other pixel keeps its colour; the current colour is RED if some cell is a wall, and otherwise the colour selected before the call |
| Walls.RayOffsetInView | src/main.rs:97-100 | ray i of n is offset `fov*i/n - fov/2` from the facing angle, which lies in [-fov/2, fov/2); ray 0 is the left edge of the view |
| Walls.StripStraddlesMiddle | src/main.rs:108-111 | for a wall in front of the viewer the strip has top <= bottom and the middle hh satisfies top <= hh < bottom + 1 (the strip need not contain row hh itself: a strip one row tall can end just above it) |
| Walls.FartherStakeIsShorter | src/main.rs:108 | a larger positive corrected distance gives an `hh / d`, and so a `stake_height`, no larger than a nearer wall's (equal when hh is 0 or the distances are equal) |
| Walls.FartherWallIsShorter | src/main.rs:107-111 | the strip of a farther wall nests inside the strip of a nearer wall |
| Walls.StripExample | src/main.rs:108-111 | on a 900-row screen a corrected distance of 100 gives stake height 315 and the strip rows [292, 607) |
| Walls.TexRow | src/main.rs:115-116 | the texture row `ty` lies in [0, 128) for every row of the strip and is 0 at the strip's top row |
| Walls.ColumnAt | src/main.rs:97-111 | column i's hit and strip come from its own ray: the hit of the ray at `RayAngle(i)` and `StripFor` of its corrected distance; its ensures (the strip ends on the screen) only repeats its precondition `ColumnDrawable` for the verifier's benefit |
| Walls.ColumnsFromEntries | src/main.rs:96 | a list whose entry k is column k, for every k, is the list of the first columns in order |
| Walls.ColorAfterIsLastStrip | src/main.rs:113-120 | columns with empty strips leave the current colour alone; otherwise the colour left behind is the texel of the last row of the last non-empty strip |
| Walls.FillStrip | src/main.rs:113-120 | rows [top, bottom) of column x take the wall texel of their texture row; no other pixel changes; the current colour is the last texel drawn, or unchanged for an empty strip |
| Walls.DrawColumn | src/main.rs:96-121 | column x is drawn from its own ray's corrected distance; only pixel column x changes |
| Walls.Render3D | src/main.rs:84-122 | every pixel becomes `WallPixel`: the texel of its column's strip inside the strip, unchanged outside it; the current colour is WHITESMOKE followed by each column's last texel, in order |
| Sprites.BoxFor | src/main.rs:149-159 | the clipped box lies inside its unclipped square and ends on the screen (end_x <= width, end_y <= height) |
| Sprites.Placement | src/main.rs:130-159 | a sprite that is not culled has a box that fits the screen |
| Sprites.DrawnIffInView | src/main.rs:139-147 | a sprite is drawn if and only if -fov/2 <= angle_diff <= fov/2 and 50 <= distance <= 1000, with the boundary values kept |
| Sprites.ScreenXOnScreen | src/main.rs:153 | a sprite inside the field of view has `screen_x` in [0, width]; a sprite dead ahead has `screen_x = width/2` |
| Sprites.OffScreenDrawsNothing | src/main.rs:155-161 | a box starting at or beyond the right edge covers no pixel |
| Sprites.TexCoord | src/main.rs:163-164 | inside the box the divisor is positive and the texture index lies in [0, 128); the box's first row and column use texel 0 |
| Sprites.SpritePixelChanges | src/main.rs:161-173 | a sprite pass changes a pixel only inside the box, only to that pixel's texel, and never to the transparent colour; a transparent texel leaves the pixel as it was |
| Sprites.BlitColumn | src/main.rs:162-172 | box column x gets its visible texels; no other pixel changes; the current colour is the last visible texel of the column, or unchanged |
| Sprites.Blit | src/main.rs:161-173 | every pixel becomes `BoxPixel`; the current colour is the last visible texel in scan order, or unchanged |
| Sprites.DrawSprite | src/main.rs:124-174 | every pixel becomes `SpritePixel` of the sprite's placement: unchanged when the sprite is culled, else the box's visible texels over the old picture; the current colour follows |
| Sprites.LastCoveringSpriteWins | src/main.rs:181-188 | on overlapping pixels the enemy drawn last that paints the pixel wins, whatever its distance |
| Sprites.UncoveredPixelKept | src/main.rs:181-188 | a pixel that no enemy paints keeps its colour |
| Sprites.RenderEnemies | src/main.rs:176-189 | the three enemies are drawn in the order 'b', 'f', 'c': every pixel is `Layered` over the old picture, and the current colour follows the same order |

## Source formulas

The definitions below render single source expressions. They carry no
contract of their own. The lemmas in the table above state their
properties.

- `Walls.RayAngle`: `ray_angle`, src/main.rs:97-99.
- `Walls.CorrectedDistance`: `corrected_distance`, src/main.rs:107.
- `Walls.StakeHeight`: `stake_height`, src/main.rs:108.
- `Walls.StripFor`: `half_stake_height`, `stake_top` and `stake_bottom`, src/main.rs:109-111.
- `Walls.WallTexel`: the texel lookup `get_pixel_color(impact, tx as u32, ty as u32)`, src/main.rs:114-116.
- `Sprites.SpriteAngleDiff`: `sprite_a - player.a` after both wrapping loops, src/main.rs:130-137.
- `Sprites.SpriteDistance`: `sprite_d`, src/main.rs:143.
- `Sprites.SpriteSize`: `sprite_size`, src/main.rs:152.
- `Sprites.ScreenX`: `screen_x`, src/main.rs:153.

## Left out

- The internals of `cast_ray` are not modelled: `caster.rs` is not part of this model. The ray caster is a parameter mapping the ray angle to `(distance, impact, tx)`. The fixed maze, block size and player are folded into it. Its debug-drawing mode is not modelled.
- Walls.Render3D, Walls.DrawColumn: `render_3d` passes the framebuffer to `cast_ray` mutably (src/main.rs:102). The model takes `cast_ray` with its drawing flag false to be free of effects, so the pixel and current-colour postconditions hold only if that call changes neither the pixels nor the current colour.
- `cos`, `atan2` and `sqrt` are uninterpreted functions. Nothing is assumed about their values.
- All `f32` rounding is left out, and so are NaN and infinity. The upper saturation of float-to-index casts is also left out: values past `usize::MAX` for the `as usize` casts (src/main.rs:110-111, 155-157), and past `u32::MAX` for the `as u32` casts (src/main.rs:116).
- Angles.NormalizeAngle: the loops terminate over the reals. In `f32` the first loop (src/main.rs:132-134) never ends when angle_diff > 2^27, and the second (src/main.rs:135-137) never ends when angle_diff < -2^27, because a step of 2*PI rounds back to the same value. Either loop also never ends for an infinite angle. The model does not capture these cases.
- The texture manager (`textures.rs`) is not part of this model. It is a parameter `(key, tx, ty) -> Color`, and texture loading is not modelled.
- `framebuffer.rs` is not part of this model. What `set_pixel` does with off-screen coordinates is unknown, so `Screen.Framebuffer.SetPixel` requires an on-screen pixel. Callers meet that requirement as follows:
  - `draw_sprite` clips its box, so it needs nothing more.
  - `draw_cell` and `render_maze` need every wall cell's square on the screen: `Overhead.FitsOnScreen`.
  - `render_3d` does not clip `stake_bottom`: see the `Walls.Render3D` line below.
  - `clear`, `set_background_color` and the present/swap step are not modelled.
  - The current colour a new framebuffer starts with is not known. `Screen.Framebuffer.constructor` promises nothing about it.
- Walls.Render3D requires every column's corrected distance to be non-zero. With zero, `f32` division gives an infinite stake height. It also requires every strip to end on the screen (`stake_bottom <= height`). The source does neither check, and its off-screen writes go to the unmodelled `set_pixel`. The code has no minimum-distance clamp, and the model has none either.
- Sprites.DrawSprite, Sprites.Placement and Sprites.RenderEnemies require `fov > 0`. The model does not cover `fov = 0`. In that case only a sprite exactly dead ahead passes the cull (src/main.rs:139). Its `screen_x` is then NaN (src/main.rs:153). `f32::max` returns the argument that is not NaN, so `start_x` becomes 0 (src/main.rs:155) and the box is drawn from column 0. A negative field of view culls every sprite.
- In `render_maze`, the yellow player marker (src/main.rs:63-73) and the five-ray debug fan (src/main.rs:75-81) are not modelled. The fan only calls the ray caster with its drawing flag set, and `caster.rs` is not part of this model.
- The window, texture loading, `load_maze`, `process_events`, the frame loop, the frame pacing `sleep` and the mode toggle in `main` (src/main.rs:191-235) are not modelled. They are I/O and event handling.
- The code does not clip the wall strip to the screen; the model follows the code.
- `Walls.StripExample` states the truncated result of the two casts, rows [292, 607).
