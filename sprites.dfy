/**
 * Enemy billboards: `draw_sprite` and `render_enemies` (src/main.rs:124-189).
 *
 * A sprite is culled unless its direction lies within the field of view and
 * its distance within [NEAR, FAR]. Otherwise its angular offset is mapped
 * linearly onto a screen column, a square box of side `sprite_size` is placed
 * there (clipped to the screen) and every box pixel whose texel is not
 * TRANSPARENT_COLOR is painted. There is no depth buffer: sprites drawn later
 * cover earlier ones and the walls.
 */
module Sprites {
  import opened Numeric
  import opened Angles
  import opened Screen
  import opened World

  datatype Option<T> = None | Some(value: T)

  /** Sprites nearer than this are not drawn. */
  const NEAR: real := 50.0

  /** Sprites farther than this are not drawn. */
  const FAR: real := 1000.0

  /** Where a sprite lands: the pixel box `[startX, endX) x [startY, endY)` and
      the side `size` of the unclipped square the texture is stretched over. */
  datatype SpriteBox = SpriteBox(startX: nat, startY: nat, endX: nat, endY: nat, size: nat)

  /** The box lies inside its unclipped square. */
  predicate WithinSquare(b: SpriteBox)
  {
    b.endX <= b.startX + b.size && b.endY <= b.startY + b.size
  }

  /** The box lies inside its square and on a `width` x `height` screen. */
  predicate BoxFits(b: SpriteBox, width: nat, height: nat)
  {
    WithinSquare(b) && b.endX <= width && b.endY <= height
  }

  predicate InBox(b: SpriteBox, x: nat, y: nat)
  {
    b.startX <= x < b.endX && b.startY <= y < b.endY
  }

  /** The direction of the enemy relative to where the player faces, brought
      into [-PI, PI]. */
  function SpriteAngleDiff(p: Player, e: Enemy, m: Maths): real
  {
    Normalized(m.atan2(e.y - p.y, e.x - p.x) - p.a)
  }

  /** The straight-line distance from player to enemy. */
  function SpriteDistance(p: Player, e: Enemy, m: Maths): real
  {
    m.sqrt((p.x - e.x) * (p.x - e.x) + (p.y - e.y) * (p.y - e.y))
  }

  /** The field-of-view test: culled when `|angleDiff| > fov / 2`. */
  predicate InFieldOfView(angleDiff: real, fov: real)
  {
    !(Abs(angleDiff) > fov / 2.0)
  }

  /** The depth test: culled when `d < NEAR || d > FAR`. */
  predicate InDepthRange(d: real)
  {
    !(d < NEAR || d > FAR)
  }

  /** The screen column of the sprite's centre: linear in the angle. */
  function ScreenX(angleDiff: real, fov: real, width: nat): real
    requires fov != 0.0
  {
    ((angleDiff / fov) + 0.5) * width as real
  }

  /** The side of the sprite's square on screen. */
  function SpriteSize(height: nat, d: real): real
    requires d != 0.0
  {
    (height as real / d) * PROJECTION
  }

  /** The box of a sprite at angular offset `angleDiff` and distance `d`. */
  function BoxFor(angleDiff: real, d: real, fov: real, width: nat, height: nat): (b: SpriteBox)
    requires fov != 0.0 && d != 0.0
    ensures BoxFits(b, width, height)
  {
    var size := SpriteSize(height, d);
    var startX := AsUsize(MaxReal(ScreenX(angleDiff, fov, width) - size / 2.0, 0.0));
    var startY := AsUsize(MaxReal(height as real / 2.0 - size / 2.0, 0.0));
    var sizeU := AsUsize(size);
    SpriteBox(startX, startY, MinNat(startX + sizeU, width), MinNat(startY + sizeU, height), sizeU)
  }

  /** Where an enemy is drawn, or None when it is culled. */
  function Placement(p: Player, e: Enemy, m: Maths, width: nat, height: nat): (r: Option<SpriteBox>)
    requires p.fov > 0.0
    ensures r.Some? ==> BoxFits(r.value, width, height)
  {
    var angleDiff := SpriteAngleDiff(p, e, m);
    if !InFieldOfView(angleDiff, p.fov) then None
    else
      var d := SpriteDistance(p, e, m);
      if !InDepthRange(d) then None
      else Some(BoxFor(angleDiff, d, p.fov, width, height))
  }

  /** An enemy is drawn exactly when its direction is within half the field
      of view and its distance within [NEAR, FAR], both ends included. */
  lemma DrawnIffInView(p: Player, e: Enemy, m: Maths, width: nat, height: nat)
    requires p.fov > 0.0
    ensures Placement(p, e, m, width, height).Some? <==>
              -p.fov / 2.0 <= SpriteAngleDiff(p, e, m) <= p.fov / 2.0 &&
              NEAR <= SpriteDistance(p, e, m) <= FAR
  {
  }

  /** The sprite's centre column lies on the screen, and a sprite dead ahead
      is centred. */
  lemma ScreenXOnScreen(angleDiff: real, fov: real, width: nat)
    requires fov > 0.0
    requires InFieldOfView(angleDiff, fov)
    ensures 0.0 <= ScreenX(angleDiff, fov, width) <= width as real
    ensures angleDiff == 0.0 ==> ScreenX(angleDiff, fov, width) == width as real / 2.0
  {
    var q := angleDiff / fov;
    assert q * fov == angleDiff;
    assert -fov / 2.0 <= angleDiff <= fov / 2.0;
    FactorNonneg(0.5 - q, fov);
    FactorNonneg(q + 0.5, fov);
    var t, w := q + 0.5, width as real;
    ProductNonneg(t, w);
    ProductNonneg(1.0 - t, w);
  }

  /** A box that starts at or beyond the right edge is empty. */
  lemma OffScreenDrawsNothing(b: SpriteBox, width: nat, height: nat, x: nat, y: nat)
    requires BoxFits(b, width, height)
    requires b.startX >= width
    ensures !InBox(b, x, y)
  {
  }

  /** The texture coordinate of the pixel `offset` pixels into a square of
      side `size`; `size` is not zero because the offset lies below it. */
  function TexCoord(offset: nat, size: nat): (t: nat)
    requires offset < size
    ensures t < TEXTURE_SIZE
    ensures offset == 0 ==> t == 0
  {
    assert offset * TEXTURE_SIZE < size * TEXTURE_SIZE;
    offset * TEXTURE_SIZE / size
  }

  /** The texel drawn at a box pixel. */
  function SpriteTexel(b: SpriteBox, key: char, tex: Textures, x: nat, y: nat): Color
    requires WithinSquare(b)
    requires InBox(b, x, y)
  {
    tex(key, TexCoord(x - b.startX, b.size), TexCoord(y - b.startY, b.size))
  }

  /** The reference picture of one sprite pass: a box pixel with a visible
      texel takes it; every other pixel keeps `under`. */
  function BoxPixel(b: SpriteBox, key: char, tex: Textures, x: nat, y: nat, under: Color): Color
    requires WithinSquare(b)
  {
    if InBox(b, x, y) && SpriteTexel(b, key, tex, x, y) != TRANSPARENT_COLOR then SpriteTexel(b, key, tex, x, y) else under
  }

  /** The picture after `draw_sprite`, culled or not. */
  function SpritePixel(placed: Option<SpriteBox>, key: char, tex: Textures, x: nat, y: nat, under: Color): (c: Color)
    requires placed.Some? ==> WithinSquare(placed.value)
  {
    match placed
    case None => under
    case Some(b) => BoxPixel(b, key, tex, x, y, under)
  }

  /** A sprite pass changes a pixel only inside the box, never to the
      transparent colour, and only to the texel of that pixel. */
  lemma SpritePixelChanges(placed: Option<SpriteBox>, key: char, tex: Textures, x: nat, y: nat, under: Color)
    requires placed.Some? ==> WithinSquare(placed.value)
    ensures SpritePixel(placed, key, tex, x, y, under) != under ==>
              placed.Some? && InBox(placed.value, x, y) &&
              SpritePixel(placed, key, tex, x, y, under) == SpriteTexel(placed.value, key, tex, x, y) &&
              SpritePixel(placed, key, tex, x, y, under) != TRANSPARENT_COLOR
    ensures placed.Some? && InBox(placed.value, x, y) && SpriteTexel(placed.value, key, tex, x, y) == TRANSPARENT_COLOR ==>
              SpritePixel(placed, key, tex, x, y, under) == under
  {
  }

  /** The current colour after box column `x` has been scanned from `startY`
      up to row `yEnd`, starting from `c`: the last visible texel, else `c`. */
  function ColumnColor(b: SpriteBox, key: char, tex: Textures, x: nat, yEnd: nat, c: Color): Color
    requires WithinSquare(b)
    requires b.startX <= x < b.endX
    requires yEnd <= b.endY || yEnd <= b.startY
    decreases yEnd
  {
    if yEnd <= b.startY then c
    else
      var t := SpriteTexel(b, key, tex, x, yEnd - 1);
      if t != TRANSPARENT_COLOR then t else ColumnColor(b, key, tex, x, yEnd - 1, c)
  }

  /** The current colour after the box columns before `xEnd` have been
      scanned, starting from `c`. */
  function BoxColor(b: SpriteBox, key: char, tex: Textures, xEnd: nat, c: Color): Color
    requires WithinSquare(b)
    requires xEnd <= b.endX || xEnd <= b.startX
    decreases xEnd
  {
    if xEnd <= b.startX then c
    else ColumnColor(b, key, tex, xEnd - 1, b.endY, BoxColor(b, key, tex, xEnd - 1, c))
  }

  /** The current colour after `draw_sprite`. */
  function SpriteColor(placed: Option<SpriteBox>, key: char, tex: Textures, c: Color): Color
    requires placed.Some? ==> WithinSquare(placed.value)
  {
    match placed
    case None => c
    case Some(b) => BoxColor(b, key, tex, b.endX, c)
  }

  /** The inner loop of `draw_sprite`: scans column `x` of the box top to
      bottom and paints each visible texel. */
  method BlitColumn(fb: Framebuffer, b: SpriteBox, key: char, tex: Textures, x: nat)
    requires fb.Valid()
    requires BoxFits(b, fb.width, fb.height)
    requires b.startX <= x < b.endX
    modifies fb, fb.pixels
    ensures forall i, j :: 0 <= i < fb.width && 0 <= j < fb.height ==>
              fb.pixels[i, j] == if i == x then BoxPixel(b, key, tex, i, j, old(fb.pixels[i, j])) else old(fb.pixels[i, j])
    ensures fb.currentColor == ColumnColor(b, key, tex, x, b.endY, old(fb.currentColor))
  {
    var y := b.startY;
    while y < b.endY
      invariant b.startY <= y && (y <= b.endY || y == b.startY)
      invariant forall i, j :: 0 <= i < fb.width && 0 <= j < fb.height ==>
                  fb.pixels[i, j] == if i == x && j < y then BoxPixel(b, key, tex, i, j, old(fb.pixels[i, j])) else old(fb.pixels[i, j])
      invariant fb.currentColor == ColumnColor(b, key, tex, x, y, old(fb.currentColor))
    {
      var tx := TexCoord(x - b.startX, b.size);
      var ty := TexCoord(y - b.startY, b.size);
      var color := tex(key, tx, ty);
      if color != TRANSPARENT_COLOR {
        fb.SetCurrentColor(color);
        fb.SetPixel(x, y);
      }
      y := y + 1;
    }
  }

  /** The nested loop of `draw_sprite`: scans the box column by column. */
  method Blit(fb: Framebuffer, b: SpriteBox, key: char, tex: Textures)
    requires fb.Valid()
    requires BoxFits(b, fb.width, fb.height)
    modifies fb, fb.pixels
    ensures forall i, j :: 0 <= i < fb.width && 0 <= j < fb.height ==>
              fb.pixels[i, j] == BoxPixel(b, key, tex, i, j, old(fb.pixels[i, j]))
    ensures fb.currentColor == BoxColor(b, key, tex, b.endX, old(fb.currentColor))
  {
    var x := b.startX;
    while x < b.endX
      invariant b.startX <= x && (x <= b.endX || x == b.startX)
      invariant forall i, j :: 0 <= i < fb.width && 0 <= j < fb.height ==>
                  fb.pixels[i, j] == if i < x then BoxPixel(b, key, tex, i, j, old(fb.pixels[i, j])) else old(fb.pixels[i, j])
      invariant fb.currentColor == BoxColor(b, key, tex, x, old(fb.currentColor))
    {
      BlitColumn(fb, b, key, tex, x);
      x := x + 1;
    }
  }

  /** `draw_sprite`: normalises the enemy's angular offset, applies the two
      culls, places the box and blits the texture. */
  method DrawSprite(fb: Framebuffer, p: Player, e: Enemy, m: Maths, tex: Textures)
    requires fb.Valid()
    requires p.fov > 0.0
    modifies fb, fb.pixels
    ensures forall x, y :: 0 <= x < fb.width && 0 <= y < fb.height ==>
              fb.pixels[x, y] == SpritePixel(Placement(p, e, m, fb.width, fb.height), e.textureKey, tex, x, y, old(fb.pixels[x, y]))
    ensures fb.currentColor == SpriteColor(Placement(p, e, m, fb.width, fb.height), e.textureKey, tex, old(fb.currentColor))
  {
    var spriteA := m.atan2(e.y - p.y, e.x - p.x);
    var angleDiff := NormalizeAngle(spriteA - p.a);
    if Abs(angleDiff) > p.fov / 2.0 {
      return;
    }
    var d := SpriteDistance(p, e, m);
    if d < NEAR || d > FAR {
      return;
    }
    var b := BoxFor(angleDiff, d, p.fov, fb.width, fb.height);
    Blit(fb, b, e.textureKey, tex);
  }

  /** The enemies `render_enemies` creates, in drawing order. */
  const ENEMIES: seq<Enemy> := [Enemy(250.0, 250.0, 'b'), Enemy(350.0, 300.0, 'f'), Enemy(350.0, 350.0, 'c')]

  /** Enemy `e`'s sprite paints pixel (x, y): the pixel is in its box and its
      texel there is visible. */
  predicate Covers(p: Player, e: Enemy, m: Maths, tex: Textures, width: nat, height: nat, x: nat, y: nat)
    requires p.fov > 0.0
  {
    var placed := Placement(p, e, m, width, height);
    placed.Some? && InBox(placed.value, x, y) && SpriteTexel(placed.value, e.textureKey, tex, x, y) != TRANSPARENT_COLOR
  }

  /** Pixel (x, y) after the sprites of `es` are drawn in order over `base`. */
  function Layered(p: Player, es: seq<Enemy>, m: Maths, tex: Textures, width: nat, height: nat, x: nat, y: nat, base: Color): Color
    requires p.fov > 0.0
    decreases |es|
  {
    if es == [] then base
    else
      var last := es[|es| - 1];
      SpritePixel(Placement(p, last, m, width, height), last.textureKey, tex, x, y,
                  Layered(p, es[..|es| - 1], m, tex, width, height, x, y, base))
  }

  /** The current colour after the sprites of `es` are drawn in order,
      starting from `c`. */
  function LayeredColor(p: Player, es: seq<Enemy>, m: Maths, tex: Textures, width: nat, height: nat, c: Color): Color
    requires p.fov > 0.0
    decreases |es|
  {
    if es == [] then c
    else
      var last := es[|es| - 1];
      SpriteColor(Placement(p, last, m, width, height), last.textureKey, tex,
                  LayeredColor(p, es[..|es| - 1], m, tex, width, height, c))
  }

  /** Without a depth test the sprite drawn last wins: when enemy `k` paints
      (x, y) and none drawn after it does, the pixel shows enemy `k`'s texel,
      whatever was drawn before and however near or far the enemies are. */
  lemma {:induction false} LastCoveringSpriteWins(p: Player, es: seq<Enemy>, m: Maths, tex: Textures,
                                                  width: nat, height: nat, x: nat, y: nat, base: Color, k: nat)
    requires p.fov > 0.0
    requires k < |es|
    requires Covers(p, es[k], m, tex, width, height, x, y)
    requires forall i :: k < i < |es| ==> !Covers(p, es[i], m, tex, width, height, x, y)
    ensures Layered(p, es, m, tex, width, height, x, y, base) ==
              SpriteTexel(Placement(p, es[k], m, width, height).value, es[k].textureKey, tex, x, y)
    decreases |es|
  {
    var init := es[..|es| - 1];
    if k < |es| - 1 {
      assert !Covers(p, es[|es| - 1], m, tex, width, height, x, y);
      assert forall i :: k < i < |init| ==> init[i] == es[i];
      LastCoveringSpriteWins(p, init, m, tex, width, height, x, y, base, k);
    }
  }

  /** A pixel no enemy paints keeps its colour. */
  lemma {:induction false} UncoveredPixelKept(p: Player, es: seq<Enemy>, m: Maths, tex: Textures,
                                              width: nat, height: nat, x: nat, y: nat, base: Color)
    requires p.fov > 0.0
    requires forall i :: 0 <= i < |es| ==> !Covers(p, es[i], m, tex, width, height, x, y)
    ensures Layered(p, es, m, tex, width, height, x, y, base) == base
    decreases |es|
  {
    if es != [] {
      var init := es[..|es| - 1];
      assert !Covers(p, es[|es| - 1], m, tex, width, height, x, y);
      assert forall i :: 0 <= i < |init| ==> init[i] == es[i];
      UncoveredPixelKept(p, init, m, tex, width, height, x, y, base);
    }
  }

  /** `render_enemies`: draws the fixed enemies in order. */
  method RenderEnemies(fb: Framebuffer, p: Player, m: Maths, tex: Textures)
    requires fb.Valid()
    requires p.fov > 0.0
    modifies fb, fb.pixels
    ensures forall x, y :: 0 <= x < fb.width && 0 <= y < fb.height ==>
              fb.pixels[x, y] == Layered(p, ENEMIES, m, tex, fb.width, fb.height, x, y, old(fb.pixels[x, y]))
    ensures fb.currentColor == LayeredColor(p, ENEMIES, m, tex, fb.width, fb.height, old(fb.currentColor))
  {
    var enemies := ENEMIES;
    var k := 0;
    while k < |enemies|
      invariant 0 <= k <= |enemies|
      invariant forall x, y :: 0 <= x < fb.width && 0 <= y < fb.height ==>
                  fb.pixels[x, y] == Layered(p, enemies[..k], m, tex, fb.width, fb.height, x, y, old(fb.pixels[x, y]))
      invariant fb.currentColor == LayeredColor(p, enemies[..k], m, tex, fb.width, fb.height, old(fb.currentColor))
    {
      DrawSprite(fb, p, enemies[k], m, tex);
      assert enemies[..k + 1][..k] == enemies[..k];
      k := k + 1;
    }
    assert enemies[..|enemies|] == ENEMIES;
  }
}
