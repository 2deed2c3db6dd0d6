/**
 * The 3D wall view: `render_3d` (src/main.rs:84-122). One ray per screen
 * column; the ray's distance, corrected for fish-eye, gives the height of a
 * vertical strip centred on the middle row, and each pixel of the strip takes
 * the texel of the wall that was hit.
 *
 * The ray caster (`caster.rs`) is not part of this model: it is a parameter
 * mapping a ray angle to what the ray hit.
 */
module Walls {
  import opened Numeric
  import opened Screen
  import opened World

  /** What `cast_ray` reports: the straight-line distance to the wall, the
      wall's cell character (its texture key) and the texture column. */
  datatype RayHit = RayHit(distance: real, impact: char, tx: real)

  /** Everything `render_3d` reads besides the framebuffer: the viewer, the
      maths library, the ray caster (for the fixed maze and block size, a
      function of the ray angle) and the texture manager. */
  datatype Scene = Scene(player: Player, maths: Maths, castRay: real -> RayHit, textures: Textures)

  /** A vertical span of rows `[top, bottom)`. */
  datatype Strip = Strip(top: nat, bottom: nat)

  /** The angle of ray `i` of `n`: the left edge of the view plus the fraction
      `i / n` of the field of view. */
  function RayAngle(p: Player, i: nat, n: nat): real
    requires i < n
  {
    p.a - p.fov / 2.0 + p.fov * (i as real / n as real)
  }

  /** The rays sweep the field of view from its left edge (ray 0) up to, but
      not including, its right edge. */
  lemma RayOffsetInView(p: Player, i: nat, n: nat)
    requires i < n
    requires 0.0 < p.fov
    ensures RayAngle(p, i, n) - p.a == p.fov * (i as real) / (n as real) - p.fov / 2.0
    ensures -p.fov / 2.0 <= RayAngle(p, i, n) - p.a < p.fov / 2.0
    ensures i == 0 ==> RayAngle(p, i, n) == p.a - p.fov / 2.0
  {
    var q := i as real / n as real;
    assert 0.0 <= q < 1.0;
    assert p.fov * q < p.fov * 1.0;
    assert p.fov * (i as real) / (n as real) == p.fov * q;
  }

  /** Fish-eye correction: the distance along the ray times the cosine of the
      ray's offset from the facing direction. */
  function CorrectedDistance(m: Maths, hit: RayHit, angleDiff: real): real
  {
    hit.distance * m.cos(angleDiff)
  }

  /** Height on screen of a wall at corrected distance `d`, with `hh` half the
      screen height. */
  function StakeHeight(hh: real, d: real): real
    requires d != 0.0
  {
    (hh / d) * PROJECTION
  }

  /** The rows the strip covers: centred on `hh`, `StakeHeight` tall, each end
      cast to an index. */
  function StripFor(hh: real, d: real): Strip
    requires d != 0.0
  {
    var half := StakeHeight(hh, d) / 2.0;
    Strip(AsUsize(hh - half), AsUsize(hh + half))
  }

  /** For a wall in front of the viewer the strip straddles the middle row. */
  lemma StripStraddlesMiddle(hh: real, d: real)
    requires 0.0 <= hh && 0.0 < d
    ensures StripFor(hh, d).top <= StripFor(hh, d).bottom
    ensures StripFor(hh, d).top as real <= hh < StripFor(hh, d).bottom as real + 1.0
  {
    var half := StakeHeight(hh, d) / 2.0;
    assert 0.0 <= hh / d;
    assert 0.0 <= half;
    AsUsizeMonotone(hh - half, hh + half);
    AsUsizeMonotone(hh - half, hh);
    AsUsizeMonotone(hh, hh + half);
  }

  /** The stake gets shorter as the wall recedes. */
  lemma FartherStakeIsShorter(hh: real, near: real, far: real)
    requires 0.0 <= hh && 0.0 < near <= far
    ensures hh / far <= hh / near
    ensures StakeHeight(hh, far) <= StakeHeight(hh, near)
  {
    var a, b := hh / near, hh / far;
    assert a * near == hh == b * far;
    assert 0.0 <= a;
  }

  /** A farther wall gives a strip nested inside a nearer wall's strip. */
  lemma FartherWallIsShorter(hh: real, near: real, far: real)
    requires 0.0 <= hh && 0.0 < near <= far
    ensures StripFor(hh, near).top <= StripFor(hh, far).top
    ensures StripFor(hh, far).bottom <= StripFor(hh, near).bottom
  {
    FartherStakeIsShorter(hh, near, far);
    AsUsizeMonotone(hh - StakeHeight(hh, near) / 2.0, hh - StakeHeight(hh, far) / 2.0);
    AsUsizeMonotone(hh + StakeHeight(hh, far) / 2.0, hh + StakeHeight(hh, near) / 2.0);
  }

  /** On a 900-row screen a wall at corrected distance 100 gives a strip
      315 rows tall: rows 292 up to, not including, 607. */
  lemma StripExample()
    ensures StakeHeight(450.0, 100.0) == 315.0
    ensures StripFor(450.0, 100.0) == Strip(292, 607)
  {
    assert StakeHeight(450.0, 100.0) / 2.0 == 157.5;
    assert AsUsize(292.5) == 292;
    assert AsUsize(607.5) == 607;
  }

  /** The texture row for screen row `y` of a strip: the fraction of the strip
      above `y`, scaled to the texture height. */
  function TexRow(y: nat, s: Strip): (ty: nat)
    requires s.top <= y < s.bottom
    ensures ty < TEXTURE_SIZE
    ensures y == s.top ==> ty == 0
  {
    var f := (y - s.top) as real / (s.bottom - s.top) as real;
    assert f < 1.0 by {
      assert f * (s.bottom - s.top) as real == (y - s.top) as real;
    }
    AsUsizeBelow(f * TEXTURE_SIZE as real, TEXTURE_SIZE);
    AsUsize(f * TEXTURE_SIZE as real)
  }

  /** The colour of row `y` of the strip drawn for `hit`. */
  function WallTexel(tex: Textures, hit: RayHit, s: Strip, y: nat): Color
    requires s.top <= y < s.bottom
  {
    tex(hit.impact, AsUsize(hit.tx), TexRow(y, s))
  }

  /** The corrected distance of column `i`'s ray, on a screen `n` columns wide. */
  function ColumnDistance(sc: Scene, n: nat, i: nat): real
    requires i < n
  {
    var angle := RayAngle(sc.player, i, n);
    CorrectedDistance(sc.maths, sc.castRay(angle), angle - sc.player.a)
  }

  /** What one column of the wall view is drawn from: the ray's hit and the
      rows of its strip. */
  datatype Column = Column(hit: RayHit, strip: Strip)

  /** Column `i` can be drawn: its corrected distance is not zero (the strip
      height is finite) and its strip ends on the screen. */
  predicate ColumnDrawable(sc: Scene, n: nat, height: nat, i: nat)
    requires i < n
  {
    ColumnDistance(sc, n, i) != 0.0 &&
    StripFor(height as real / 2.0, ColumnDistance(sc, n, i)).bottom <= height
  }

  /** Column `i` of an `n`-column screen `height` rows tall. */
  function ColumnAt(sc: Scene, n: nat, height: nat, i: nat): (c: Column)
    requires i < n
    requires ColumnDrawable(sc, n, height, i)
    ensures c.strip.bottom <= height
  {
    Column(sc.castRay(RayAngle(sc.player, i, n)), StripFor(height as real / 2.0, ColumnDistance(sc, n, i)))
  }

  /** Every column of an `n`-column screen can be drawn. */
  predicate AllColumnsDrawable(sc: Scene, n: nat, height: nat)
  {
    forall i :: 0 <= i < n ==> ColumnDrawable(sc, n, height, i)
  }

  /** Row `y` of column `c` once drawn over `under`: the wall's texel inside
      the strip, `under` outside it. */
  function ColumnPixel(tex: Textures, c: Column, y: nat, under: Color): Color
  {
    if c.strip.top <= y < c.strip.bottom then WallTexel(tex, c.hit, c.strip, y) else under
  }

  /** The current colour after column `c` has been drawn over current colour
      `cur`: the texel of the strip's last row, or `cur` if the strip is empty. */
  function AfterColumn(tex: Textures, c: Column, cur: Color): Color
  {
    if c.strip.top < c.strip.bottom then WallTexel(tex, c.hit, c.strip, c.strip.bottom - 1) else cur
  }

  /** The first `k` columns, left to right. */
  function Columns(sc: Scene, n: nat, height: nat, k: nat): (cs: seq<Column>)
    requires k <= n
    requires AllColumnsDrawable(sc, n, height)
    ensures |cs| == k
  {
    if k == 0 then [] else Columns(sc, n, height, k - 1) + [ColumnAt(sc, n, height, k - 1)]
  }

  /** A list whose every entry `k` is column `k` is the list of the first
      columns. */
  lemma {:induction false} ColumnsFromEntries(sc: Scene, n: nat, height: nat, cs: seq<Column>)
    requires |cs| <= n
    requires AllColumnsDrawable(sc, n, height)
    requires forall k :: 0 <= k < |cs| ==> cs[k] == ColumnAt(sc, n, height, k)
    ensures cs == Columns(sc, n, height, |cs|)
    decreases |cs|
  {
    if |cs| > 0 {
      ColumnsFromEntries(sc, n, height, cs[..|cs| - 1]);
      assert cs == cs[..|cs| - 1] + [cs[|cs| - 1]];
    }
  }

  /** The reference picture: pixel (x, y) after the wall pass. Only column
      `x`'s own ray decides it; rows outside its strip keep `under`. */
  function WallPixel(sc: Scene, n: nat, height: nat, x: nat, y: nat, under: Color): Color
    requires x < n
    requires ColumnDrawable(sc, n, height, x)
  {
    ColumnPixel(sc.textures, ColumnAt(sc, n, height, x), y, under)
  }

  /** The current colour after the columns `cs` have been drawn, one after the
      other, starting from current colour `start`. */
  function ColorAfter(tex: Textures, cs: seq<Column>, start: Color): Color
  {
    if |cs| == 0 then start else AfterColumn(tex, cs[|cs| - 1], ColorAfter(tex, cs[..|cs| - 1], start))
  }

  /** Columns with empty strips never change the current colour; otherwise
      the colour left behind is the texel of the last row of the last
      column whose strip is not empty. */
  lemma {:induction false} ColorAfterIsLastStrip(tex: Textures, cs: seq<Column>, start: Color, j: int)
    requires -1 <= j < |cs|
    requires forall k :: j < k < |cs| ==> cs[k].strip.bottom <= cs[k].strip.top
    requires 0 <= j ==> cs[j].strip.top < cs[j].strip.bottom
    ensures j == -1 ==> ColorAfter(tex, cs, start) == start
    ensures 0 <= j ==> ColorAfter(tex, cs, start) == AfterColumn(tex, cs[j], start)
    decreases |cs|
  {
    if |cs| > 0 && j < |cs| - 1 {
      var front := cs[..|cs| - 1];
      ColorAfterIsLastStrip(tex, front, start, j);
    }
  }

  /** The inner loop of `render_3d`: paints rows `[top, bottom)` of column `x`
      with the wall's texels, selecting each texel's colour before the pixel
      is set, and touches no other pixel. */
  method FillStrip(fb: Framebuffer, x: nat, c: Column, tex: Textures)
    requires fb.Valid()
    requires x < fb.width && c.strip.bottom <= fb.height
    modifies fb, fb.pixels
    ensures forall i, j :: 0 <= i < fb.width && 0 <= j < fb.height ==>
              fb.pixels[i, j] == if i == x then ColumnPixel(tex, c, j, old(fb.pixels[i, j])) else old(fb.pixels[i, j])
    ensures fb.currentColor == AfterColumn(tex, c, old(fb.currentColor))
  {
    var y := c.strip.top;
    while y < c.strip.bottom
      invariant c.strip.top <= y
      invariant y <= c.strip.bottom || y == c.strip.top
      invariant forall i, j :: 0 <= i < fb.width && 0 <= j < fb.height ==>
                  fb.pixels[i, j] == if i == x && c.strip.top <= j < y then WallTexel(tex, c.hit, c.strip, j) else old(fb.pixels[i, j])
      invariant fb.currentColor == if c.strip.top < y then WallTexel(tex, c.hit, c.strip, y - 1) else old(fb.currentColor)
    {
      var color := WallTexel(tex, c.hit, c.strip, y);
      fb.SetCurrentColor(color);
      fb.SetPixel(x, y);
      y := y + 1;
    }
  }

  /** One iteration of `render_3d`'s column loop: cast ray `x`, correct its
      distance, work out its strip and fill it. Only column `x` changes; the
      column drawn is returned. */
  method DrawColumn(fb: Framebuffer, sc: Scene, x: nat) returns (c: Column)
    requires fb.Valid()
    requires x < fb.width
    requires ColumnDrawable(sc, fb.width, fb.height, x)
    modifies fb, fb.pixels
    ensures c == ColumnAt(sc, fb.width, fb.height, x)
    ensures forall i, j :: 0 <= i < fb.width && 0 <= j < fb.height ==>
              fb.pixels[i, j] == if i == x then ColumnPixel(sc.textures, c, j, old(fb.pixels[i, j])) else old(fb.pixels[i, j])
    ensures fb.currentColor == AfterColumn(sc.textures, c, old(fb.currentColor))
  {
    var n := fb.width;
    var hh := fb.height as real / 2.0;
    var rayAngle := RayAngle(sc.player, x, n);
    var angleDiff := rayAngle - sc.player.a;
    var hit := sc.castRay(rayAngle);
    var corrected := CorrectedDistance(sc.maths, hit, angleDiff);
    assert corrected == ColumnDistance(sc, n, x);
    var strip := StripFor(hh, corrected);
    c := Column(hit, strip);
    FillStrip(fb, x, c, sc.textures);
  }

  /** `render_3d`: selects WHITESMOKE, then draws every column in turn.
      Afterwards every pixel is the reference `WallPixel`, and the current
      colour is what the columns left behind, in order. */
  method Render3D(fb: Framebuffer, sc: Scene)
    requires fb.Valid()
    requires AllColumnsDrawable(sc, fb.width, fb.height)
    modifies fb, fb.pixels
    ensures forall x, y :: 0 <= x < fb.width && 0 <= y < fb.height ==>
              fb.pixels[x, y] == WallPixel(sc, fb.width, fb.height, x, y, old(fb.pixels[x, y]))
    ensures fb.currentColor == ColorAfter(sc.textures, Columns(sc, fb.width, fb.height, fb.width), WHITESMOKE)
  {
    fb.SetCurrentColor(WHITESMOKE);
    ghost var drawn: seq<Column> := [];
    var i := 0;
    while i < fb.width
      invariant 0 <= i <= fb.width
      invariant |drawn| == i
      invariant forall k {:trigger ColumnAt(sc, fb.width, fb.height, k)} ::
                  0 <= k < i ==> drawn[k] == ColumnAt(sc, fb.width, fb.height, k)
      invariant forall x, y :: 0 <= x < fb.width && 0 <= y < fb.height ==>
                  fb.pixels[x, y] == if x < i then ColumnPixel(sc.textures, drawn[x], y, old(fb.pixels[x, y])) else old(fb.pixels[x, y])
      invariant fb.currentColor == ColorAfter(sc.textures, drawn, WHITESMOKE)
    {
      var c := DrawColumn(fb, sc, i);
      assert (drawn + [c])[..i] == drawn;
      drawn := drawn + [c];
      i := i + 1;
    }
    ColumnsFromEntries(sc, fb.width, fb.height, drawn);
  }
}
