/**
 * The pixel surface the renderer draws on. `framebuffer.rs` is not part of
 * this model; what is used of it is its write path: `set_current_color`
 * selects a colour and `set_pixel(x, y)` paints one pixel with it.
 */
module Screen {

  newtype byte = x: int | 0 <= x < 256

  /** A raylib `Color` (red, green, blue, alpha). */
  datatype Color = Color(r: byte, g: byte, b: byte, a: byte)

  /** `TRANSPARENT_COLOR` (src/main.rs:26): the sprite texel colour that is
      never drawn. */
  const TRANSPARENT_COLOR: Color := Color(0, 0, 0, 0)

  /** raylib's `Color::RED`, used for wall cells in the overhead view. */
  const RED: Color := Color(230, 41, 55, 255)

  /** raylib's `Color::WHITESMOKE`, selected before the wall strips are drawn. */
  const WHITESMOKE: Color := Color(245, 245, 245, 255)

  /** Every texture is TEXTURE_SIZE x TEXTURE_SIZE texels. */
  const TEXTURE_SIZE: nat := 128

  /** The texture manager's `get_pixel_color(key, tx, ty)`: the colour of
      texel (tx, ty) of the texture named by `key`. */
  type Textures = (char, nat, nat) -> Color

  /** A `width` x `height` grid of pixels, indexed `pixels[x, y]`, and the
      colour the next `SetPixel` paints with. */
  class Framebuffer {
    const width: nat
    const height: nat
    const pixels: array2<Color>
    var currentColor: Color

    ghost predicate Valid()
    {
      pixels.Length0 == width && pixels.Length1 == height
    }

    /** `Framebuffer::new(width, height, background)`. `framebuffer.rs` is not
        part of this model; that every pixel starts as the background colour
        is taken from the role of that argument. */
    constructor(w: nat, h: nat, background: Color)
      ensures Valid() && width == w && height == h
      ensures forall x, y :: 0 <= x < w && 0 <= y < h ==> pixels[x, y] == background
      ensures fresh(pixels)
    {
      width := w;
      height := h;
      pixels := new Color[w, h]((x, y) => background);
      currentColor := background;
    }

    /** `set_current_color`. */
    method SetCurrentColor(c: Color)
      modifies this
      ensures currentColor == c
    {
      currentColor := c;
    }

    /** `set_pixel`: paints (x, y) with the current colour and leaves every
        other pixel as it was. */
    method SetPixel(x: nat, y: nat)
      requires Valid()
      requires x < width && y < height
      modifies pixels
      ensures pixels[x, y] == currentColor
      ensures forall i, j :: 0 <= i < width && 0 <= j < height && (i != x || j != y) ==>
                pixels[i, j] == old(pixels[i, j])
    {
      pixels[x, y] := currentColor;
    }
  }
}
