/** The CPU-side framebuffer that Graphics owns as `pBuffer`.
    A surface is ScreenWidth*ScreenHeight colours in row-major order; pixel (x, y)
    lives at index y*ScreenWidth + x. The functions here are the meaning of the
    surface operations; the Graphics class applies them to its `surface` field. */
module Surfaces {

  newtype Byte = x: int | 0 <= x < 256

  /** An 8-bit-per-channel RGB colour. */
  datatype Color = Color(r: Byte, g: Byte, b: Byte)

  const Black: Color := Color(0, 0, 0)
  const White: Color := Color(255, 255, 255)

  const ScreenWidth: nat := 800
  const ScreenHeight: nat := 600

  /** Number of pixels in the surface, and in the texture it is uploaded to. */
  const PixelCount: nat := ScreenWidth * ScreenHeight

  type Surface = s: seq<Color> | |s| == PixelCount witness seq(PixelCount, _ => Black)

  predicate InBounds(x: nat, y: nat) {
    x < ScreenWidth && y < ScreenHeight
  }

  /** Row-major position of pixel (x, y). */
  function Index(x: nat, y: nat): (i: nat)
    requires InBounds(x, y)
    ensures i < PixelCount
    ensures i % ScreenWidth == x && i / ScreenWidth == y
  {
    y * ScreenWidth + x
  }

  /** Distinct in-bounds coordinates never share a buffer cell. */
  lemma IndexInjective(x0: nat, y0: nat, x1: nat, y1: nat)
    requires InBounds(x0, y0) && InBounds(x1, y1)
    ensures Index(x0, y0) == Index(x1, y1) <==> x0 == x1 && y0 == y1
  {
    if Index(x0, y0) == Index(x1, y1) {
      var i := Index(x0, y0);
      assert x0 == i % ScreenWidth == x1;
      assert y0 == i / ScreenWidth == y1;
    }
  }

  function Pixel(s: Surface, x: nat, y: nat): Color
    requires InBounds(x, y)
  {
    s[Index(x, y)]
  }

  /** Surface::Clear: every pixel becomes c. */
  function Cleared(c: Color): (s: Surface)
    ensures forall x: nat, y: nat :: InBounds(x, y) ==> Pixel(s, x, y) == c
  {
    seq(PixelCount, _ => c)
  }

  /** Surface::PutPixel: pixel (x, y) becomes c, every other pixel keeps its colour. */
  function WithPixel(s: Surface, x: nat, y: nat, c: Color): (t: Surface)
    requires InBounds(x, y)
    ensures Pixel(t, x, y) == c
    ensures forall x': nat, y': nat :: InBounds(x', y') && (x', y') != (x, y) ==> Pixel(t, x', y') == Pixel(s, x', y')
  {
    var t := s[Index(x, y) := c];
    forall x': nat, y': nat | InBounds(x', y') && (x', y') != (x, y)
      ensures Pixel(t, x', y') == Pixel(s, x', y')
    {
      IndexInjective(x, y, x', y');
    }
    t
  }

  /** Color(r, g, b) built from `unsigned int` channels: each is narrowed to 8 bits. */
  function ColorOf(r: nat, g: nat, b: nat): (c: Color)
    ensures r < 256 && g < 256 && b < 256 ==> c.r as nat == r && c.g as nat == g && c.b as nat == b
  {
    Color((r % 256) as Byte, (g % 256) as Byte, (b % 256) as Byte)
  }
}
