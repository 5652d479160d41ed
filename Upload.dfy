/** Copying the surface into the mapped dynamic texture.
    Map hands back a pointer and a row pitch: texel (x, y) of the texture lives at
    y*rowPitch + x in the mapped memory, and the driver may pad each row, so the
    pitch can exceed ScreenWidth. Pitches are counted in pixels here. */
module Upload {
  import opened Surfaces

  /** A row pitch the driver may report: never shorter than one row of pixels. */
  type Pitch = p: nat | ScreenWidth <= p witness ScreenWidth

  /** What a successful Map returns: the row pitch and the mapped memory (ScreenHeight rows). */
  datatype Mapping = Mapping(rowPitch: Pitch, memory: seq<Color>)

  type MappedTexture = m: Mapping | |m.memory| == m.rowPitch * ScreenHeight
    witness Mapping(ScreenWidth, seq(PixelCount, _ => Black))

  lemma {:induction false} MulMonotone(a: nat, b: nat, p: nat)
    ensures a <= b ==> a * p <= b * p
  {
    if a <= b {
      assert b * p == a * p + (b - a) * p;
    }
  }

  lemma {:induction false} PitchedPosition(p: Pitch, x: nat, y: nat)
    requires InBounds(x, y)
    ensures y * p + x < p * ScreenHeight
    ensures (y * p + x) % p == x && (y * p + x) / p == y
  {
    var i := y * p + x;
    assert (y + 1) * p == y * p + p;
    MulMonotone(y + 1, ScreenHeight, p);
    var q := i / p;
    assert i == q * p + i % p;
    assert (q + 1) * p == q * p + p;
    MulMonotone(y + 1, q, p);
    MulMonotone(q + 1, y, p);
  }

  /** Position of texel (x, y) in the mapped memory. */
  function Offset(p: Pitch, x: nat, y: nat): (i: nat)
    requires InBounds(x, y)
    ensures i < p * ScreenHeight
    ensures i % p == x && i / p == y
  {
    PitchedPosition(p, x, y);
    y * p + x
  }

  lemma {:induction false} RowOfOffset(p: Pitch, i: nat)
    requires i < p * ScreenHeight
    ensures i / p < ScreenHeight
  {
    assert i == (i / p) * p + i % p;
    MulMonotone(ScreenHeight, i / p, p);
  }

  /** The image the sampler sees: texel (x, y) read at its pitched position. */
  function Texels(m: MappedTexture): (t: Surface)
    ensures forall x: nat, y: nat :: InBounds(x, y) ==> Pixel(t, x, y) == m.memory[Offset(m.rowPitch, x, y)]
  {
    seq(PixelCount, i requires 0 <= i < PixelCount => m.memory[Offset(m.rowPitch, i % ScreenWidth, i / ScreenWidth)])
  }

  /** The copy as Graphics.cpp writes it: one memcpy of ScreenWidth*ScreenHeight contiguous
      colours to the start of the mapped memory, ignoring the row pitch. */
  function ContiguousCopy(m: MappedTexture, s: Surface): (w: MappedTexture)
    ensures w.rowPitch == m.rowPitch
    ensures PixelCount <= |w.memory| && w.memory[..PixelCount] == s
    ensures w.memory[PixelCount..] == m.memory[PixelCount..]
  {
    assert PixelCount <= |m.memory| by {
      assert ScreenWidth * ScreenHeight <= m.rowPitch * ScreenHeight;
    }
    Mapping(m.rowPitch, s + m.memory[PixelCount..])
  }

  /** The copy row by row: surface row y goes to texture row y at the mapped pitch;
      the padding after each row is left as it was. */
  function PitchedCopy(m: MappedTexture, s: Surface): (w: MappedTexture)
    ensures w.rowPitch == m.rowPitch
    ensures forall x: nat, y: nat :: InBounds(x, y) ==> w.memory[Offset(m.rowPitch, x, y)] == Pixel(s, x, y)
    ensures forall i :: 0 <= i < |m.memory| && i % m.rowPitch >= ScreenWidth ==> w.memory[i] == m.memory[i]
  {
    var p := m.rowPitch;
    var mem := seq(|m.memory|, i requires 0 <= i < |m.memory| =>
      if i % p < ScreenWidth then (RowOfOffset(p, i); Pixel(s, i % p, i / p)) else m.memory[i]);
    Mapping(p, mem)
  }

  /** The row-by-row copy shows exactly the surface, whatever pitch the driver chose. */
  lemma PitchedCopyShowsSurface(m: MappedTexture, s: Surface)
    ensures Texels(PitchedCopy(m, s)) == s
  {
    var t := Texels(PitchedCopy(m, s));
    forall i | 0 <= i < PixelCount
      ensures t[i] == s[i]
    {
      var x, y := i % ScreenWidth, i / ScreenWidth;
      assert InBounds(x, y) && Index(x, y) == i;
      assert t[i] == Pixel(t, x, y);
    }
  }

  /** When rows are not padded the contiguous copy shows exactly the surface too. */
  lemma ContiguousCopyUnpadded(m: MappedTexture, s: Surface)
    requires m.rowPitch == ScreenWidth
    ensures Texels(ContiguousCopy(m, s)) == s
  {
    var w := ContiguousCopy(m, s);
    var t := Texels(w);
    forall i | 0 <= i < PixelCount
      ensures t[i] == s[i]
    {
      var x, y := i % ScreenWidth, i / ScreenWidth;
      assert InBounds(x, y) && Index(x, y) == i;
      assert Offset(m.rowPitch, x, y) == i;
      assert t[i] == Pixel(t, x, y) == w.memory[i];
    }
  }

  /** With rows padded to 3328 bytes (832 pixels, a 256-byte alignment), the contiguous
      copy misplaces pixels: a surface that is black except for a white pixel at (0, 1)
      shows black at (0, 1), because texture row 1 starts 832 colours into the copy,
      where the surface's pixel (32, 1) was written. */
  lemma ContiguousCopySkewsPaddedRows(m: MappedTexture)
    requires m.rowPitch == 832
    ensures var s := WithPixel(Cleared(Black), 0, 1, White);
      Pixel(Texels(ContiguousCopy(m, s)), 0, 1) == Black && Pixel(s, 0, 1) == White &&
      Texels(ContiguousCopy(m, s)) != s
  {
    var s := WithPixel(Cleared(Black), 0, 1, White);
    var w := ContiguousCopy(m, s);
    assert Offset(832, 0, 1) == 832 == Index(32, 1);
    assert w.memory[832] == s[832] == Pixel(s, 32, 1) == Black;
  }
}
