/** The FPS overlay's geometry: a screen-aligned quad of two triangles pinned
    to the top-left corner of the viewport, in normalised device coordinates,
    and the write of its vertices into the fixed-size vertex buffer. */
module Overlay {
  import Fps

  /** Floats in the overlay's vertex buffer: 6 vertices of (x, y, u, v),
      the 6*4*4 bytes it reserves. */
  const QuadFloats: int := 24

  /** The device-coordinate length of `pixels` pixels on a framebuffer side of `size` pixels. */
  function Extent(pixels: int, size: int): (e: real)
    requires pixels > 0 && size > 0
    ensures e > 0.0
    // the span covers exactly `pixels` of the 2 / size device units per pixel
    ensures e * (size as real) == 2.0 * (pixels as real)
  {
    2.0 * (pixels as real) / (size as real)
  }

  /** Right edge of the quad. */
  function Right(width: int): (x1: real)
    requires width > 0
    ensures x1 > -1.0
  {
    -1.0 + Extent(Fps.TextureWidth, width)
  }

  /** Bottom edge of the quad. */
  function Bottom(height: int): (y1: real)
    requires height > 0
    ensures y1 < 1.0
  {
    1.0 - Extent(Fps.TextureHeight, height)
  }

  /** The overlay's vertex data for a framebuffer of `width` by `height` pixels. */
  function Quad(width: int, height: int): (q: seq<real>)
    requires width > 0 && height > 0
    ensures |q| == QuadFloats
    // the first vertex is the top-left corner of the viewport, showing the texture's top-left
    ensures q[..4] == [-1.0, 1.0, 0.0, 1.0]
    // the last vertex is the opposite corner, showing the texture's bottom-right
    ensures q[20..] == [Right(width), Bottom(height), 1.0, 0.0]
    // the quad is 256 by 64 framebuffer pixels, one pixel per texel
    ensures (Right(width) - q[0]) * (width as real) == 2.0 * (Fps.TextureWidth as real)
    ensures (q[1] - Bottom(height)) * (height as real) == 2.0 * (Fps.TextureHeight as real)
  {
    var x0, x1 := -1.0, Right(width);
    var y0, y1 := 1.0, Bottom(height);
    [ x0, y0, 0.0, 1.0,
      x1, y0, 1.0, 1.0,
      x0, y1, 0.0, 0.0,
      x0, y1, 0.0, 0.0,
      x1, y0, 1.0, 1.0,
      x1, y1, 1.0, 0.0 ]
  }

  /** The `v`-th vertex (x, y, u, v) of the quad's vertex data. */
  function VertexAt(q: seq<real>, v: int): (p: seq<real>)
    requires |q| == QuadFloats && 0 <= v < 6
    ensures |p| == 4
  {
    q[4 * v .. 4 * v + 4]
  }

  /** Every vertex is a corner of the rectangle from (-1, 1) to (Right, Bottom),
      and its texture coordinates follow its position linearly, so the bitmap
      is shown upright and unstretched; the two triangles, top-left, top-right,
      bottom-left and bottom-left, top-right, bottom-right, share the diagonal
      and together cover the rectangle. */
  lemma QuadVertices(width: int, height: int)
    requires width > 0 && height > 0
    ensures forall v :: 0 <= v < 6 ==>
      var p := VertexAt(Quad(width, height), v);
      && (p[0] == -1.0 || p[0] == Right(width))
      && (p[1] == 1.0 || p[1] == Bottom(height))
      && p[2] == (p[0] + 1.0) / (Right(width) + 1.0)
      && p[3] == (p[1] - Bottom(height)) / (1.0 - Bottom(height))
    ensures var q := Quad(width, height);
      && VertexAt(q, 1)[..2] == [Right(width), 1.0]
      && VertexAt(q, 2)[..2] == [-1.0, Bottom(height)]
      && VertexAt(q, 3) == VertexAt(q, 2) && VertexAt(q, 4) == VertexAt(q, 1)
  {
    var q := Quad(width, height);
    var x1, y1 := Right(width), Bottom(height);
    assert (x1 + 1.0) / (x1 + 1.0) == 1.0;
    assert (1.0 - y1) / (1.0 - y1) == 1.0;
    assert VertexAt(q, 0) == [-1.0, 1.0, 0.0, 1.0];
    assert VertexAt(q, 1) == [x1, 1.0, 1.0, 1.0];
    assert VertexAt(q, 2) == [-1.0, y1, 0.0, 0.0];
    assert VertexAt(q, 3) == [-1.0, y1, 0.0, 0.0];
    assert VertexAt(q, 4) == [x1, 1.0, 1.0, 1.0];
    assert VertexAt(q, 5) == [x1, y1, 1.0, 0.0];
  }

  /** A framebuffer side that grows never gives a longer extent, and one that
      grows strictly gives a strictly shorter one: the overlay keeps its pixel
      size and covers less of the viewport. */
  lemma ExtentShrinks(pixels: int, size: int, larger: int)
    requires pixels > 0 && 0 < size <= larger
    ensures Extent(pixels, larger) <= Extent(pixels, size)
    ensures size < larger ==> Extent(pixels, larger) < Extent(pixels, size)
  {
    var e, f := Extent(pixels, size), Extent(pixels, larger);
    assert f * (larger as real) == e * (size as real);
    assert f * (size as real) <= f * (larger as real);
    if size < larger {
      assert f * (size as real) < f * (larger as real);
    }
  }

  /** Scaling a framebuffer side by `k` divides the extent by `k`: doubling the
      width halves the overlay's share of the viewport. */
  lemma ExtentScales(pixels: int, size: int, k: int)
    requires pixels > 0 && size > 0 && k > 0
    ensures Extent(pixels, k * size) * (k as real) == Extent(pixels, size)
  {
    var e, f := Extent(pixels, size), Extent(pixels, k * size);
    assert f * ((k * size) as real) == e * (size as real);
    assert (f * (k as real)) * (size as real) == e * (size as real);
  }

  /** Uploads the vertex data into the buffer, in place. */
  method WriteBuffer(buffer: array<real>, data: seq<real>)
    requires buffer.Length == |data|
    modifies buffer
    ensures buffer[..] == data
  {
    for i := 0 to |data|
      invariant buffer[..i] == data[..i]
    {
      buffer[i] := data[i];
    }
  }
}
