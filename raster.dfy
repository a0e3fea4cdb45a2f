/**
 * The panel's persistent pixel buffer: an ARGB image of fixed size whose
 * pixels are updated in place.  Only the operations the panel performs on
 * the whole image are modelled: allocation, filling with one colour, and
 * copying another image in at the origin.
 */
module Raster {
  import opened Geometry

  class Canvas {
    const width: int
    const height: int
    /** pixels[x, y] is the pixel in column x, row y. */
    const pixels: array2<Color>

    predicate Valid()
    {
      1 <= width && 1 <= height && pixels.Length0 == width && pixels.Length1 == height
    }

    /** Every pixel has colour c. */
    predicate Filled(c: Color)
      reads pixels
    {
      forall x, y :: 0 <= x < pixels.Length0 && 0 <= y < pixels.Length1 ==> pixels[x, y] == c
    }

    /** The canvas is w by h and entirely white. */
    predicate Blank(w: int, h: int)
      reads pixels
    {
      Valid() && width == w && height == h && Filled(White)
    }

    /** This canvas shows src at the origin and white everywhere src does not reach. */
    predicate HoldsAtOrigin(src: Canvas)
      reads pixels, src.pixels
    {
      forall x, y :: 0 <= x < pixels.Length0 && 0 <= y < pixels.Length1 ==>
        pixels[x, y] == if x < src.pixels.Length0 && y < src.pixels.Length1 then src.pixels[x, y] else White
    }

    /** A new w by h image; an ARGB image starts out fully transparent. */
    constructor (w: int, h: int)
      requires 1 <= w && 1 <= h
      ensures Valid() && width == w && height == h
      ensures fresh(pixels) && Filled(Transparent)
    {
      width, height := w, h;
      pixels := new Color[w, h]((x, y) => Transparent);
    }

    /** Paints the rectangle (0, 0, width, height) in colour c. */
    method Fill(c: Color)
      requires Valid()
      modifies pixels
      ensures Filled(c)
    {
      var x := 0;
      while x < width
        invariant 0 <= x <= width
        invariant forall i, j :: 0 <= i < x && 0 <= j < height ==> pixels[i, j] == c
      {
        var y := 0;
        while y < height
          invariant 0 <= y <= height
          invariant forall i, j :: 0 <= i < x && 0 <= j < height ==> pixels[i, j] == c
          invariant forall j :: 0 <= j < y ==> pixels[x, j] == c
        {
          pixels[x, y] := c;
          y := y + 1;
        }
        x := x + 1;
      }
    }

    /**
     * Draws src at the origin: every pixel that src covers takes src's value,
     * every other pixel keeps its own.
     */
    method DrawImage(src: Canvas)
      requires Valid() && src.Valid() && src.pixels != pixels
      modifies pixels
      ensures forall x, y :: 0 <= x < width && 0 <= y < height ==>
        pixels[x, y] == if x < src.width && y < src.height then src.pixels[x, y] else old(pixels[x, y])
    {
      var w, h := Min(width, src.width), Min(height, src.height);
      var x := 0;
      while x < w
        invariant 0 <= x <= w
        invariant forall i, j :: 0 <= i < width && 0 <= j < height ==>
          pixels[i, j] == if i < x && j < h then src.pixels[i, j] else old(pixels[i, j])
      {
        var y := 0;
        while y < h
          invariant 0 <= y <= h
          invariant forall i, j :: 0 <= i < width && 0 <= j < height ==>
            pixels[i, j] == if (i < x && j < h) || (i == x && j < y) then src.pixels[i, j] else old(pixels[i, j])
        {
          pixels[x, y] := src.pixels[x, y];
          y := y + 1;
        }
        x := x + 1;
      }
    }
  }
}
