/**
 * RGBA images as PIL holds them after `Image.new("RGBA", ...)`: a grid of
 * `height` rows of `width` pixels, and the five `Image.transpose` operations
 * the thumbnailer uses.
 */
module Raster {

  /** One 8-bit sample. */
  newtype byte = x: int | 0 <= x < 256

  /** One RGBA pixel, 8 bits per channel. */
  datatype Rgba = Rgba(r: byte, g: byte, b: byte, a: byte)

  datatype Grid = Grid(width: nat, height: nat, rows: seq<seq<Rgba>>) {
    /** Every one of the `height` rows holds exactly `width` pixels. */
    predicate Valid() {
      |rows| == height && forall y :: 0 <= y < height ==> |rows[y]| == width
    }
  }

  /** A well-formed image: the only kind PIL produces. */
  type Image = g: Grid | g.Valid() witness Grid(0, 0, [])

  /** The pixel in column `x` of row `y` (row 0 is the top, column 0 the left). */
  function At(img: Image, x: nat, y: nat): Rgba
    requires x < img.width && y < img.height
  {
    img.rows[y][x]
  }

  predicate FitsWithin(img: Image, size: nat) {
    img.width <= size && img.height <= size
  }

  /** Two images with the same size and the same pixel at every position are equal. */
  lemma {:induction false} Extensionality(a: Image, b: Image)
    requires a.width == b.width && a.height == b.height
    requires forall x: nat, y: nat :: x < a.width && y < a.height ==> At(a, x, y) == At(b, x, y)
    ensures a == b
  {
    forall y | 0 <= y < a.height
      ensures a.rows[y] == b.rows[y]
    {
      forall x | 0 <= x < a.width
        ensures a.rows[y][x] == b.rows[y][x]
      {
        assert At(a, x, y) == At(b, x, y);
      }
    }
  }

  /** PIL's transpose methods `Image.FLIP_LEFT_RIGHT`, `Image.FLIP_TOP_BOTTOM`,
      `Image.ROTATE_90`, `Image.ROTATE_180` and `Image.ROTATE_270`; the
      rotations are counter-clockwise. */
  datatype Transpose = FlipLeftRight | FlipTopBottom | Rotate90 | Rotate180 | Rotate270 {
    predicate SwapsAxes() {
      Rotate90? || Rotate270?
    }
  }

  /** `img.transpose(op)`: a new image, the input is left as it was. */
  function Transposed(img: Image, op: Transpose): (r: Image)
    ensures op.SwapsAxes() ==> r.width == img.height && r.height == img.width
    ensures !op.SwapsAxes() ==> r.width == img.width && r.height == img.height
  {
    var w, h := img.width, img.height;
    match op
    case FlipLeftRight =>
      Grid(w, h, seq(h, y requires 0 <= y < h => seq(w, x requires 0 <= x < w => img.rows[y][w - 1 - x])))
    case FlipTopBottom =>
      Grid(w, h, seq(h, y requires 0 <= y < h => seq(w, x requires 0 <= x < w => img.rows[h - 1 - y][x])))
    case Rotate180 =>
      Grid(w, h, seq(h, y requires 0 <= y < h => seq(w, x requires 0 <= x < w => img.rows[h - 1 - y][w - 1 - x])))
    case Rotate90 =>
      Grid(h, w, seq(w, y requires 0 <= y < w => seq(h, x requires 0 <= x < h => img.rows[x][w - 1 - y])))
    case Rotate270 =>
      Grid(h, w, seq(w, y requires 0 <= y < w => seq(h, x requires 0 <= x < h => img.rows[h - 1 - x][y])))
  }

  /** The transpose that undoes `op`. */
  function Inverse(op: Transpose): Transpose {
    match op
    case Rotate90 => Rotate270
    case Rotate270 => Rotate90
    case _ => op
  }

  /** Every transpose is undone by its inverse: the flips and the half turn are
      involutions, and a quarter turn one way is undone by a quarter turn the
      other way. */
  lemma {:induction false} TransposeUndone(img: Image, op: Transpose)
    ensures Transposed(Transposed(img, op), Inverse(op)) == img
  {
    var t := Transposed(img, op);
    var back := Transposed(t, Inverse(op));
    forall x: nat, y: nat | x < img.width && y < img.height
      ensures At(back, x, y) == At(img, x, y)
    {
    }
    Extensionality(back, img);
  }
}
