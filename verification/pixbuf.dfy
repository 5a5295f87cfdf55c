/**
 * The GdkPixbuf built from an RGBA image: `image_rgba.tobytes()` handed to
 * `GdkPixbuf.Pixbuf.new_from_bytes` with the RGB colour space, an alpha
 * channel, 8 bits per sample, the image's size and a row stride of four bytes
 * per pixel.
 */
module Pixbuf {
  import opened Raster

  datatype Colorspace = RGB

  datatype Pixbuf = Pixbuf(
    colorspace: Colorspace,
    hasAlpha: bool,
    bitsPerSample: nat,
    width: nat,
    height: nat,
    rowstride: nat,
    data: seq<byte>)

  /** The four samples of a pixel in PIL's RGBA byte order. */
  function Samples(p: Rgba): seq<byte> {
    [p.r, p.g, p.b, p.a]
  }

  /** `tobytes()` of one row: its pixels' samples, left to right. */
  function RowBytes(row: seq<Rgba>): (bytes: seq<byte>)
    ensures |bytes| == 4 * |row|
  {
    if row == [] then [] else Samples(row[0]) + RowBytes(row[1..])
  }

  /** Where row `y` starts in the bytes of rows of `width` pixels. */
  function RowOffset(y: nat, width: nat): nat {
    if y == 0 then 0 else RowOffset(y - 1, width) + 4 * width
  }

  /** Row `y` starts `y` row strides in. */
  lemma {:induction false} RowOffsetIsProduct(y: nat, width: nat)
    ensures RowOffset(y, width) == y * (4 * width)
  {
    if y > 0 {
      RowOffsetIsProduct(y - 1, width);
    }
  }

  /** `tobytes()` of a grid of rows of `width` pixels: the rows top to bottom. */
  function GridBytes(rows: seq<seq<Rgba>>, width: nat): (bytes: seq<byte>)
    requires forall y :: 0 <= y < |rows| ==> |rows[y]| == width
    ensures |bytes| == RowOffset(|rows|, width)
  {
    if rows == [] then [] else RowBytes(rows[0]) + GridBytes(rows[1..], width)
  }

  /** `GdkPixbuf.Pixbuf.new_from_bytes(GLib.Bytes.new(img.tobytes()), RGB, True, 8, w, h, w * 4)`. */
  function FromImage(img: Image): (pb: Pixbuf)
    ensures pb.colorspace == RGB && pb.hasAlpha && pb.bitsPerSample == 8
    ensures pb.width == img.width && pb.height == img.height && pb.rowstride == 4 * img.width
    ensures |pb.data| == pb.rowstride * pb.height
  {
    RowOffsetIsProduct(img.height, img.width);
    Pixbuf(RGB, true, 8, img.width, img.height, 4 * img.width, GridBytes(img.rows, img.width))
  }

  /** The pixel GdkPixbuf reads at column `x` of row `y`: the four bytes from
      offset `y * rowstride + 4 * x`. */
  function PixelAt(pb: Pixbuf, x: nat, y: nat): Rgba
    requires y * pb.rowstride + 4 * x + 3 < |pb.data|
  {
    var o := y * pb.rowstride + 4 * x;
    Rgba(pb.data[o], pb.data[o + 1], pb.data[o + 2], pb.data[o + 3])
  }

  lemma {:induction false} RowBytesAt(row: seq<Rgba>, x: nat, k: nat)
    requires x < |row| && k < 4
    ensures RowBytes(row)[4 * x + k] == Samples(row[x])[k]
  {
    if x > 0 {
      RowBytesAt(row[1..], x - 1, k);
    }
  }

  lemma {:induction false} GridBytesAt(rows: seq<seq<Rgba>>, width: nat, x: nat, y: nat, k: nat)
    requires forall i :: 0 <= i < |rows| ==> |rows[i]| == width
    requires y < |rows| && x < width && k < 4
    ensures RowOffset(y, width) + 4 * x + k < |GridBytes(rows, width)|
    ensures GridBytes(rows, width)[RowOffset(y, width) + 4 * x + k] == Samples(rows[y][x])[k]
  {
    var first, rest := RowBytes(rows[0]), GridBytes(rows[1..], width);
    assert GridBytes(rows, width) == first + rest;
    if y == 0 {
      RowBytesAt(rows[0], x, k);
    } else {
      GridBytesAt(rows[1..], width, x, y - 1, k);
      assert (first + rest)[|first| + (RowOffset(y - 1, width) + 4 * x + k)] == rest[RowOffset(y - 1, width) + 4 * x + k];
    }
  }

  /** The pixbuf shows the image: every pixel GdkPixbuf reads from the buffer
      is the image's pixel at the same position. */
  lemma PixbufShowsImage(img: Image, x: nat, y: nat)
    requires x < img.width && y < img.height
    ensures y * FromImage(img).rowstride + 4 * x + 3 < |FromImage(img).data|
    ensures PixelAt(FromImage(img), x, y) == At(img, x, y)
  {
    RowOffsetIsProduct(y, img.width);
    GridBytesAt(img.rows, img.width, x, y, 0);
    GridBytesAt(img.rows, img.width, x, y, 1);
    GridBytesAt(img.rows, img.width, x, y, 2);
    GridBytesAt(img.rows, img.width, x, y, 3);
  }
}
