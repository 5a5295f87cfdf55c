/**
 * The EXIF orientation handling of `preview_gdk_pixbuf_from_image`: the table
 * from the Orientation tag's value to the PIL transposes that put the image
 * upright, which sources it applies to, and the transposes applied in order.
 * The tag is the TIFF 6.0 "Orientation" field (tag 274, 0x0112, section 8 of
 * TIFF 6.0), reused by Exif.
 */
module Orientation {
  import opened Raster

  const EXIF_TAG_ORIENTATION: int := 274

  /** `ORIENTATION_OPERATIONS`: for each tag value, the transposes to apply in order. */
  const ORIENTATION_OPERATIONS: map<int, seq<Transpose>> := map[
    1 := [],
    2 := [FlipLeftRight],
    3 := [Rotate180],
    4 := [FlipTopBottom],
    5 := [FlipLeftRight, Rotate90],
    6 := [Rotate270],
    7 := [FlipLeftRight, Rotate270],
    8 := [Rotate90]
  ]

  /** The transposes applied to a decoded source: only a JPEG whose Exif data
      carries the Orientation tag with a value the table knows is transposed. */
  function OperationsFor(format: string, exif: map<int, int>): (ops: seq<Transpose>)
    ensures ops != [] ==> format == "JPEG" && EXIF_TAG_ORIENTATION in exif && 2 <= exif[EXIF_TAG_ORIENTATION] <= 8
    ensures format == "JPEG" && EXIF_TAG_ORIENTATION in exif && 1 <= exif[EXIF_TAG_ORIENTATION] <= 8
            ==> ops == ORIENTATION_OPERATIONS[exif[EXIF_TAG_ORIENTATION]]
  {
    if format == "JPEG" && EXIF_TAG_ORIENTATION in exif && exif[EXIF_TAG_ORIENTATION] in ORIENTATION_OPERATIONS then
      ORIENTATION_OPERATIONS[exif[EXIF_TAG_ORIENTATION]]
    else
      []
  }

  /** `ops` applied to `img` one after the other, first operation first. */
  function Oriented(img: Image, ops: seq<Transpose>): Image
    decreases |ops|
  {
    if ops == [] then img else Transposed(Oriented(img, ops[..|ops| - 1]), ops[|ops| - 1])
  }

  /** How many of `ops` are quarter turns. */
  function QuarterTurns(ops: seq<Transpose>): nat
    decreases |ops|
  {
    if ops == [] then 0
    else QuarterTurns(ops[..|ops| - 1]) + (if ops[|ops| - 1].SwapsAxes() then 1 else 0)
  }

  /** Transposing keeps the image's size when an even number of quarter turns
      are applied and swaps width and height otherwise. */
  lemma {:induction false} OrientedSize(img: Image, ops: seq<Transpose>)
    ensures var r := Oriented(img, ops);
            if QuarterTurns(ops) % 2 == 0 then r.width == img.width && r.height == img.height
            else r.width == img.height && r.height == img.width
    decreases |ops|
  {
    if ops != [] {
      OrientedSize(img, ops[..|ops| - 1]);
    }
  }

  /** The orientation step never makes an image that fits in a `size × size`
      box stop fitting in it. */
  lemma OrientedFits(img: Image, ops: seq<Transpose>, size: nat)
    requires FitsWithin(img, size)
    ensures FitsWithin(Oriented(img, ops), size)
  {
    OrientedSize(img, ops);
  }

  /** Tag values 5 to 8 swap width and height, values 1 to 4 keep them. */
  lemma OrientationSize(img: Image, v: int)
    requires 1 <= v <= 8
    ensures var r := Oriented(img, ORIENTATION_OPERATIONS[v]);
            if v >= 5 then r.width == img.height && r.height == img.width
            else r.width == img.width && r.height == img.height
  {
    var ops := ORIENTATION_OPERATIONS[v];
    OrientedSize(img, ops);
    if v == 5 || v == 7 {
      assert ops[..1] == [FlipLeftRight];
      assert QuarterTurns(ops) == 1;
    }
  }

  /** A side of the upright picture. */
  datatype Side = Top | Bottom | Left | Right

  /** TIFF 6.0 Orientation: the side of the upright picture on which the
      stored image's 0th row lies. */
  function ZerothRowSide(v: int): Side
    requires 1 <= v <= 8
  {
    if v <= 2 then Top else if v <= 4 then Bottom else if v == 5 || v == 8 then Left else Right
  }

  /** TIFF 6.0 Orientation: the side of the upright picture on which the
      stored image's 0th column lies. */
  function ZerothColumnSide(v: int): Side
    requires 1 <= v <= 8
  {
    if v == 1 || v == 4 then Left else if v <= 3 then Right else if v <= 6 then Top else Bottom
  }

  /** Position `i` counted from the start of a line of `n` positions when
      `forward`, from its end otherwise. */
  function Along(n: nat, i: nat, forward: bool): (k: nat)
    requires i < n
    ensures k < n
  {
    if forward then i else n - 1 - i
  }

  /** The upright picture of a stored image with orientation `v`, built
      directly from where TIFF 6.0 says its 0th row and 0th column lie: when
      the 0th row is at the top or bottom, stored rows stay rows; when it is
      at the left or right, stored rows become columns. */
  function Upright(img: Image, v: int): Image
    requires 1 <= v <= 8
  {
    var w, h := img.width, img.height;
    var row, col := ZerothRowSide(v), ZerothColumnSide(v);
    if row == Top || row == Bottom then
      var rows := seq(h, y requires 0 <= y < h => seq(w, x requires 0 <= x < w =>
        img.rows[Along(h, y, row == Top)][Along(w, x, col == Left)]));
      assert forall y :: 0 <= y < h ==> |rows[y]| == w;
      Grid(w, h, rows)
    else
      var rows := seq(w, y requires 0 <= y < w => seq(h, x requires 0 <= x < h =>
        img.rows[Along(h, x, row == Left)][Along(w, y, col == Top)]));
      assert forall y :: 0 <= y < w ==> |rows[y]| == h;
      Grid(h, w, rows)
  }

  /** The pixel of the upright picture at column `x` of row `y`. */
  lemma UprightAt(img: Image, v: int, x: nat, y: nat)
    requires 1 <= v <= 8
    requires x < Upright(img, v).width && y < Upright(img, v).height
    ensures v <= 4 ==>
              At(Upright(img, v), x, y) == img.rows[Along(img.height, y, v <= 2)][Along(img.width, x, v == 1 || v == 4)]
    ensures v >= 5 ==>
              At(Upright(img, v), x, y) == img.rows[Along(img.height, x, v == 5 || v == 8)][Along(img.width, y, v <= 6)]
  {
  }

  /** Orientations 2, 3, 4, 6 and 8 take one transpose each. */
  lemma {:induction false} SingleTransposeUpright(img: Image, v: int, op: Transpose)
    requires || (v == 2 && op == FlipLeftRight) || (v == 3 && op == Rotate180)
             || (v == 4 && op == FlipTopBottom) || (v == 6 && op == Rotate270)
             || (v == 8 && op == Rotate90)
    ensures Transposed(img, op) == Upright(img, v)
  {
    var r, u := Transposed(img, op), Upright(img, v);
    forall x: nat, y: nat | x < u.width && y < u.height
      ensures At(r, x, y) == At(u, x, y)
    {
      UprightAt(img, v, x, y);
    }
    Extensionality(r, u);
  }

  /** Orientations 5 and 7 mirror first and then turn a quarter. */
  lemma {:induction false} MirrorThenTurnUpright(img: Image, v: int, turn: Transpose)
    requires (v == 5 && turn == Rotate90) || (v == 7 && turn == Rotate270)
    ensures Transposed(Transposed(img, FlipLeftRight), turn) == Upright(img, v)
  {
    var m := Transposed(img, FlipLeftRight);
    var r, u := Transposed(m, turn), Upright(img, v);
    forall x: nat, y: nat | x < u.width && y < u.height
      ensures At(r, x, y) == At(u, x, y)
    {
      UprightAt(img, v, x, y);
      if v == 5 {
        assert At(r, x, y) == At(m, m.width - 1 - y, x);
      } else {
        assert At(r, x, y) == At(m, y, m.height - 1 - x);
      }
    }
    Extensionality(r, u);
  }

  /** The table is right: for every tag value 1 to 8, applying its transposes
      in order yields the upright picture that TIFF 6.0 describes. */
  lemma {:induction false} OperationsMakeUpright(img: Image, v: int)
    requires 1 <= v <= 8
    ensures Oriented(img, ORIENTATION_OPERATIONS[v]) == Upright(img, v)
  {
    var ops := ORIENTATION_OPERATIONS[v];
    if v == 1 {
      Extensionality(img, Upright(img, 1));
    } else if v == 5 || v == 7 {
      assert ops[..1] == [FlipLeftRight] && [FlipLeftRight][..0] == [];
      MirrorThenTurnUpright(img, v, ops[1]);
    } else {
      assert |ops| == 1 && ops[..0] == [];
      SingleTransposeUpright(img, v, ops[0]);
    }
  }
}
