/**
 * `preview_gdk_pixbuf_from_image`: open the image, draw it into a new RGBA
 * image, shrink that to fit a `size × size` box, turn it upright when it is a
 * JPEG with a known orientation, and wrap its bytes in a GdkPixbuf.
 */
module Preview {
  import opened Raster
  import opened Orientation
  import opened Pixbuf

  /** The default `size` argument. */
  const DEFAULT_SIZE: nat := 64

  /** An image PIL has opened: its format name, its Exif tags and its pixels
      drawn into an RGBA image (`Image.new("RGBA", image.size)` and `paste`). */
  datatype Decoded = Decoded(format: string, exif: map<int, int>, pixels: Image)

  /** What the file at the path turns out to be when the preview is made. */
  datatype Source =
    | Unopenable              // `helpers.open_image_from_path` raises
    | Undecodable(raisesOSError: bool)  // it opens, but converting, shrinking or reading its Exif raises
    | Readable(image: Decoded)

  /** What `future.result()` yields for a preview job: the pixbuf, an
      `OSError`, a `CancelledError`, or any other exception. */
  datatype Outcome = Success(pixbuf: Pixbuf) | OSErr | Cancelled | OtherErr

  /** The preview of a readable image: shrunk by `scale` (PIL's
      `thumbnail([size, size], Image.BOX)`), turned upright, as a pixbuf. */
  function PreviewOf(image: Decoded, size: nat, scale: (Image, nat) -> Image): Pixbuf {
    FromImage(Oriented(scale(image.pixels, size), OperationsFor(image.format, image.exif)))
  }

  /** When opening fails the error is printed and `return pixbuf` then finds
      `pixbuf` unbound, which raises UnboundLocalError, not OSError. A failure
      after opening (reading the pixels, `paste` converting the mode,
      `getexif()`) escapes as the exception PIL raised: an OSError or another
      kind. */
  method PreviewGdkPixbufFromImage(source: Source, size: nat, scale: (Image, nat) -> Image)
    returns (r: Outcome)
    ensures source.Unopenable? ==> r == OtherErr
    ensures source.Undecodable? && source.raisesOSError ==> r == OSErr
    ensures source.Undecodable? && !source.raisesOSError ==> r == OtherErr
    ensures source.Readable? ==> r == Success(PreviewOf(source.image, size, scale))
    ensures r.Success? ==> r.pixbuf.colorspace == RGB && r.pixbuf.hasAlpha && r.pixbuf.bitsPerSample == 8
    ensures r.Success? ==> r.pixbuf.rowstride == 4 * r.pixbuf.width
    ensures r.Success? ==> |r.pixbuf.data| == r.pixbuf.rowstride * r.pixbuf.height
    ensures source.Readable? && FitsWithin(scale(source.image.pixels, size), size)
            ==> r.Success? && r.pixbuf.width <= size && r.pixbuf.height <= size
  {
    match source
    case Unopenable =>
      r := OtherErr;
    case Undecodable(raisesOSError) =>
      r := if raisesOSError then OSErr else OtherErr;
    case Readable(image) =>
      var thumb := scale(image.pixels, size);
      var imageRgba := thumb;
      var ops := OperationsFor(image.format, image.exif);
      var i := 0;
      while i < |ops|
        invariant 0 <= i <= |ops|
        invariant imageRgba == Oriented(thumb, ops[..i])
      {
        assert ops[..i + 1][..i] == ops[..i];
        imageRgba := Transposed(imageRgba, ops[i]);
        i := i + 1;
      }
      assert ops[..|ops|] == ops;
      if FitsWithin(thumb, size) {
        OrientedFits(thumb, ops, size);
      }
      r := Success(FromImage(imageRgba));
  }
}
