/**
 * The checks an uploaded image passes before it is used, and the geometry
 * of the centred square crop that turns it into a `targetSize` square.
 * Reading the file and decoding the image are not part of this module:
 * the MIME type, the byte size and the image's natural size are inputs.
 */
module ImageUtils {

  const ImagePrefix: string := "image/"

  /** The MIME types the upload accepts. */
  const SupportedTypes: seq<string> := ["image/jpeg", "image/jpg", "image/png"]

  /** The size limit when the caller gives none, in megabytes. */
  const DefaultMaxSizeMB: real := 10.0

  /** The side of the output square when the caller gives none, in pixels. */
  const DefaultTargetSize: real := 128.0

  /** `isImageFile`: the MIME type starts with `image/`. */
  function IsImageFile(mime: string): (r: bool)
    ensures r <==> 6 <= |mime| && mime[..6] == "image/"
  {
    ImagePrefix <= mime
  }

  /** `isSupportedImageType`: the MIME type is one of the listed three. */
  function IsSupportedImageType(mime: string): (r: bool)
    ensures r <==> mime == "image/jpeg" || mime == "image/jpg" || mime == "image/png"
  {
    mime in SupportedTypes
  }

  /** `isValidFileSize`: the size in bytes is at most `maxSizeMB` mebibytes. */
  function IsValidFileSize(size: nat, maxSizeMB: real): bool {
    size as real <= maxSizeMB * 1024.0 * 1024.0
  }

  /** The source rectangle cut from the image, the destination rectangle on
      the output canvas and the canvas size. */
  datatype CropPlan = CropPlan(
    cropX: real, cropY: real, cropSize: real,
    destX: real, destY: real, destSize: real,
    canvasWidth: real, canvasHeight: real)

  function Min(a: real, b: real): real {
    if a <= b then a else b
  }

  /**
   * The arithmetic of `cropAndResizeImage` once the image has loaded: the
   * largest square that fits, centred in the image, drawn over the whole
   * `targetSize` square canvas.
   */
  function PlanCrop(width: nat, height: nat, targetSize: real): (p: CropPlan)
    ensures p.cropSize <= width as real && p.cropSize <= height as real
    ensures p.cropSize == width as real || p.cropSize == height as real
    ensures p.cropX == 0.0 || p.cropY == 0.0
    ensures p.canvasWidth == targetSize && p.canvasHeight == targetSize
    ensures p.destX == 0.0 && p.destY == 0.0 && p.destSize == targetSize
  {
    var cropSize := Min(width as real, height as real);
    CropPlan((width as real - cropSize) / 2.0, (height as real - cropSize) / 2.0, cropSize,
             0.0, 0.0, targetSize, targetSize, targetSize)
  }

  // ---------------------------------------------------------------------
  // Properties.

  /** Every supported type is also recognised as an image. */
  lemma SupportedIsImage(mime: string)
    requires IsSupportedImageType(mime)
    ensures IsImageFile(mime)
  {
    assert mime[..6] == "image/";
  }

  /** The converse fails: a GIF is an image, but not a supported one, and
      the check is case-sensitive. */
  lemma ImageButUnsupported()
    ensures IsImageFile("image/gif") && !IsSupportedImageType("image/gif")
    ensures !IsImageFile("IMAGE/PNG") && !IsSupportedImageType("IMAGE/PNG")
  {
    assert "image/gif"[..6] == "image/";
    assert "IMAGE/PNG"[0] != 'i';
  }

  /** With the default limit the bound is 10485760 bytes, inclusive. */
  lemma DefaultSizeLimit(size: nat)
    ensures IsValidFileSize(size, DefaultMaxSizeMB) <==> size <= 10485760
  {
    assert DefaultMaxSizeMB * 1024.0 * 1024.0 == 10485760.0;
  }

  /** A file that passes a limit passes every larger limit, and so does
      every smaller file. */
  lemma FileSizeMonotone(size: nat, smaller: nat, maxSizeMB: real, larger: real)
    requires IsValidFileSize(size, maxSizeMB) && smaller <= size && maxSizeMB <= larger
    ensures IsValidFileSize(smaller, larger)
  {
    var a, b := maxSizeMB * 1024.0, larger * 1024.0;
    assert a <= b;
    assert a * 1024.0 <= b * 1024.0;
  }

  /** The crop is centred: the margins on both sides of each axis are
      equal, and the square lies inside the image. */
  lemma CropCentredInside(width: nat, height: nat, targetSize: real)
    ensures var p := PlanCrop(width, height, targetSize);
      && 0.0 <= p.cropX && p.cropX + p.cropSize <= width as real
      && 0.0 <= p.cropY && p.cropY + p.cropSize <= height as real
      && p.cropX == width as real - (p.cropX + p.cropSize)
      && p.cropY == height as real - (p.cropY + p.cropSize)
  {
  }

  /** A square image is used whole. */
  lemma CropOfSquareIsWhole(side: nat, targetSize: real)
    ensures var p := PlanCrop(side, side, targetSize);
      p.cropX == 0.0 && p.cropY == 0.0 && p.cropSize == side as real
  {
  }

  /** Without a target size the output canvas is 128 by 128. */
  lemma DefaultTarget(width: nat, height: nat)
    ensures var p := PlanCrop(width, height, DefaultTargetSize);
      p.canvasWidth == 128.0 && p.canvasHeight == 128.0 && p.destSize == 128.0
  {
  }
}
