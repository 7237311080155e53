/**
 * Choosing the output encoder from a format name, and the content type of
 * the encoded result.
 */
module Encode {
  import opened Common

  /** The image types the backend reports for a loaded or encoded image. */
  datatype ImageType =
    | Unknown | Gif | Jpeg | Magick | Pdf | Png | Svg | Tiff | Webp | Heif | Bmp | Avif | Jp2k

  /**
   * The backend's name for each image type, used as the default target
   * format and in the info response; an unknown type has no entry and
   * reads as the empty name.
   */
  function TypeName(t: ImageType): string {
    match t
    case Unknown => ""
    case Gif => "gif"
    case Jpeg => "jpeg"
    case Magick => "magick"
    case Pdf => "pdf"
    case Png => "png"
    case Svg => "svg"
    case Tiff => "tiff"
    case Webp => "webp"
    case Heif => "heif"
    case Bmp => "bmp"
    case Avif => "avif"
    case Jp2k => "jp2k"
  }

  datatype TiffCompression = TiffCompressionLzw
  datatype TiffPredictor = TiffPredictorHorizontal

  /** The export call and its parameters. */
  datatype Encoder =
    | JpegExport(quality: int, interlace: bool)
    | PngExport(compression: int, interlace: bool, palette: bool, quality: int)
    | WebpExport(quality: int, lossless: bool, nearLossless: bool, reductionEffort: int)
    | TiffExport(quality: int, tiffCompression: TiffCompression, predictor: TiffPredictor)
    | GifExport(quality: int)
    | NativeExport

  /**
   * vipEncode's choice: jpeg, png, webp, tiff and gif have their own
   * encoder with fixed secondary parameters and the configured quality;
   * any other name exports in the image's own format.
   */
  function VipEncode(targetFormat: string, quality: int): Encoder {
    if targetFormat == "jpeg" then JpegExport(quality, true)
    else if targetFormat == "png" then PngExport(6, false, false, quality)
    else if targetFormat == "webp" then WebpExport(quality, false, false, 4)
    else if targetFormat == "tiff" then TiffExport(quality, TiffCompressionLzw, TiffPredictorHorizontal)
    else if targetFormat == "gif" then GifExport(quality)
    else NativeExport
  }

  /** The type an explicit encoder produces; the native export's type is the backend's choice. */
  function EncodedType(e: Encoder): (t: Option<ImageType>)
    ensures t.None? <==> e.NativeExport?
  {
    match e
    case JpegExport(_, _) => Some(Jpeg)
    case PngExport(_, _, _, _) => Some(Png)
    case WebpExport(_, _, _, _) => Some(Webp)
    case TiffExport(_, _, _) => Some(Tiff)
    case GifExport(_) => Some(Gif)
    case NativeExport => None
  }

  /** GetMimeTypeByVipImageType: five types have their own MIME type, all others read as JPEG. */
  function MimeType(t: ImageType): (mime: string)
    ensures mime == "image/jpeg" <==> t !in {Png, Webp, Tiff, Gif, Svg}
  {
    match t
    case Png => "image/png"
    case Webp => "image/webp"
    case Tiff => "image/tiff"
    case Gif => "image/gif"
    case Svg => "image/svg+xml"
    case _ => "image/jpeg"
  }

  /** The five names with an encoder of their own. */
  predicate HasEncoder(name: string) {
    name in {"jpeg", "png", "webp", "tiff", "gif"}
  }

  /**
   * Asking for one of the five encoded formats yields an image of that
   * type, served with the MIME type "image/" + name; every other name goes
   * to the native export.
   */
  lemma EncoderMatchesName(name: string, quality: int)
    ensures HasEncoder(name) ==>
      && EncodedType(VipEncode(name, quality)).Some?
      && TypeName(EncodedType(VipEncode(name, quality)).value) == name
      && MimeType(EncodedType(VipEncode(name, quality)).value) == "image/" + name
    ensures !HasEncoder(name) <==> VipEncode(name, quality) == NativeExport
  {
  }

  /**
   * Without a format operation the target is the source type's name: a
   * source of one of the five encoded types is re-encoded as that type.
   */
  lemma SourceTypeKept(t: ImageType, quality: int)
    requires t in {Jpeg, Png, Webp, Tiff, Gif}
    ensures EncodedType(VipEncode(TypeName(t), quality)) == Some(t)
  {
  }

  /** The type names are distinct, so a name identifies its type. */
  lemma TypeNameInjective(a: ImageType, b: ImageType)
    requires TypeName(a) == TypeName(b)
    ensures a == b
  {
  }

  /**
   * A bitmap source without a format operation goes to the native export,
   * and an encoded result reported as a bitmap is labelled as JPEG.
   */
  lemma BmpServedAsJpeg()
    ensures VipEncode(TypeName(Bmp), 100) == NativeExport
    ensures MimeType(Bmp) == "image/jpeg"
  {
  }
}
