/**
 * The image backend as the request handler sees it: a loaded image handle
 * whose size, type and alpha flag the calls change, and a trace of every
 * call made on it. Pixel work is not modelled. Whether a call fails is the
 * backend's choice, and so is the size a scaling resize produces. The
 * calls that produce a given size (thumbnail, embed) deliver exactly that
 * size when they succeed. A text watermark without tiling can enlarge the
 * image to the size of its text mask; the other calls keep the size.
 */
module Backend {
  import opened Common
  import opened ResizePolicy
  import opened Watermark
  import opened Encode

  /** One backend call, with the size a scaling resize produced. */
  datatype Call =
    | ResizeCall(scale: real, width: int, height: int)
    | ResizeVScaleCall(scale: real, vscale: real, width: int, height: int)
    | ThumbnailCall(w: int, h: int, interest: Interesting, size: SizeMode)
    | EmbedCall(x: int, y: int, w: int, h: int, extend: ExtendStrategy)
    | EmbedBackgroundCall(x: int, y: int, w: int, h: int, color: Color)
    | AddAlphaCall
    | WatermarkCall(params: WatermarkParams)
    | BlurCall(sigma: real, minAmpl: real)
    | ExportCall(encoder: Encoder, format: ImageType)

  /** What the resize policy reads of an image handle between two calls. */
  datatype ImageState = ImageState(width: int, height: int, hasAlpha: bool)

  class ImageRef {
    var width: int
    var height: int
    var format: ImageType
    var hasAlpha: bool
    var calls: seq<Call>

    predicate Valid()
      reads this
    {
      width > 0 && height > 0
    }

    /** The current size and alpha flag. */
    function Snapshot(): ImageState
      reads this
    {
      ImageState(width, height, hasAlpha)
    }

    /** A freshly loaded image: its decoded size, type and alpha flag, and no calls yet. */
    constructor (width: int, height: int, format: ImageType, hasAlpha: bool)
      requires width > 0 && height > 0
      ensures Valid()
      ensures this.width == width && this.height == height
      ensures this.format == format && this.hasAlpha == hasAlpha && calls == []
    {
      this.width, this.height := width, height;
      this.format, this.hasAlpha := format, hasAlpha;
      calls := [];
    }

    /** Resize(scale, KernelLinear): a uniform scaling to a size of the backend's choosing. */
    method Resize(scale: real) returns (ok: bool)
      requires Valid()
      modifies this
      ensures Valid() && format == old(format) && hasAlpha == old(hasAlpha)
      ensures calls == old(calls) + [ResizeCall(scale, width, height)]
      ensures ok ==> scale > 0.0
      ensures !ok ==> width == old(width) && height == old(height)
    {
      ok := *;
      if scale <= 0.0 {
        ok := false;
      }
      if ok {
        var w: int :| w > 0;
        var h: int :| h > 0;
        width, height := w, h;
      }
      calls := calls + [ResizeCall(scale, width, height)];
    }

    /** ResizeWithVScale(scale, vscale, KernelLinear); a vscale of -1 scales both axes alike. */
    method ResizeWithVScale(scale: real, vscale: real) returns (ok: bool)
      requires Valid()
      modifies this
      ensures Valid() && format == old(format) && hasAlpha == old(hasAlpha)
      ensures calls == old(calls) + [ResizeVScaleCall(scale, vscale, width, height)]
      ensures ok ==> scale > 0.0
      ensures !ok ==> width == old(width) && height == old(height)
    {
      ok := *;
      if scale <= 0.0 {
        ok := false;
      }
      if ok {
        var w: int :| w > 0;
        var h: int :| h > 0;
        width, height := w, h;
      }
      calls := calls + [ResizeVScaleCall(scale, vscale, width, height)];
    }

    /** ThumbnailWithSize: resized and cropped to exactly w×h. */
    method ThumbnailWithSize(w: int, h: int, interest: Interesting, size: SizeMode) returns (ok: bool)
      requires Valid()
      modifies this
      ensures Valid() && format == old(format) && hasAlpha == old(hasAlpha)
      ensures calls == old(calls) + [ThumbnailCall(w, h, interest, size)]
      ensures ok ==> width == w && height == h
      ensures !ok ==> width == old(width) && height == old(height)
    {
      ok := *;
      if w <= 0 || h <= 0 {
        ok := false;
      }
      if ok {
        width, height := w, h;
      }
      calls := calls + [ThumbnailCall(w, h, interest, size)];
    }

    /** Embed: the image placed at (x, y) on a w×h canvas filled by the extend strategy. */
    method Embed(x: int, y: int, w: int, h: int, extend: ExtendStrategy) returns (ok: bool)
      requires Valid()
      modifies this
      ensures Valid() && format == old(format) && hasAlpha == old(hasAlpha)
      ensures calls == old(calls) + [EmbedCall(x, y, w, h, extend)]
      ensures ok ==> width == w && height == h
      ensures !ok ==> width == old(width) && height == old(height)
    {
      ok := *;
      if w <= 0 || h <= 0 {
        ok := false;
      }
      if ok {
        width, height := w, h;
      }
      calls := calls + [EmbedCall(x, y, w, h, extend)];
    }

    /** EmbedBackground: the image placed at (x, y) on a w×h canvas of one colour. */
    method EmbedBackground(x: int, y: int, w: int, h: int, color: Color) returns (ok: bool)
      requires Valid()
      modifies this
      ensures Valid() && format == old(format) && hasAlpha == old(hasAlpha)
      ensures calls == old(calls) + [EmbedBackgroundCall(x, y, w, h, color)]
      ensures ok ==> width == w && height == h
      ensures !ok ==> width == old(width) && height == old(height)
    {
      ok := *;
      if w <= 0 || h <= 0 {
        ok := false;
      }
      if ok {
        width, height := w, h;
      }
      calls := calls + [EmbedBackgroundCall(x, y, w, h, color)];
    }

    /**
     * AddAlpha: an alpha channel is added, the size is kept. An image that
     * already has one is returned as it is, so that call cannot fail.
     */
    method AddAlpha() returns (ok: bool)
      requires Valid()
      modifies this
      ensures Valid() && format == old(format) && width == old(width) && height == old(height)
      ensures calls == old(calls) + [AddAlphaCall]
      ensures hasAlpha == (old(hasAlpha) || ok)
      ensures old(hasAlpha) ==> ok
    {
      if hasAlpha {
        ok := true;
      } else {
        ok := *;
        if ok {
          hasAlpha := true;
        }
      }
      calls := calls + [AddAlphaCall];
    }

    /**
     * WaterMark: the text mask is blended over the image. A tiled mask is
     * cropped to the image, so the size is kept; an untiled mask keeps its
     * own size (the text plus the margin), and the blend enlarges the image
     * to it on any axis where the mask is larger.
     */
    method WaterMark(params: WatermarkParams) returns (ok: bool)
      requires Valid()
      modifies this
      ensures Valid() && format == old(format) && hasAlpha == old(hasAlpha)
      ensures width >= old(width) && height >= old(height)
      ensures !ok || !params.noReplicate ==> width == old(width) && height == old(height)
      ensures calls == old(calls) + [WatermarkCall(params)]
    {
      ok := *;
      if ok && params.noReplicate {
        var w: int :| w >= width;
        var h: int :| h >= height;
        width, height := w, h;
      }
      calls := calls + [WatermarkCall(params)];
    }

    /** GaussianBlur: the size is kept. */
    method GaussianBlur(sigma: real, minAmpl: real) returns (ok: bool)
      requires Valid()
      modifies this
      ensures Valid() && format == old(format) && hasAlpha == old(hasAlpha)
      ensures width == old(width) && height == old(height)
      ensures calls == old(calls) + [BlurCall(sigma, minAmpl)]
    {
      ok := *;
      calls := calls + [BlurCall(sigma, minAmpl)];
    }

    /**
     * Export with an encoder: the type of the encoded bytes is reported
     * back; an explicit encoder produces its own type, the native export
     * one of the backend's choosing.
     */
    method Export(encoder: Encoder) returns (ok: bool, encoded: ImageType)
      requires Valid()
      modifies this
      ensures Valid() && format == old(format) && hasAlpha == old(hasAlpha)
      ensures width == old(width) && height == old(height)
      ensures calls == old(calls) + [ExportCall(encoder, encoded)]
      ensures EncodedType(encoder).Some? ==> encoded == EncodedType(encoder).value
    {
      ok := *;
      encoded := *;
      if EncodedType(encoder).Some? {
        encoded := EncodedType(encoder).value;
      }
      calls := calls + [ExportCall(encoder, encoded)];
    }
  }
}
