/**
 * The request handler: the descriptor is split into operations, an `info`
 * request answers with the source's metadata, the other operations run in
 * order on the image, and the result is encoded in the requested or the
 * source's format.
 */
module Handler {
  import opened Common
  import opened Descriptor
  import opened ResizeOptions
  import opened ResizePolicy
  import opened Watermark
  import opened Blur
  import opened Encode
  import opened Backend
  import opened GoConv

  /** What a successful request answers. */
  datatype Response =
    | Info(fileSize: int, format: string, imageHeight: int, imageWidth: int)
    | Encoded(mime: string, encoder: Encoder)

  /** The error for an unknown operation name, and for a request without operations. */
  const UnknownOpt := BadRequest("unknown opt", "unknown opt")

  /** The error for a `format` operation whose first option is empty. */
  const MissingFormat := BadRequest("PARAM_ERROR", "Missing required param: format")

  /** The operation names that are dispatched in sequence. */
  predicate IsKnown(name: string) {
    name == "resize" || name == "watermark" || name == "blur"
  }

  /**
   * parseFormatOpt: the first option is the target format name and must not
   * be empty; without any option the index is out of range.
   */
  function ParseFormatOpt(formatOpt: seq<string>): (r: Result<string>)
    ensures |formatOpt| == 0 ==> r == Err(IndexPanic)
    ensures |formatOpt| > 0 && formatOpt[0] == "" ==> r == Err(MissingFormat)
    ensures r.Ok? <==> |formatOpt| > 0 && formatOpt[0] != ""
    ensures r.Ok? ==> r.value == formatOpt[0]
  {
    if |formatOpt| == 0 then Err(IndexPanic)
    else if |formatOpt[0]| == 0 then Err(MissingFormat)
    else Ok(formatOpt[0])
  }

  /** The embed call of the pad mode for a background choice. */
  function EmbedFor(bg: Background, x: int, y: int, w: int, h: int): Call {
    match bg
    case Solid(c) => EmbedBackgroundCall(x, y, w, h, c)
    case Extend(e) => EmbedCall(x, y, w, h, e)
  }

  /**
   * The calls a resize plan issues and the error it ends with. A scaling
   * call records the size it produced; the pad embed is centred on that
   * size. A failed backend call ends the operation with a backend error.
   */
  predicate ResizeTrace(plan: ResizePlan, added: seq<Call>, err: Option<Error>) {
    match plan
    case NoOp => added == [] && err.None?
    case Fail(e) => added == [] && err == Some(e)
    case Resize(s) =>
      |added| == 1 && added[0].ResizeCall? && added[0].scale == s
      && (err.None? || err == Some(BackendError))
    case ResizeV(s) =>
      |added| == 1 && added[0].ResizeVScaleCall? && added[0].scale == s && added[0].vscale == -1.0
      && (err.None? || err == Some(BackendError))
    case Thumbnail(w, h, interest, size) =>
      added == [ThumbnailCall(w, h, interest, size)] && (err.None? || err == Some(BackendError))
    case Pad(s, w, h, bg) =>
      1 <= |added| <= 2 && added[0].ResizeVScaleCall? && added[0].scale == s && added[0].vscale == -1.0
      && (|added| == 1 ==> err == Some(BackendError) || (bg.None? && err == Some(ScanError)))
      && (|added| == 2 ==>
            && bg.Some?
            && added[1] == EmbedFor(bg.value, CenterOffset(w, added[0].width), CenterOffset(h, added[0].height), w, h)
            && (err.None? || err == Some(BackendError)))
  }

  /**
   * A pad that completes issues both calls, and when the scaled image fits
   * the canvas its embed offsets centre it inside: at most one pixel of
   * difference between the two margins on each axis.
   */
  lemma PadEmbedCentred(s: real, w: int, h: int, bg: Option<Background>, added: seq<Call>)
    requires ResizeTrace(Pad(s, w, h, bg), added, None)
    ensures |added| == 2 && bg.Some?
    ensures var x, y := CenterOffset(w, added[0].width), CenterOffset(h, added[0].height);
      && added[1] == EmbedFor(bg.value, x, y, w, h)
      && (0 <= added[0].width <= w ==> 0 <= x && 0 <= w - (x + added[0].width) - x <= 1)
      && (0 <= added[0].height <= h ==> 0 <= y && 0 <= h - (y + added[0].height) - y <= 1)
  {
  }

  /**
   * The size a successful plan leaves: the pad canvas or the thumbnail box
   * exactly, the size the scaling call produced for a plain resize, and the
   * original size when nothing is done.
   */
  predicate SizeAfter(plan: ResizePlan, width0: int, height0: int, added: seq<Call>, width: int, height: int) {
    && ((plan.Pad? || plan.Thumbnail?) ==> width == plan.w && height == plan.h)
    && ((plan.Resize? || plan.ResizeV?) && |added| == 1 && (added[0].ResizeCall? || added[0].ResizeVScaleCall?) ==>
          width == added[0].width && height == added[0].height)
    && (plan.NoOp? ==> width == width0 && height == height0)
  }

  /**
   * What carrying out a resize plan does to an image in state s0: the calls
   * of the plan, the alpha flag kept, and on success the size the plan
   * leaves.
   */
  predicate PlanEffect(plan: ResizePlan, s0: ImageState, added: seq<Call>, s1: ImageState, err: Option<Error>) {
    && ResizeTrace(plan, added, err)
    && s1.hasAlpha == s0.hasAlpha
    && (err.None? ==> SizeAfter(plan, s0.width, s0.height, added, s1.width, s1.height))
  }

  /** The effect of a `resize` operation: an option error touches nothing, otherwise the plan for s0. */
  predicate ResizeEffect(opts: seq<string>, s0: ImageState, added: seq<Call>, s1: ImageState, err: Option<Error>)
    requires s0.width > 0 && s0.height > 0
  {
    match Normalize(ReadTokens(opts))
    case Err(e) => err == Some(e) && added == [] && s1 == s0
    case Ok(o) => PlanEffect(Plan(o, s0.width, s0.height, s0.hasAlpha), s0, added, s1, err)
  }

  /**
   * The effect of a `watermark` operation: an option or colour error
   * touches nothing; otherwise AddAlpha, and when that succeeds the
   * watermark with the mapped parameters. The image then has alpha and is
   * at least as large as before, and it keeps its size when the watermark
   * failed or the text is tiled.
   */
  predicate WatermarkEffect(opts: seq<string>, decode: string -> Option<seq<byte>>,
                            s0: ImageState, added: seq<Call>, s1: ImageState, err: Option<Error>) {
    match RequireText(ReadWatermarkTokens(opts, decode))
    case Err(e) => err == Some(e) && added == [] && s1 == s0
    case Ok(o) =>
      match ScanColor(o.color)
      case None => err == Some(ScanError) && added == [] && s1 == s0
      case Some(c) =>
        var p := Params(o, c);
        || (added == [AddAlphaCall] && err == Some(BackendError) && s1 == s0 && !s0.hasAlpha)
        || (&& added == [AddAlphaCall, WatermarkCall(p)]
            && (err.None? || err == Some(BackendError))
            && s1.hasAlpha
            && s1.width >= s0.width && s1.height >= s0.height
            && (err.Some? || !p.noReplicate ==> s1.width == s0.width && s1.height == s0.height))
  }

  /** The effect of a `blur` operation: an option error touches nothing, otherwise one blur. */
  predicate BlurEffect(opts: seq<string>, parseFloat: string -> Option<real>,
                       s0: ImageState, added: seq<Call>, s1: ImageState, err: Option<Error>) {
    match BlurParams(ReadBlurTokens(opts, parseFloat))
    case Err(e) => err == Some(e) && added == [] && s1 == s0
    case Ok((sigma, minAmpl)) =>
      added == [BlurCall(sigma, minAmpl)] && (err.None? || err == Some(BackendError)) && s1 == s0
  }

  /**
   * The effect of one pass of the dispatch loop on an image in state s0:
   * the calls `added`, the state s1 it leaves and the error it ends with.
   * An unknown name fails without touching the image.
   */
  predicate OpEffect(op: Operation, s0: ImageState, added: seq<Call>, s1: ImageState, err: Option<Error>,
                     decode: string -> Option<seq<byte>>, parseFloat: string -> Option<real>) {
    && s0.width > 0 && s0.height > 0
    && if op.name == "resize" then ResizeEffect(op.opt, s0, added, s1, err)
       else if op.name == "watermark" then WatermarkEffect(op.opt, decode, s0, added, s1, err)
       else if op.name == "blur" then BlurEffect(op.opt, parseFloat, s0, added, s1, err)
       else err == Some(UnknownOpt) && added == [] && s1 == s0
  }

  /**
   * The `resize` branch of the dispatch loop: the calls of the plan for the
   * image's current size, in order, stopping at the first failure.
   */
  method ApplyResize(opt: ResizeOpt, img: ImageRef) returns (err: Option<Error>)
    requires img.Valid()
    modifies img
    ensures img.Valid() && img.format == old(img.format)
    ensures |img.calls| >= |old(img.calls)| && img.calls[..|old(img.calls)|] == old(img.calls)
    ensures PlanEffect(Plan(opt, old(img.width), old(img.height), old(img.hasAlpha)),
                       old(img.Snapshot()), img.calls[|old(img.calls)|..], img.Snapshot(), err)
  {
    ghost var before := img.calls;
    var plan := Plan(opt, img.width, img.height, img.hasAlpha);
    var ok := true;
    err := None;
    match plan {
      case NoOp =>
      case Fail(e) =>
        err := Some(e);
      case Resize(s) =>
        ok := img.Resize(s);
      case ResizeV(s) =>
        ok := img.ResizeWithVScale(s, -1.0);
      case Thumbnail(w, h, interest, size) =>
        ok := img.ThumbnailWithSize(w, h, interest, size);
      case Pad(s, w, h, bg) =>
        ok := img.ResizeWithVScale(s, -1.0);
        if ok {
          ghost var resized := img.calls;
          var x := CenterOffset(w, img.width);
          var y := CenterOffset(h, img.height);
          match bg {
            case None =>
              err := Some(ScanError);
            case Some(Solid(c)) =>
              ok := img.EmbedBackground(x, y, w, h, c);
            case Some(Extend(e)) =>
              ok := img.Embed(x, y, w, h, e);
          }
          assert img.calls[|before|..] == resized[|before|..] + img.calls[|resized|..];
        }
    }
    if !ok {
      err := Some(BackendError);
    }
  }

  /**
   * The `watermark` branch: options, colour, AddAlpha, then the watermark
   * itself, stopping at the first failure.
   */
  method ApplyWatermark(opts: seq<string>, img: ImageRef, decode: string -> Option<seq<byte>>)
    returns (err: Option<Error>)
    requires img.Valid()
    modifies img
    ensures img.Valid() && img.format == old(img.format)
    ensures |img.calls| >= |old(img.calls)| && img.calls[..|old(img.calls)|] == old(img.calls)
    ensures WatermarkEffect(opts, decode, old(img.Snapshot()), img.calls[|old(img.calls)|..], img.Snapshot(), err)
  {
    var parsed := ParseWatermarkOpt(opts, decode);
    if parsed.Err? {
      return Some(parsed.error);
    }
    var o := parsed.value;
    var color := ScanColor(o.color);
    if color.None? {
      return Some(ScanError);
    }
    var params := Params(o, color.value);
    var ok := img.AddAlpha();
    if !ok {
      return Some(BackendError);
    }
    ok := img.WaterMark(params);
    if !ok {
      return Some(BackendError);
    }
    return None;
  }

  /** The `blur` branch: options, then one Gaussian blur. */
  method ApplyBlur(opts: seq<string>, img: ImageRef, parseFloat: string -> Option<real>)
    returns (err: Option<Error>)
    requires img.Valid()
    modifies img
    ensures img.Valid() && img.format == old(img.format)
    ensures |img.calls| >= |old(img.calls)| && img.calls[..|old(img.calls)|] == old(img.calls)
    ensures BlurEffect(opts, parseFloat, old(img.Snapshot()), img.calls[|old(img.calls)|..], img.Snapshot(), err)
  {
    var parsed := ParseBlurOpt(opts, parseFloat);
    if parsed.Err? {
      return Some(parsed.error);
    }
    var ok := img.GaussianBlur(parsed.value.0, parsed.value.1);
    if !ok {
      return Some(BackendError);
    }
    return None;
  }

  /** One pass of the dispatch loop, chosen by the operation's name. */
  method ApplyOperation(op: Operation, img: ImageRef, decode: string -> Option<seq<byte>>,
                        parseFloat: string -> Option<real>)
    returns (err: Option<Error>)
    requires img.Valid()
    modifies img
    ensures img.Valid() && img.format == old(img.format)
    ensures |img.calls| >= |old(img.calls)| && img.calls[..|old(img.calls)|] == old(img.calls)
    ensures OpEffect(op, old(img.Snapshot()), img.calls[|old(img.calls)|..], img.Snapshot(), err, decode, parseFloat)
  {
    if op.name == "resize" {
      var opt := ParseResizeOpt(op.opt);
      if opt.Err? {
        return Some(opt.error);
      }
      err := ApplyResize(opt.value, img);
    } else if op.name == "watermark" {
      err := ApplyWatermark(op.opt, img, decode);
    } else if op.name == "blur" {
      err := ApplyBlur(op.opt, img, parseFloat);
    } else {
      err := Some(UnknownOpt);
    }
  }

  /** The calls of consecutive operations, one after the other. */
  function Concat(traces: seq<seq<Call>>): seq<Call> {
    if |traces| == 0 then [] else Concat(traces[..|traces| - 1]) + traces[|traces| - 1]
  }

  lemma ConcatAppend(traces: seq<seq<Call>>, t: seq<Call>)
    ensures Concat(traces + [t]) == Concat(traces) + t
  {
    assert (traces + [t])[..|traces|] == traces;
  }

  /**
   * The first |traces| operations ran one after the other: operation k
   * started in states[k], issued traces[k] and left states[k + 1]. Every
   * operation but the last ended without error; the last ended with `last`.
   */
  predicate StepsHold(ops: seq<Operation>, states: seq<ImageState>, traces: seq<seq<Call>>, last: Option<Error>,
                      decode: string -> Option<seq<byte>>, parseFloat: string -> Option<real>) {
    && |states| == |traces| + 1
    && |traces| <= |ops|
    && forall k :: 0 <= k < |traces| ==> Step(ops, states, traces, last, decode, parseFloat, k)
  }

  /** Step k of a run: operation k took states[k] to states[k + 1] issuing traces[k]. */
  predicate Step(ops: seq<Operation>, states: seq<ImageState>, traces: seq<seq<Call>>, last: Option<Error>,
                 decode: string -> Option<seq<byte>>, parseFloat: string -> Option<real>, k: int)
    requires 0 <= k < |traces| && |states| == |traces| + 1 && |traces| <= |ops|
  {
    OpEffect(ops[k], states[k], traces[k], states[k + 1], if k == |traces| - 1 then last else None,
             decode, parseFloat)
  }

  /**
   * A completed run of the dispatch loop: the operations ran in order, each
   * on the state the previous one left; either all of them ran without
   * error, or the run stopped right after the first that failed.
   */
  predicate RunTrace(ops: seq<Operation>, states: seq<ImageState>, traces: seq<seq<Call>>, err: Option<Error>,
                     decode: string -> Option<seq<byte>>, parseFloat: string -> Option<real>) {
    && StepsHold(ops, states, traces, err, decode, parseFloat)
    && (err.None? ==> |traces| == |ops|)
    && (err.Some? ==> |traces| > 0)
  }

  /** One more operation that ran on the state the previous ones left. */
  lemma StepsExtend(ops: seq<Operation>, states: seq<ImageState>, traces: seq<seq<Call>>,
                    s: ImageState, t: seq<Call>, e: Option<Error>,
                    decode: string -> Option<seq<byte>>, parseFloat: string -> Option<real>)
    requires StepsHold(ops, states, traces, None, decode, parseFloat) && |traces| < |ops|
    requires OpEffect(ops[|traces|], states[|traces|], t, s, e, decode, parseFloat)
    ensures StepsHold(ops, states + [s], traces + [t], e, decode, parseFloat)
  {
    var states', traces' := states + [s], traces + [t];
    forall k | 0 <= k < |traces'|
      ensures Step(ops, states', traces', e, decode, parseFloat, k)
    {
      if k < |traces| {
        assert Step(ops, states, traces, None, decode, parseFloat, k);
        assert states'[k] == states[k] && states'[k + 1] == states[k + 1] && traces'[k] == traces[k];
      }
    }
  }

  /**
   * An unknown name stops the run: nothing after it runs, and when the run
   * reaches it, it fails with "unknown opt" and issues no call.
   */
  lemma RunStopsAtUnknown(ops: seq<Operation>, states: seq<ImageState>, traces: seq<seq<Call>>, err: Option<Error>,
                          decode: string -> Option<seq<byte>>, parseFloat: string -> Option<real>, j: int)
    requires RunTrace(ops, states, traces, err, decode, parseFloat) && 0 <= j < |ops|
    ensures !IsKnown(ops[j].name) ==>
      && |traces| <= j + 1
      && (|traces| == j + 1 ==> err == Some(UnknownOpt) && traces[j] == [] && states[j + 1] == states[j])
  {
    if j < |traces| {
      assert Step(ops, states, traces, err, decode, parseFloat, j);
    }
  }

  /** A run that ends without error met only known names. */
  lemma RunCompleteAllKnown(ops: seq<Operation>, states: seq<ImageState>, traces: seq<seq<Call>>, err: Option<Error>,
                            decode: string -> Option<seq<byte>>, parseFloat: string -> Option<real>)
    requires RunTrace(ops, states, traces, err, decode, parseFloat)
    ensures err.None? ==> forall k :: 0 <= k < |ops| ==> IsKnown(ops[k].name)
  {
    forall k | 0 <= k < |ops|
      ensures err.None? ==> IsKnown(ops[k].name)
    {
      RunStopsAtUnknown(ops, states, traces, err, decode, parseFloat, k);
    }
  }

  /** An unknown first name fails before any call. */
  lemma FirstUnknownFails(ops: seq<Operation>, states: seq<ImageState>, traces: seq<seq<Call>>, err: Option<Error>,
                          decode: string -> Option<seq<byte>>, parseFloat: string -> Option<real>)
    requires RunTrace(ops, states, traces, err, decode, parseFloat)
    ensures |ops| > 0 && !IsKnown(ops[0].name) ==> err == Some(UnknownOpt) && Concat(traces) == []
  {
    if |ops| > 0 {
      RunStopsAtUnknown(ops, states, traces, err, decode, parseFloat, 0);
      if |traces| == 1 {
        assert traces[..0] == [];
      }
    }
  }

  /**
   * The target format: the first option of the held-aside `format`
   * operation, otherwise the source type's name.
   */
  function TargetFormat(formatOperation: Option<Operation>, source: ImageType): (r: Result<string>)
    ensures formatOperation.None? ==> r == Ok(TypeName(source))
    ensures formatOperation.Some? ==> r == ParseFormatOpt(formatOperation.value.opt)
  {
    match formatOperation
    case None => Ok(TypeName(source))
    case Some(f) => ParseFormatOpt(f.opt)
  }

  /**
   * The dispatch loop: the operations in order, each on the image the
   * previous one left, stopping at the first error. `states` and `traces`
   * record the state before and after each operation and the calls each
   * issued.
   */
  method RunOperations(operations: seq<Operation>, img: ImageRef, decode: string -> Option<seq<byte>>,
                       parseFloat: string -> Option<real>)
    returns (err: Option<Error>, ghost states: seq<ImageState>, ghost traces: seq<seq<Call>>)
    requires img.Valid()
    modifies img
    ensures img.Valid() && img.format == old(img.format)
    ensures img.calls == old(img.calls) + Concat(traces)
    ensures |states| > 0 && states[0] == old(img.Snapshot()) && states[|states| - 1] == img.Snapshot()
    ensures RunTrace(operations, states, traces, err, decode, parseFloat)
    ensures err.None? ==> forall k :: 0 <= k < |operations| ==> IsKnown(operations[k].name)
    ensures |operations| > 0 && !IsKnown(operations[0].name) ==>
      err == Some(UnknownOpt) && img.calls == old(img.calls)
  {
    states := [img.Snapshot()];
    traces := [];
    for i := 0 to |operations|
      invariant img.Valid() && img.format == old(img.format)
      invariant |traces| == i && |states| == i + 1
      invariant img.calls == old(img.calls) + Concat(traces)
      invariant states[0] == old(img.Snapshot()) && states[i] == img.Snapshot()
      invariant StepsHold(operations, states, traces, None, decode, parseFloat)
    {
      ghost var before := img.calls;
      err := ApplyOperation(operations[i], img, decode, parseFloat);
      ghost var added := img.calls[|before|..];
      assert img.calls == before + added;
      StepsExtend(operations, states, traces, img.Snapshot(), added, err, decode, parseFloat);
      ConcatAppend(traces, added);
      states := states + [img.Snapshot()];
      traces := traces + [added];
      if err.Some? {
        RunCompleteAllKnown(operations, states, traces, err, decode, parseFloat);
        FirstUnknownFails(operations, states, traces, err, decode, parseFloat);
        return;
      }
    }
    err := None;
    RunCompleteAllKnown(operations, states, traces, err, decode, parseFloat);
    FirstUnknownFails(operations, states, traces, err, decode, parseFloat);
  }

  /**
   * The encoding step's effect: a bad format fails with no call; otherwise
   * exactly one export with vipEncode's encoder for the target, the encoded
   * type being the encoder's own for the five explicit encoders, and the
   * MIME type following the encoded type.
   */
  predicate Encoding(formatOperation: Option<Operation>, source: ImageType, quality: int,
                     added: seq<Call>, r: Result<Response>) {
    match TargetFormat(formatOperation, source)
    case Err(e) => r == Err(e) && added == []
    case Ok(target) =>
      var encoder := VipEncode(target, quality);
      && |added| == 1 && added[0].ExportCall? && added[0].encoder == encoder
      && (EncodedType(encoder).Some? ==> added[0].format == EncodedType(encoder).value)
      && (r.Ok? ==> r == Ok(Encoded(MimeType(added[0].format), encoder)))
      && (r.Err? ==> r == Err(BackendError))
  }

  /** The encoding step: the target format chosen, then one export. */
  method EncodeImage(formatOperation: Option<Operation>, img: ImageRef, quality: int)
    returns (r: Result<Response>)
    requires img.Valid()
    modifies img
    ensures img.Valid() && img.format == old(img.format) && img.Snapshot() == old(img.Snapshot())
    ensures |img.calls| >= |old(img.calls)| && img.calls[..|old(img.calls)|] == old(img.calls)
    ensures Encoding(formatOperation, old(img.format), quality, img.calls[|old(img.calls)|..], r)
  {
    var target := TargetFormat(formatOperation, img.format);
    if target.Err? {
      return Err(target.error);
    }
    var encoder := VipEncode(target.value, quality);
    var ok, encoded := img.Export(encoder);
    if !ok {
      return Err(BackendError);
    }
    return Ok(Encoded(MimeType(encoded), encoder));
  }

  /**
   * What follows the `info` check: the dispatch run, and when it ended
   * without error, the encoding, whose calls are `exported`.
   */
  predicate Handled(operations: seq<Operation>, formatOperation: Option<Operation>, source: ImageType, quality: int,
                    states: seq<ImageState>, traces: seq<seq<Call>>, runErr: Option<Error>, exported: seq<Call>,
                    r: Result<Response>, decode: string -> Option<seq<byte>>, parseFloat: string -> Option<real>) {
    && RunTrace(operations, states, traces, runErr, decode, parseFloat)
    && (runErr.Some? ==> r == Err(runErr.value) && exported == [])
    && (runErr.None? ==> Encoding(formatOperation, source, quality, exported, r))
  }

  /**
   * A successful answer: every operation ran with a known name and without
   * error, the target format was valid, and the last call exported the
   * image with vipEncode's encoder for it, the MIME type following the
   * encoded type.
   */
  lemma SuccessRanEverything(operations: seq<Operation>, formatOperation: Option<Operation>, source: ImageType,
                             quality: int, states: seq<ImageState>, traces: seq<seq<Call>>, runErr: Option<Error>,
                             exported: seq<Call>, r: Result<Response>,
                             decode: string -> Option<seq<byte>>, parseFloat: string -> Option<real>)
    requires Handled(operations, formatOperation, source, quality, states, traces, runErr, exported, r, decode, parseFloat)
    requires r.Ok?
    ensures runErr.None? && |traces| == |operations|
    ensures forall k :: 0 <= k < |operations| ==> IsKnown(operations[k].name)
    ensures TargetFormat(formatOperation, source).Ok?
    ensures |exported| == 1 && exported[0].ExportCall?
    ensures exported[0].encoder == VipEncode(TargetFormat(formatOperation, source).value, quality)
    ensures r == Ok(Encoded(MimeType(exported[0].format), exported[0].encoder))
  {
    RunCompleteAllKnown(operations, states, traces, runErr, decode, parseFloat);
  }

  method Process(operations: seq<Operation>, formatOperation: Option<Operation>, img: ImageRef, quality: int,
                 decode: string -> Option<seq<byte>>, parseFloat: string -> Option<real>)
    returns (r: Result<Response>, ghost states: seq<ImageState>, ghost traces: seq<seq<Call>>,
             ghost runErr: Option<Error>, ghost exported: seq<Call>)
    requires img.Valid()
    modifies img
    ensures img.Valid() && img.format == old(img.format)
    ensures |states| > 0 && states[0] == old(img.Snapshot())
    ensures img.calls == old(img.calls) + Concat(traces) + exported
    ensures |img.calls| >= |old(img.calls)| && img.calls[..|old(img.calls)|] == old(img.calls)
    ensures Handled(operations, formatOperation, old(img.format), quality, states, traces, runErr, exported, r,
                    decode, parseFloat)
  {
    var err;
    err, states, traces := RunOperations(operations, img, decode, parseFloat);
    runErr, exported := err, [];
    if err.Some? {
      return Err(err.value), states, traces, runErr, exported;
    }
    ghost var ran := img.calls;
    r := EncodeImage(formatOperation, img, quality);
    exported := img.calls[|ran|..];
    assert img.calls == ran + exported;
  }

  /**
   * The handler once the descriptor is split: `info` answers the source's
   * metadata, nothing collected is "unknown opt", and otherwise the
   * operations run and the result is encoded.
   */
  method Respond(operations: seq<Operation>, formatOperation: Option<Operation>, isInfo: bool,
                 img: ImageRef, fileSize: int, quality: int,
                 decode: string -> Option<seq<byte>>, parseFloat: string -> Option<real>)
    returns (r: Result<Response>, ghost states: seq<ImageState>, ghost traces: seq<seq<Call>>,
             ghost runErr: Option<Error>, ghost exported: seq<Call>)
    requires img.Valid()
    modifies img
    ensures img.Valid() && img.format == old(img.format)
    ensures |img.calls| >= |old(img.calls)| && img.calls[..|old(img.calls)|] == old(img.calls)
    ensures isInfo ==>
      r == Ok(Info(fileSize, TypeName(old(img.format)), old(img.height), old(img.width))) && img.calls == old(img.calls)
    ensures !isInfo && |operations| == 0 && formatOperation.None? ==>
      r == Err(UnknownOpt) && img.calls == old(img.calls)
    ensures !isInfo && (|operations| > 0 || formatOperation.Some?) ==>
      && |states| > 0 && states[0] == old(img.Snapshot())
      && img.calls == old(img.calls) + Concat(traces) + exported
      && Handled(operations, formatOperation, old(img.format), quality, states, traces, runErr, exported, r,
                 decode, parseFloat)
  {
    states, traces, runErr, exported := [img.Snapshot()], [], None, [];
    if isInfo {
      return Ok(Info(fileSize, TypeName(img.format), img.height, img.width)), states, traces, runErr, exported;
    }
    if |operations| == 0 && formatOperation.None? {
      return Err(UnknownOpt), states, traces, runErr, exported;
    }
    r, states, traces, runErr, exported := Process(operations, formatOperation, img, quality, decode, parseFloat);
  }

  /**
   * ImageHandler on a loaded image. `fileSize` is the length of the request
   * body, `quality` the configured encoder quality, `decode` the watermark
   * text decoder and `parseFloat` the float parser. `dispatched`, `target`
   * and `info` are what the descriptor splits into; the other ghost results
   * describe the dispatch run and the export as `Handled` does.
   */
  method ImageHandler(processOpt: string, img: ImageRef, fileSize: int, quality: int,
                      decode: string -> Option<seq<byte>>, parseFloat: string -> Option<real>)
    returns (r: Result<Response>, ghost dispatched: seq<Operation>, ghost target: Option<Operation>,
             ghost info: bool, ghost states: seq<ImageState>, ghost traces: seq<seq<Call>>,
             ghost runErr: Option<Error>, ghost exported: seq<Call>)
    requires img.Valid()
    modifies img
    ensures img.Valid() && img.format == old(img.format)
    ensures |img.calls| >= |old(img.calls)| && img.calls[..|old(img.calls)|] == old(img.calls)
    ensures dispatched == Dispatchable(ParseAll(Segments(processOpt)))
    ensures target == LastFormat(ParseAll(Segments(processOpt)))
    ensures info == HasInfo(ParseAll(Segments(processOpt)))
    ensures info ==>
      r == Ok(Info(fileSize, TypeName(old(img.format)), old(img.height), old(img.width))) && img.calls == old(img.calls)
    ensures !info && |dispatched| == 0 && target.None? ==>
      r == Err(UnknownOpt) && img.calls == old(img.calls)
    ensures !info && (|dispatched| > 0 || target.Some?) ==>
      && |states| > 0 && states[0] == old(img.Snapshot())
      && img.calls == old(img.calls) + Concat(traces) + exported
      && Handled(dispatched, target, old(img.format), quality, states, traces, runErr, exported, r, decode, parseFloat)
  {
    var operations, formatOperation, isInfo := CollectOperations(processOpt);
    dispatched, target, info := operations, formatOperation, isInfo;
    r, states, traces, runErr, exported :=
      Respond(operations, formatOperation, isInfo, img, fileSize, quality, decode, parseFloat);
  }
}
