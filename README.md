# go-image-process: the image request handler in Dafny

This project models the request handler of go-image-process, an HTTP service
that applies an Alibaba Cloud OSS style `x-oss-process` descriptor to an
uploaded image. The handler works in five steps:

1. It removes every `image/` from the descriptor and splits the rest on `/`
   into operations, and each operation on `,` into a name and its
   `key_value` tokens.
2. It answers an `info` request with the size, type and byte length of the
   source image.
3. It runs `resize`, `watermark` and `blur` operations, in order, on the
   image handle. Any other name is an error.
4. It encodes the result in the format of the last `format` operation, or
   in the source's own format.
5. It labels the output with the MIME type of the encoded image.

The model is organised as follows:

- The option parsers are loops proved against folds over the token list
  (`ReadTokens`, `ReadWatermarkTokens`, `ReadBlurTokens`).
- The resize decision is a pure function `Plan` from the options and the
  source size to the backend calls it needs. There is one lemma per mode.
- The image handle is a class, `Backend.ImageRef`. It records every backend
  call in a trace.
- The handler methods state their effect as a trace of calls appended to
  the handle. The dispatch loop is specified by `RunTrace`: the operations
  run in order, each on the size and alpha flag the previous one left, and
  the run stops right after the first failure.

Go's library behaviour is written out where the handler depends on it:

- `strings.ReplaceAll` with an empty replacement is a single left-to-right
  pass.
- `strings.Split` always yields at least one piece.
- `strconv.Atoi` gives 0 on malformed text, unless the digits before the
  first non-digit have already overflowed. It clamps out-of-range numerals
  to the 64-bit bounds, and an overflow that comes first clamps as well.
- The `%02x%02x%02x` scan reads one or two hex digits per byte.
- The `%d` formatting of the font size is written out.
- Go's truncating int conversion is used for the embed offsets.
- The watermark rotation uses 64-bit wrap-around.

Base64 decoding and `strconv.ParseFloat` are parameters of the model. The
image backend (libvips) is abstract:

- Whether a call fails is the backend's choice.
- So is the size a scaling resize produces.
- A thumbnail or an embed that succeeds has exactly the requested size.
- A call with a non-positive size or scale fails.
- AddAlpha and the blur keep the size. AddAlpha on an image that already has
  an alpha channel succeeds at once.
- A tiled watermark (`fill_1`) keeps the size. An untiled one can enlarge
  the image to the size of its text mask, so the new size is the backend's
  choice, never smaller than before.

Behaviour of the code worth noting:

- Watermark text is decoded as unpadded base64, so `=` padding is rejected.
- An empty descriptor or an empty segment gives the operation name `""`,
  which is an unknown operation.
- `parseResizeOpt` accepts negative values. `resize,w_-5,p_50` therefore
  passes the "all zero" check, has no positive size, and reaches the
  percent branch, which halves the image (`ResizePolicy.PercentBranchReachable`).
  After parsing, `p`, `l` and `s` are only non-positive when `w` or `h` is
  positive, not zero.
- A `format` operation without options indexes an empty slice, which
  panics in Go. The model returns the distinct error `IndexPanic`.
- The "no operations and no format" check can never fire. A descriptor
  always has at least one segment, and if every segment is `info`, the
  handler has already answered (`Descriptor.SomethingCollected`).
- `mfit` scales by the larger ratio, so the result covers the target box
  rather than fitting inside it (`ResizePolicy.MfitCoversBox`).

## Model

| member | source | states |
|---|---|---|
| GoStrings.RemoveAll | internal/service/image.go:72 | `strings.ReplaceAll(s, pat, "")` never lengthens the text |
| GoStrings.RemoveAllAbsent | internal/service/image.go:72 | text that does not contain the pattern is returned unchanged |
| GoStrings.RemoveAllKey | internal/service/image.go:328-329 | removing the key from `key + v` gives back `v` when `v` does not contain the key (how every token value is extracted) |
| GoStrings.RemoveAllIsSinglePass | internal/service/image.go:72 | removal is one pass: `imimage/age/` becomes `image/`, which still contains the prefix |
| GoStrings.Split | internal/service/image.go:72 | `strings.Split` yields at least one piece, and no piece contains the separator |
| GoStrings.JoinSplit | internal/service/image.go:72 | joining the pieces of a split restores the text |
| GoStrings.SplitPrefix | internal/service/image.go:75 | splitting `a + t` with `a` separator-free extends the first piece of `t` by `a` and keeps the other pieces |
| GoStrings.SplitJoin | internal/service/image.go:75 | splitting joined separator-free pieces restores the pieces |
| GoConv.DigitValue | internal/service/image.go:338 | a decimal digit's value is below 10 |
| GoConv.DigitChar | internal/service/image.go:264 | the digit character of a value below 10 is a digit that reads back as that value |
| GoConv.Pow10 | internal/service/image.go:338 | a proof step with no behaviour of its own: powers of ten are positive |
| GoConv.ScanUint | internal/service/image.go:338 | a completed digit scan stays within the unsigned 64-bit range and saw only digits |
| GoConv.Atoi | internal/service/image.go:338 | `strconv.Atoi` yields a value in the int64 range and succeeds only on a numeral |
| GoConv.NatToDecimal | internal/service/image.go:264 | the decimal form of a natural number is a non-empty run of digits |
| GoConv.ScanAppend | internal/service/image.go:338 | scanning a concatenation is scanning its first part, then the second from where the first left off |
| GoConv.ScanDecimal | internal/service/image.go:338 | scanning the decimal digits of a 64-bit value gives that value |
| GoConv.AtoiItoa | internal/service/image.go:264 | `Atoi` reads back what `%d` writes, for every int64 |
| GoConv.ScanStopsAtNonDigit | internal/service/image.go:338 | a non-digit reached before any overflow is a syntax error |
| GoConv.MulLe | internal/service/image.go:338 | a proof step of the `Atoi` overflow bound, with no behaviour of its own: multiplying by a natural keeps the order |
| GoConv.Pow10Of19 | internal/service/image.go:338 | a proof step of the `Atoi` overflow bound, with no behaviour of its own: the value of 10^19 |
| GoConv.Pow10Monotone | internal/service/image.go:338 | a proof step of the `Atoi` overflow bound, with no behaviour of its own: powers of ten grow with the exponent |
| GoConv.AtoiMalformed | internal/service/image.go:338 | malformed text of at most 20 characters reads as 0, the value the service keeps |
| GoConv.FirstNonDigit | internal/service/image.go:338 | a text with a non-digit has a first non-digit, preceded only by digits |
| GoConv.HexValue | internal/service/image.go:149 | a hex digit's value is below 16 |
| GoConv.ScanHexByte | internal/service/image.go:149 | one `%02x` verb succeeds exactly on a leading hex digit and consumes one or two characters |
| GoConv.HexChar | internal/service/image.go:149 | the lower-case hex digit of a value below 16 reads back as that value |
| GoConv.HexColor | internal/service/image.go:149 | the `rrggbb` text of a colour has six characters |
| GoConv.ScanHexColor | internal/service/image.go:149-157 | the colour scan reads back the `rrggbb` text of every colour, whatever follows it |
| GoConv.ScanColorNeedsThreeDigits | internal/service/image.go:149-152 | the scan fails on text shorter than three characters or not starting with a hex digit |
| Descriptor.Segments | internal/service/image.go:72 | the descriptor splits into at least one segment, none containing `/` |
| Descriptor.ParseSegment | internal/service/image.go:75-80 | a segment parses into a name and tokens free of `,` whose joined form is the segment |
| Descriptor.ParseSerialize | internal/service/image.go:75-80 | parsing inverts serializing, for names and tokens free of `,` |
| Descriptor.ParseAll | internal/service/image.go:74-80 | every segment is parsed, in order |
| Descriptor.Dispatchable | internal/service/image.go:81-87 | no dispatched operation is named `info` or `format`, and there are at most as many as were parsed |
| Descriptor.LastFormat | internal/service/image.go:83-84 | the held-aside operation is a `format` operation |
| Descriptor.LastFormatIsLast | internal/service/image.go:83-84 | the held-aside format operation is absent exactly when there is no `format` operation, and otherwise is one with no `format` operation after it |
| Descriptor.ParseAllExtend | internal/service/image.go:74-80 | parsing one more segment appends its operation to the parsed list |
| Descriptor.CollectOperations | internal/service/image.go:69-88 | the splitting loop yields the dispatched operations, the last `format` operation and the `info` flag of the parsed segments |
| Descriptor.SomethingCollected | internal/service/image.go:107-121 | every descriptor yields `info`, a format operation or at least one dispatched operation, so the "unknown opt" check after `info` cannot fire |
| Descriptor.SplitLast | internal/service/image.go:81-87 | appending one operation updates the three outputs as the loop does |
| Descriptor.DispatchableKeepsOrder | internal/service/image.go:81-87 | dispatched operations keep their relative order, and every non-special operation is dispatched |
| Descriptor.KeepsOrderSkip | internal/service/image.go:81-84 | a held-aside last operation leaves the dispatched list and its positions unchanged |
| Descriptor.KeepsOrderTake | internal/service/image.go:85-86 | a dispatched last operation is appended at the next position, after all earlier ones |
| Descriptor.DispatchedRoundTrip | internal/service/image.go:72-88 | re-serializing the dispatched operations gives exactly the non-special segments, in order |
| ResizeOptions.Prefix | internal/service/image.go:372-393 | every option key has a non-empty token prefix |
| ResizeOptions.Normalize | internal/service/image.go:396-408 | rejection exactly when w, h, l and s are all 0; otherwise only p, l and s change, and they become 0 only when positive and w or h is positive |
| ResizeOptions.ParseResizeOpt | internal/service/image.go:369-409 | the token loop and the checks equal the fold followed by `Normalize`; limit stays 1 without a `limit_` token |
| ResizeOptions.LastTokenFor | internal/service/image.go:371-394 | the token found sets the option asked for |
| ResizeOptions.LastTokenForAbsent | internal/service/image.go:371-394 | there is no token for an option exactly when no token sets it |
| ResizeOptions.LastTokenForIsLast | internal/service/image.go:371-394 | the token found stands at a position after which no token sets the option |
| ResizeOptions.ApplyTokenField | internal/service/image.go:371-394 | one token sets the option it names to its decoded value and leaves every other option alone |
| ResizeOptions.LastTokenWins | internal/service/image.go:371-394 | each option's value is decoded from its last token, or is its default without one |
| ResizeOptions.UnknownTokensIgnored | internal/service/image.go:371-394 | tokens with an unknown prefix change nothing, wherever they stand |
| ResizeOptions.WithoutSizeRejected | internal/service/image.go:371-407 | any token list without a `w_`, `h_`, `l_` or `s_` token (a percent alone, a mode, a colour, a limit, unknown tokens) is rejected with "Width and Height can not both be 0." |
| ResizeOptions.SizeOptionsStayZero | internal/service/image.go:371-394 | without a `w_`, `h_`, `l_` or `s_` token the four size options w, h, l and s all stay 0 |
| ResizeOptions.NoTokenKeepsDefault | internal/service/image.go:371-394 | an option no token names keeps its default value |
| ResizeOptions.FillWideAndHigh | internal/service/image.go:511-523 | with w or h positive nothing changes; otherwise l goes to the source's longer axis and s to the other; no other field changes |
| ResizeOptions.FillKeepsOrientation | internal/service/image.go:511-523 | with l at least s, the derived box has the source's orientation |
| ResizeOptions.FillIdempotent | internal/service/image.go:511-523 | applying the fill twice is applying it once |
| ResizeOptions.FixedNum | internal/service/image.go:525-533 | two non-zero values are kept; one zero is replaced by the other value; a zero output needs two zero inputs |
| ResizeOptions.FixedNumIdempotent | internal/service/image.go:525-533 | `fixedNum` of its own result changes nothing |
| ResizePolicy.PadBackground | internal/service/image.go:148-174 | a given colour is used when it scans and fails otherwise; without one, white for opaque images and the background extend with alpha |
| ResizePolicy.CenterOffset | internal/service/image.go:159-160 | the truncated half difference centres a fitting image, with at most one pixel more on the far side, and keeps a larger image covering the canvas |
| ResizePolicy.RatioTimes | internal/service/image.go:139-140 | a scale ratio times the source side gives the target side |
| ResizePolicy.RatioBelowOne | internal/service/image.go:233-237 | a ratio is below 1 exactly when the target side is below the source's |
| ResizePolicy.MulStrict | internal/service/image.go:233-237 | a real-arithmetic proof step of `RatioBelowOne`, with no behaviour of its own: multiplying by a positive value keeps a strict order |
| ResizePolicy.MulMonotone | internal/service/image.go:141 | a real-arithmetic proof step of the fit lemmas, with no behaviour of its own: multiplying by a positive value keeps the order |
| ResizePolicy.MinScaleFits | internal/service/image.go:139-141 | the smaller of the two ratios scales the source into the box |
| ResizePolicy.MaxScaleCovers | internal/service/image.go:219-222 | the larger of the two ratios scales the source over the box |
| ResizePolicy.PadShape | internal/service/image.go:136-185 | pad always resizes by the smaller ratio onto the filled and squared box, with the background of the colour rule |
| ResizePolicy.PadFitsCanvas | internal/service/image.go:136-185 | the pad scale makes the image fit the canvas, meeting it on one side |
| ResizePolicy.SingleSideMakesSquare | internal/service/image.go:137-138 | a single given side becomes a square box |
| ResizePolicy.FillGuard | internal/service/image.go:186-194 | the fill case of the plan in closed form: either nothing or a crop to the squared box, and nothing exactly when limit is on and no positive side of the box is below the source's |
| ResizePolicy.FixedBothSides | internal/service/image.go:195-202 | the fixed case with both sides, in closed form: either nothing or a forced w×h thumbnail, and nothing exactly when limit is on and some side does not shrink |
| ResizePolicy.FixedOneSide | internal/service/image.go:195-215 | the fixed case with one side, in closed form: either nothing or a uniform scale by that side's ratio, and nothing exactly when limit is on and that side does not shrink; `RatioTimes` says the scaled side is the requested one |
| ResizePolicy.MfitGuard | internal/service/image.go:216-226 | mfit does nothing exactly when limit is on and either no side is given or the box is not below the source's on both axes; otherwise it resizes by the larger ratio |
| ResizePolicy.MfitCoversBox | internal/service/image.go:216-226 | when mfit resizes, the result covers the box, meeting it on one side |
| ResizePolicy.DefaultGuard | internal/service/image.go:227-242 | the default-mode case of the plan in closed form: either nothing or a resize by the smaller ratio, a zero side counting as the source's, and a resize exactly when a positive side shrinks or limit is off; the geometric meaning is in `DefaultModeFits` and `DefaultModeNeverEnlarges` |
| ResizePolicy.DefaultModeFits | internal/service/image.go:227-242 | when the default mode resizes, the result fits the box, meeting it on one side |
| ResizePolicy.DefaultModeNeverEnlarges | internal/service/image.go:227-242 | with limit on, the default mode never scales up |
| ResizePolicy.PercentBranchNeedsNegative | internal/service/image.go:244-251 | the percent branch needs a negative size option after parsing, and then resizes by p/100 or fails with "Missing required param" |
| ResizePolicy.PercentBranchReachable | internal/service/image.go:244-248 | `w_-5,p_50` passes parsing and halves the image |
| ResizePolicy.PercentIgnoredWithSize | internal/service/image.go:133-251 | with w or h positive, p does not affect the plan |
| ResizePolicy.EdgesIgnoredWithSize | internal/service/image.go:133-251 | with w or h positive, l and s do not affect the plan |
| Watermark.ApplyWatermarkToken | internal/service/image.go:328-353 | a token fails only as a `text_` token whose value does not decode |
| Watermark.ParseWatermarkOpt | internal/service/image.go:325-356 | the token loop equals the fold from the defaults, followed by the text check; success has non-empty text |
| Watermark.ErrorSticks | internal/service/image.go:331-334 | once a decode has failed, later tokens do not change the error |
| Watermark.NoTextRejected | internal/service/image.go:351-353 | without a `text_` token the watermark is rejected for missing text |
| Watermark.ReadFailsOnlyOnText | internal/service/image.go:328-350 | reading fails only with the decode error |
| Watermark.BadTextRejected | internal/service/image.go:329-334 | one undecodable `text_` token fails the whole watermark |
| Watermark.TextOnlyKeepsDefaults | internal/service/image.go:326 | a lone text token gives colour 000000, no tiling, no rotation, opacity 100 and size 40 |
| Watermark.WrapInt64 | internal/service/image.go:261 | Go's int arithmetic stays in the int64 range, is congruent modulo 2^64, and is exact within range |
| Watermark.ParamsFaithful | internal/service/image.go:257-277 | the backend parameters carry the text, opacity t/100, rotation minus a full turn, the font size readable back from the font name, tiling only for fill 1, and the scanned colour |
| Watermark.DefaultColorIsBlack | internal/service/image.go:326 | the default colour scans to black |
| Blur.MinAmplitudeValues | internal/service/image.go:441 | the minimum amplitude is 1 without a radius, 0.5 at ±50 and -1 at 100 |
| Blur.BlurParams | internal/service/image.go:438-442 | rejection exactly when reading failed or sigma or radius is 0; success gives the sigma and the amplitude of the radius |
| Blur.ParseBlurOpt | internal/service/image.go:419-443 | the token loop equals the fold followed by the zero check |
| Blur.ReadErrorSticks | internal/service/image.go:424-435 | once a float parse has failed, later tokens do not change the error |
| Blur.ValuesComeFromTokens | internal/service/image.go:421-436 | a non-zero sigma or radius comes from a token of its own kind |
| Blur.BlurNeedsBothTokens | internal/service/image.go:421-442 | an accepted blur had both an `s_` and an `r_` token |
| Encode.EncodedType | internal/service/image.go:449-481 | only the native export leaves the encoded type to the backend |
| Encode.MimeType | internal/service/image.go:490-505 | the MIME type is `image/jpeg` exactly for the types other than png, webp, tiff, gif and svg |
| Encode.EncoderMatchesName | internal/service/image.go:445-505 | each of the five named formats is encoded as its own type and served as `image/<name>`; every other name is a native export |
| Encode.SourceTypeKept | internal/service/image.go:300-308 | without a format operation, a source of one of the five types is re-encoded as that type |
| Encode.TypeNameInjective | internal/service/image.go:300 | distinct image types have distinct names |
| Encode.BmpServedAsJpeg | internal/service/image.go:479-503 | a bitmap source goes to the native export, and a bitmap result is labelled `image/jpeg` |
| Backend.ImageRef.constructor | internal/service/image.go:100 | a loaded image has its decoded size, type and alpha flag, and no calls yet |
| Backend.ImageRef.Resize | internal/service/image.go:222 | one resize call is recorded with the size produced; a success needs a positive scale; a failure keeps the size |
| Backend.ImageRef.ResizeWithVScale | internal/service/image.go:142 | as Resize, for the call with a vertical scale |
| Backend.ImageRef.ThumbnailWithSize | internal/service/image.go:190 | a successful thumbnail has exactly the requested size |
| Backend.ImageRef.Embed | internal/service/image.go:175-181 | a successful embed has exactly the canvas size |
| Backend.ImageRef.EmbedBackground | internal/service/image.go:158-164 | a successful embed has exactly the canvas size |
| Backend.ImageRef.AddAlpha | internal/service/image.go:278 | the size is kept; a success adds an alpha channel; on an image that already has alpha the call succeeds |
| Backend.ImageRef.WaterMark | internal/service/image.go:265-282 | the call is recorded; the size never shrinks, and it is kept when the call fails or the text is tiled |
| Backend.ImageRef.GaussianBlur | internal/service/image.go:291 | the call is recorded and the size is kept |
| Backend.ImageRef.Export | internal/service/image.go:449-481 | the export is recorded with the encoded type, which is the encoder's own type for the five explicit encoders |
| Handler.ParseFormatOpt | internal/service/image.go:411-417 | the format is the first option when it is non-empty; an empty first option is "Missing required param: format"; no option is the index panic |
| Handler.PadEmbedCentred | internal/service/image.go:136-185 | a completed pad issues the resize and then the embed, at offsets that centre a fitting image on the canvas |
| Handler.ApplyResize | internal/service/image.go:126-251 | the calls appended are those of the plan for the current size and alpha flag, stopping at the first failure; the alpha flag is kept; a success leaves the pad canvas or thumbnail size, the size the scaling call produced, or, for a no-op, the size as it was |
| Handler.ApplyWatermark | internal/service/image.go:252-285 | an option or colour error adds no call and changes nothing; otherwise AddAlpha, which fails only on an image without alpha, and after it the watermark with the mapped parameters, stopping at a failure; after both the image has alpha, is no smaller, and keeps its size when tiled |
| Handler.ApplyBlur | internal/service/image.go:286-294 | an option error adds no call; otherwise one blur with the parsed sigma and amplitude; size and alpha flag are kept |
| Handler.ApplyOperation | internal/service/image.go:124-297 | the pass has the effect of its branch: resize with its parsed options' plan for the current state, watermark and blur as their branches, and an unknown name fails without touching the image |
| Handler.TargetFormat | internal/service/image.go:300-307 | the target is the format operation's first option, or the source type's name without one |
| Handler.ConcatAppend | internal/service/image.go:123-298 | the calls of one more operation follow those of the earlier ones |
| Handler.StepsExtend | internal/service/image.go:123-298 | an operation run on the state the earlier ones left extends the run by one step |
| Handler.RunStopsAtUnknown | internal/service/image.go:295-296 | nothing runs after an unknown name, and reaching it fails with "unknown opt" and no call |
| Handler.RunCompleteAllKnown | internal/service/image.go:123-298 | a run that ends without error met only known names |
| Handler.FirstUnknownFails | internal/service/image.go:123-296 | an unknown first name fails before any call |
| Handler.RunOperations | internal/service/image.go:123-298 | the calls appended are the concatenated traces of the operations, each the effect of that operation on the size and alpha flag the previous one left, every one but the last without error, and the run stops right after the first failure; success means every name was known |
| Handler.EncodeImage | internal/service/image.go:300-313 | a bad format fails with no call; otherwise exactly one export with vipEncode's encoder, whose type is the encoder's own for the five explicit encoders, and the MIME type follows the encoded type; size and alpha flag are kept |
| Handler.SuccessRanEverything | internal/service/image.go:123-313 | a successful answer ran every operation with a known name and without error, and its last call exported the image with vipEncode's encoder for a valid target |
| Handler.Respond | internal/service/image.go:107-313 | `info` answers the metadata (size, format, dimensions) with no call; no operation and no `format` answers "unknown opt" with no call; otherwise the calls and answer are those of `Handled` |
| Handler.Process | internal/service/image.go:123-313 | the calls are the dispatch run's traces and then the export's; a failed run answers its error with no export, otherwise the answer is the encoding's |
| Handler.ImageHandler | internal/service/image.go:64-314 | `info` answers the source's metadata with no call; otherwise the dispatched operations run in order on the image and the result is exported for the last `format` operation's target, as `Handled` states; with nothing collected the answer is "unknown opt" |

## Left out

- Loading the request body, the buffer pool, image decoding and its
  failure, the HTTP binding of the query, and the JSON and stream writers
  are not modelled. The handler starts from a loaded `ImageRef` and returns
  the response value.
- `NewImage`, the vips startup and the configuration are not modelled. The
  encoder quality is a parameter.
- Pixel work is not modelled. The size a scaling resize produces (libvips
  rounding) is left to the backend, and the model records it in the call
  trace.
- Floating point is modelled as exact reals. This applies to the scale
  ratios, the percent scale, `float32` opacity and the blur amplitude.
- Base64 decoding of watermark text (unpadded standard alphabet) and
  `strconv.ParseFloat` are function parameters.
- `fmt.Sscanf`'s `%02x` does not model a sign or leading spaces before a
  hex byte.
- The backend's type-name table (`vips.ImageTypes`) is not part of this
  model's sources. `Encode.TypeName` uses the lower-case govips names,
  with the empty name for an unknown type.
- Blur.MinAmplitudeValues: the amplitude is fixed only at reference points
  (0, ±50, 100), not as a general bound, because the square of a real
  ratio is outside what the solver handles well here.
- ResizeOptions.FillWideAndHigh: the update through a `*ResizeOpt` pointer
  is modelled as a function returning the updated options. The handler
  uses only the updated value, and no other alias exists.
- The watermark's text rendering, rotation, tiling and blending are not
  modelled. They live in the cgo code behind `WaterMark`, and only the
  parameters handed to the backend are modelled.
- The index panic of a `format` operation without options is an error value
  here. Go's runtime panic and its recovery by the HTTP middleware are not
  modelled.
