/**
 * The `watermark` operation: reading its tokens into options, and the fixed
 * mapping from those options to the parameters the backend's text
 * watermark takes.
 */
module Watermark {
  import opened Common
  import opened GoStrings
  import opened GoConv

  /**
   * The parsed options. color: the background colour text; fill: 1 tiles
   * the text; rotate: degrees; t: opacity percent; text: the decoded bytes;
   * size: the font size.
   */
  datatype WatermarkOpt = WatermarkOpt(color: string, fill: int, rotate: int, t: int, text: seq<byte>, size: int)

  /** The options before any token is read. */
  const DefaultWatermarkOpt := WatermarkOpt("000000", 0, 0, 100, [], 40)

  /** The error for a watermark without text. */
  const MissingText := BadRequest("PARAM_ERROR", "Missing required param: text")

  /**
   * One token read. A text_ value is decoded with `decode` (unpadded
   * standard base64 in the service) and a failed decode is an error; a
   * number that does not parse gives 0; other tokens change nothing.
   */
  function ApplyWatermarkToken(o: WatermarkOpt, t: string, decode: string -> Option<seq<byte>>): (r: Result<WatermarkOpt>)
    ensures r.Err? ==> r.error == Base64Error && HasPrefix(t, "text_")
  {
    if HasPrefix(t, "text_") then
      match decode(RemoveAll(t, "text_"))
      case None => Err(Base64Error)
      case Some(b) => Ok(o.(text := b))
    else if HasPrefix(t, "fill_") then Ok(o.(fill := Atoi(RemoveAll(t, "fill_")).0))
    else if HasPrefix(t, "size_") then Ok(o.(size := Atoi(RemoveAll(t, "size_")).0))
    else if HasPrefix(t, "rotate_") then Ok(o.(rotate := Atoi(RemoveAll(t, "rotate_")).0))
    else if HasPrefix(t, "t_") then Ok(o.(t := Atoi(RemoveAll(t, "t_")).0))
    else if HasPrefix(t, "color_") then Ok(o.(color := RemoveAll(t, "color_")))
    else Ok(o)
  }

  /** Every token read in order from the defaults, stopping at the first error. */
  function ReadWatermarkTokens(ts: seq<string>, decode: string -> Option<seq<byte>>): Result<WatermarkOpt> {
    if |ts| == 0 then Ok(DefaultWatermarkOpt)
    else
      match ReadWatermarkTokens(ts[..|ts| - 1], decode)
      case Err(e) => Err(e)
      case Ok(o) => ApplyWatermarkToken(o, ts[|ts| - 1], decode)
  }

  /** The check after reading: options with empty text are rejected. */
  function RequireText(r: Result<WatermarkOpt>): Result<WatermarkOpt> {
    if r.Ok? && |r.value.text| == 0 then Err(MissingText) else r
  }

  /** parseWatermarkOpt: the token loop, then the text check. */
  method ParseWatermarkOpt(watermarkOpt: seq<string>, decode: string -> Option<seq<byte>>) returns (r: Result<WatermarkOpt>)
    ensures r == RequireText(ReadWatermarkTokens(watermarkOpt, decode))
    ensures r.Ok? ==> |r.value.text| > 0
  {
    var opt := DefaultWatermarkOpt;
    for i := 0 to |watermarkOpt|
      invariant ReadWatermarkTokens(watermarkOpt[..i], decode) == Ok(opt)
    {
      var o := watermarkOpt[i];
      assert watermarkOpt[..i + 1][..i] == watermarkOpt[..i];
      if HasPrefix(o, "text_") {
        var s := RemoveAll(o, "text_");
        var buf := decode(s);
        if buf.None? {
          ErrorSticks(watermarkOpt, i + 1, decode);
          return Err(Base64Error);
        }
        opt := opt.(text := buf.value);
      } else if HasPrefix(o, "fill_") {
        opt := opt.(fill := Atoi(RemoveAll(o, "fill_")).0);
      } else if HasPrefix(o, "size_") {
        opt := opt.(size := Atoi(RemoveAll(o, "size_")).0);
      } else if HasPrefix(o, "rotate_") {
        opt := opt.(rotate := Atoi(RemoveAll(o, "rotate_")).0);
      } else if HasPrefix(o, "t_") {
        opt := opt.(t := Atoi(RemoveAll(o, "t_")).0);
      } else if HasPrefix(o, "color_") {
        opt := opt.(color := RemoveAll(o, "color_"));
      }
    }
    assert watermarkOpt[..|watermarkOpt|] == watermarkOpt;
    if |opt.text| == 0 {
      return Err(MissingText);
    }
    return Ok(opt);
  }

  /** Once reading has failed, further tokens do not change the error. */
  lemma {:induction false} ErrorSticks(ts: seq<string>, k: nat, decode: string -> Option<seq<byte>>)
    requires k <= |ts| && ReadWatermarkTokens(ts[..k], decode).Err?
    ensures ReadWatermarkTokens(ts, decode) == ReadWatermarkTokens(ts[..k], decode)
    decreases |ts| - k
  {
    if k < |ts| {
      var e := ReadWatermarkTokens(ts[..k], decode);
      assert ts[..k + 1][..k] == ts[..k];
      assert ReadWatermarkTokens(ts[..k + 1], decode) == e;
      ErrorSticks(ts, k + 1, decode);
    } else {
      assert ts[..k] == ts;
    }
  }

  /** A token that sets the text. */
  predicate IsTextToken(t: string) {
    HasPrefix(t, "text_")
  }

  /**
   * Without a text_ token reading never fails and the text stays empty,
   * so the watermark is rejected for missing text.
   */
  lemma {:induction false} NoTextRejected(ts: seq<string>, decode: string -> Option<seq<byte>>)
    requires forall i :: 0 <= i < |ts| ==> !IsTextToken(ts[i])
    ensures ReadWatermarkTokens(ts, decode).Ok? && ReadWatermarkTokens(ts, decode).value.text == []
    ensures RequireText(ReadWatermarkTokens(ts, decode)) == Err(MissingText)
  {
    if |ts| > 0 {
      NoTextRejected(ts[..|ts| - 1], decode);
    }
  }

  /** The only way reading fails is a text that does not decode. */
  lemma {:induction false} ReadFailsOnlyOnText(ts: seq<string>, decode: string -> Option<seq<byte>>)
    ensures ReadWatermarkTokens(ts, decode).Err? ==> ReadWatermarkTokens(ts, decode).error == Base64Error
  {
    if |ts| > 0 {
      ReadFailsOnlyOnText(ts[..|ts| - 1], decode);
    }
  }

  /** A text_ token whose value does not decode makes the whole watermark fail. */
  lemma BadTextRejected(ts: seq<string>, k: nat, decode: string -> Option<seq<byte>>)
    requires k < |ts| && IsTextToken(ts[k]) && decode(RemoveAll(ts[k], "text_")).None?
    ensures RequireText(ReadWatermarkTokens(ts, decode)) == Err(Base64Error)
  {
    assert ts[..k + 1][..k] == ts[..k];
    assert ts[..k + 1][k] == ts[k];
    assert ReadWatermarkTokens(ts[..k + 1], decode).Err?;
    ErrorSticks(ts, k + 1, decode);
    ReadFailsOnlyOnText(ts, decode);
  }

  /**
   * A single text token whose value decodes to non-empty bytes gives the
   * defaults with that text: colour 000000, no tiling, no rotation, full
   * opacity, size 40.
   */
  lemma TextOnlyKeepsDefaults(v: string, decode: string -> Option<seq<byte>>)
    requires !Occurs("text_", v) && decode(v).Some? && |decode(v).value| > 0
    ensures RequireText(ReadWatermarkTokens(["text_" + v], decode)) ==
      Ok(WatermarkOpt("000000", 0, 0, 100, decode(v).value, 40))
  {
    var t := "text_" + v;
    assert HasPrefix(t, "text_") by { assert t[..5] == "text_"; }
    RemoveAllKey("text_", v);
    assert [t][..0] == [];
  }

  /** Go's int arithmetic: the result reduced into the 64-bit range. */
  function WrapInt64(x: int): (r: int)
    ensures MinInt64 <= r <= MaxInt64
    ensures (r - x) % (MaxUint64 + 1) == 0
    ensures MinInt64 <= x <= MaxInt64 ==> r == x
  {
    (x - MinInt64) % (MaxUint64 + 1) + MinInt64
  }

  /** The font name prefix; the size follows it in decimal. */
  const FontFamily: string := "fangzhengheiti  "

  /** The parameters of the backend's text watermark. */
  datatype WatermarkParams = WatermarkParams(
    text: seq<byte>, opacity: real, width: int, height: int, rotate: int, dpi: int, margin: int,
    font: string, noReplicate: bool, background: Color)

  /**
   * The mapping from options to backend parameters: opacity t/100, fixed
   * width 100 and no height, rotation rotate - 360 in 64-bit arithmetic, 72 DPI, margin
   * 20, the font name with the size, tiling only when fill is 1, and the
   * scanned background colour.
   */
  function Params(o: WatermarkOpt, background: Color): WatermarkParams {
    WatermarkParams(o.text, o.t as real / 100.0, 100, 0, WrapInt64(o.rotate - 360), 72, 20,
      FontFamily + Itoa(o.size), o.fill != 1, background)
  }

  /**
   * The parameters carry the options faithfully: the text as decoded, the
   * opacity as a fraction (1 for t = 100), the rotation shifted by a full
   * turn unless that leaves the 64-bit range, and the font size readable
   * back from the font name.
   */
  lemma ParamsFaithful(o: WatermarkOpt, background: Color)
    requires MinInt64 <= o.size <= MaxInt64 && MinInt64 <= o.rotate <= MaxInt64
    ensures var p := Params(o, background);
      && p.text == o.text
      && p.opacity * 100.0 == o.t as real
      && (o.t == 100 ==> p.opacity == 1.0)
      && (o.rotate >= MinInt64 + 360 ==> p.rotate == o.rotate - 360)
      && (o.rotate == MinInt64 ==> p.rotate == MaxInt64 - 359)
      && p.font[..|FontFamily|] == FontFamily
      && Atoi(p.font[|FontFamily|..]) == (o.size, true)
      && (p.noReplicate <==> o.fill != 1)
      && p.background == background
  {
    var p := Params(o, background);
    assert p.font[|FontFamily|..] == Itoa(o.size);
    AtoiItoa(o.size);
  }

  /** The default colour text scans to black. */
  lemma DefaultColorIsBlack()
    ensures ScanColor(DefaultWatermarkOpt.color) == Some(Color(0, 0, 0))
  {
    ScanHexColor(Color(0, 0, 0), "");
    assert HexColor(Color(0, 0, 0)) + "" == "000000";
  }
}
