/**
 * The `blur` operation: reading sigma and radius from its tokens and the
 * minimum amplitude derived from the radius.
 */
module Blur {
  import opened Common
  import opened GoStrings

  /** The error for a blur without a non-zero sigma and radius. */
  const MissingSigmaOrRadius := BadRequest("PARAM_ERROR", "Missing required param: sigma or radius")

  /** The option a blur token sets: s_ is matched before r_. */
  datatype BlurKey = KeySigma | KeyRadius | KeyOther

  function BlurKeyOf(t: string): BlurKey {
    if HasPrefix(t, "s_") then KeySigma
    else if HasPrefix(t, "r_") then KeyRadius
    else KeyOther
  }

  /**
   * The tokens read in order into (sigma, radius), both starting at 0;
   * `parseFloat` stands for strconv.ParseFloat and a value it rejects is an
   * error that ends the reading.
   */
  function ReadBlurTokens(ts: seq<string>, parseFloat: string -> Option<real>): Result<(real, real)> {
    if |ts| == 0 then Ok((0.0, 0.0))
    else
      match ReadBlurTokens(ts[..|ts| - 1], parseFloat)
      case Err(e) => Err(e)
      case Ok((sigma, radius)) =>
        var t := ts[|ts| - 1];
        match BlurKeyOf(t)
        case KeySigma =>
          (match parseFloat(RemoveAll(t, "s_"))
           case None => Err(FloatSyntaxError)
           case Some(v) => Ok((v, radius)))
        case KeyRadius =>
          (match parseFloat(RemoveAll(t, "r_"))
           case None => Err(FloatSyntaxError)
           case Some(v) => Ok((sigma, v)))
        case KeyOther => Ok((sigma, radius))
  }

  /** The minimum amplitude handed to the Gaussian blur: 1 - (radius/50)^2 / 2. */
  function MinAmplitude(radius: real): real {
    1.0 - (radius / 50.0) * (radius / 50.0) / 2.0
  }

  /**
   * Reference points of the amplitude: 1 for no radius, one half at a
   * radius of 50 either way, -1 at 100.
   */
  lemma MinAmplitudeValues()
    ensures MinAmplitude(0.0) == 1.0
    ensures MinAmplitude(50.0) == 0.5 && MinAmplitude(-50.0) == 0.5
    ensures MinAmplitude(100.0) == -1.0
  {
  }

  /** The check after reading: both values must be non-zero. Gives (sigma, minAmpl). */
  function BlurParams(r: Result<(real, real)>): (p: Result<(real, real)>)
    ensures p.Err? <==> r.Err? || r.value.0 == 0.0 || r.value.1 == 0.0
    ensures r.Err? ==> p == r
    ensures p.Ok? ==> p.value == (r.value.0, MinAmplitude(r.value.1)) && p.value.0 != 0.0
  {
    match r
    case Err(e) => Err(e)
    case Ok((sigma, radius)) =>
      if sigma == 0.0 || radius == 0.0 then Err(MissingSigmaOrRadius)
      else Ok((sigma, MinAmplitude(radius)))
  }

  /** parseBlurOpt: the token loop, then the zero check and the amplitude. */
  method ParseBlurOpt(opt: seq<string>, parseFloat: string -> Option<real>) returns (r: Result<(real, real)>)
    ensures r == BlurParams(ReadBlurTokens(opt, parseFloat))
  {
    var sigma, radius := 0.0, 0.0;
    for i := 0 to |opt|
      invariant ReadBlurTokens(opt[..i], parseFloat) == Ok((sigma, radius))
    {
      var o := opt[i];
      assert opt[..i + 1][..i] == opt[..i];
      if HasPrefix(o, "s_") {
        var v := parseFloat(RemoveAll(o, "s_"));
        if v.None? {
          ReadErrorSticks(opt, i + 1, parseFloat);
          return Err(FloatSyntaxError);
        }
        sigma := v.value;
      } else if HasPrefix(o, "r_") {
        var v := parseFloat(RemoveAll(o, "r_"));
        if v.None? {
          ReadErrorSticks(opt, i + 1, parseFloat);
          return Err(FloatSyntaxError);
        }
        radius := v.value;
      }
    }
    assert opt[..|opt|] == opt;
    if sigma == 0.0 || radius == 0.0 {
      return Err(MissingSigmaOrRadius);
    }
    return Ok((sigma, MinAmplitude(radius)));
  }

  /** Once reading has failed, further tokens do not change the error. */
  lemma {:induction false} ReadErrorSticks(ts: seq<string>, k: nat, parseFloat: string -> Option<real>)
    requires k <= |ts| && ReadBlurTokens(ts[..k], parseFloat).Err?
    ensures ReadBlurTokens(ts, parseFloat) == ReadBlurTokens(ts[..k], parseFloat)
    decreases |ts| - k
  {
    if k < |ts| {
      assert ts[..k + 1][..k] == ts[..k];
      ReadErrorSticks(ts, k + 1, parseFloat);
    } else {
      assert ts[..k] == ts;
    }
  }

  /**
   * A non-zero sigma or radius after reading comes from a token of its own
   * kind: with no s_ token the sigma is 0, with no r_ token the radius is 0.
   */
  lemma {:induction false} ValuesComeFromTokens(ts: seq<string>, parseFloat: string -> Option<real>)
    ensures var r := ReadBlurTokens(ts, parseFloat);
      && (r.Ok? && r.value.0 != 0.0 ==> exists i :: 0 <= i < |ts| && BlurKeyOf(ts[i]) == KeySigma)
      && (r.Ok? && r.value.1 != 0.0 ==> exists i :: 0 <= i < |ts| && BlurKeyOf(ts[i]) == KeyRadius)
  {
    if |ts| > 0 {
      var n := |ts| - 1;
      ValuesComeFromTokens(ts[..n], parseFloat);
      forall i | 0 <= i < n ensures ts[..n][i] == ts[i] { }
    }
  }

  /** A blur is accepted only when both an s_ and an r_ token were given. */
  lemma BlurNeedsBothTokens(ts: seq<string>, parseFloat: string -> Option<real>)
    requires BlurParams(ReadBlurTokens(ts, parseFloat)).Ok?
    ensures exists i :: 0 <= i < |ts| && BlurKeyOf(ts[i]) == KeySigma
    ensures exists i :: 0 <= i < |ts| && BlurKeyOf(ts[i]) == KeyRadius
  {
    ValuesComeFromTokens(ts, parseFloat);
  }
}
