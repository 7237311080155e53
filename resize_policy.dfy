/**
 * The resize policy: from the parsed options and the current image size,
 * the geometry the `resize` operation asks of the backend. Scales are exact
 * rationals (the service computes them in float64).
 */
module ResizePolicy {
  import opened Common
  import opened GoConv
  import opened GoStrings
  import opened ResizeOptions

  datatype Interesting = InterestingCentre | InterestingAll
  datatype SizeMode = SizeBoth | SizeForce
  datatype ExtendStrategy = ExtendWhite | ExtendBackground

  /** How the pad canvas around the resized image is filled. */
  datatype Background = Solid(color: Color) | Extend(strategy: ExtendStrategy)

  /**
   * The backend calls one `resize` operation issues.
   * Resize: Resize(scale, KernelLinear).
   * ResizeV: ResizeWithVScale(scale, -1, KernelLinear).
   * Pad: ResizeWithVScale(scale, -1, KernelLinear), then an embed on a w×h
   *   canvas; a `background` of None means the colour text did not scan, so
   *   the request fails after the resize.
   * Thumbnail: ThumbnailWithSize(w, h, interest, size).
   * Fail: the request fails before any backend call.
   */
  datatype ResizePlan =
    | NoOp
    | Resize(scale: real)
    | ResizeV(scale: real)
    | Pad(scale: real, w: int, h: int, background: Option<Background>)
    | Thumbnail(w: int, h: int, interest: Interesting, size: SizeMode)
    | Fail(error: Error)

  /** float64(n) / float64(d), exactly. */
  function Ratio(n: int, d: int): real
    requires d > 0
  {
    n as real / d as real
  }

  /** math.Min and math.Max on non-NaN values. */
  function Min(a: real, b: real): real { if a <= b then a else b }
  function Max(a: real, b: real): real { if a >= b then a else b }

  /** Some of w, h, l and s is positive: the size parameters drive the resize. */
  predicate SizeGiven(o: ResizeOpt) {
    o.w > 0 || o.h > 0 || o.l > 0 || o.s > 0
  }

  /**
   * The pad background: the scanned colour when one was given, otherwise a
   * white extension for an image without alpha and a background extension
   * for one with alpha.
   */
  function PadBackground(color: string, hasAlpha: bool): (r: Option<Background>)
    ensures |color| > 0 ==> (r.Some? <==> ScanColor(color).Some?)
    ensures |color| > 0 && r.Some? ==> r.value == Solid(ScanColor(color).value)
    ensures |color| == 0 ==> r == Some(Extend(if hasAlpha then ExtendBackground else ExtendWhite))
  {
    if |color| > 0 then
      match ScanColor(color)
      case Some(c) => Some(Solid(c))
      case None => None
    else if !hasAlpha then Some(Extend(ExtendWhite))
    else Some(Extend(ExtendBackground))
  }

  /**
   * The embed offset on one axis: half the difference between canvas and
   * image, truncated toward zero as Go's int conversion does. An image that
   * fits is centred (with the odd pixel on the far side); one that does not
   * is shifted so the canvas lies within it.
   */
  function CenterOffset(target: int, current: int): (x: int)
    ensures 0 <= current <= target ==> 0 <= x && x + current <= target && 0 <= target - current - 2 * x <= 1
    ensures current > target ==> x <= 0 && x + current >= target && 0 <= current - target + 2 * x <= 1
  {
    var d := target - current;
    if d >= 0 then d / 2 else -((-d) / 2)
  }

  function PadPlan(o: ResizeOpt, originWidth: int, originHeight: int, hasAlpha: bool): ResizePlan
    requires originWidth > 0 && originHeight > 0
  {
    var f := FillWideAndHigh(originHeight, originWidth, o);
    var (w, h) := FixedNum(f.w, f.h, 0);
    Pad(Min(Ratio(w, originWidth), Ratio(h, originHeight)), w, h, PadBackground(o.color, hasAlpha))
  }

  function FillPlan(o: ResizeOpt, originWidth: int, originHeight: int): ResizePlan
    requires originWidth > 0 && originHeight > 0
  {
    var f := FillWideAndHigh(originHeight, originWidth, o);
    var (w, h) := FixedNum(f.w, f.h, 0);
    if Limit(f.(w := w, h := h), originWidth, originHeight) || f.limit == 0 then
      Thumbnail(w, h, InterestingCentre, SizeBoth)
    else NoOp
  }

  function FixedPlan(o: ResizeOpt, originWidth: int, originHeight: int): ResizePlan
    requires originWidth > 0 && originHeight > 0
  {
    var f := FillWideAndHigh(originHeight, originWidth, o);
    if f.w > 0 && f.h > 0 then
      if (f.w < originWidth && f.h < originHeight) || f.limit == 0 then
        Thumbnail(f.w, f.h, InterestingAll, SizeForce)
      else NoOp
    else if (f.w > 0 && f.w < originWidth) || (f.h > 0 && f.h < originHeight) || f.limit == 0 then
      var (ws, hs) := FixedNum(Ratio(f.w, originWidth), Ratio(f.h, originHeight), 0.0);
      ResizeV(Min(ws, hs))
    else NoOp
  }

  function MfitPlan(o: ResizeOpt, originWidth: int, originHeight: int): ResizePlan
    requires originWidth > 0 && originHeight > 0
  {
    var (l, s) := FixedNum(o.l, o.s, 0);
    var f := FillWideAndHigh(originHeight, originWidth, o.(l := l, s := s));
    if ((f.w > 0 || f.h > 0) && f.w < originWidth && f.h < originHeight) || f.limit == 0 then
      Resize(Max(Ratio(f.w, originWidth), Ratio(f.h, originHeight)))
    else NoOp
  }

  function DefaultPlan(o: ResizeOpt, originWidth: int, originHeight: int): ResizePlan
    requires originWidth > 0 && originHeight > 0
  {
    var f := FillWideAndHigh(originHeight, originWidth, o);
    if (f.w > 0 && f.w < originWidth) || (f.h > 0 && f.h < originHeight) || f.limit == 0 then
      var w := if f.w == 0 then originWidth else f.w;
      var h := if f.h == 0 then originHeight else f.h;
      Resize(Min(Ratio(w, originWidth), Ratio(h, originHeight)))
    else NoOp
  }

  /**
   * The plan of one `resize` operation on an image of originWidth ×
   * originHeight pixels, selected by the mode name; any name other than
   * pad, fill, fixed and mfit is the default mode.
   */
  function Plan(o: ResizeOpt, originWidth: int, originHeight: int, hasAlpha: bool): ResizePlan
    requires originWidth > 0 && originHeight > 0
  {
    if SizeGiven(o) then
      if o.m == "pad" then PadPlan(o, originWidth, originHeight, hasAlpha)
      else if o.m == "fill" then FillPlan(o, originWidth, originHeight)
      else if o.m == "fixed" then FixedPlan(o, originWidth, originHeight)
      else if o.m == "mfit" then MfitPlan(o, originWidth, originHeight)
      else DefaultPlan(o, originWidth, originHeight)
    else if o.p > 0 then Resize(o.p as real / 100.0)
    else Fail(BadRequest("PARAM_ERROR", "Missing required param"))
  }

  /** Multiplying back by the denominator gives the numerator. */
  lemma RatioTimes(n: int, d: int)
    requires d > 0
    ensures Ratio(n, d) * d as real == n as real
  {
  }

  /** A ratio is below 1 exactly when the numerator is below the denominator. */
  lemma RatioBelowOne(n: int, d: int)
    requires d > 0
    ensures Ratio(n, d) < 1.0 <==> n < d
  {
    RatioTimes(n, d);
    if Ratio(n, d) < 1.0 {
      MulStrict(Ratio(n, d), 1.0, d as real);
    } else {
      MulMonotone(1.0, Ratio(n, d), d as real);
    }
  }

  lemma MulMonotone(x: real, y: real, z: real)
    requires x <= y && z > 0.0
    ensures x * z <= y * z
  {
  }

  lemma MulStrict(x: real, y: real, z: real)
    requires x < y && z > 0.0
    ensures x * z < y * z
  {
  }

  /** A W×H image scaled by `s` fits in a w×h box and meets it on one axis. */
  predicate FitsInside(s: real, W: int, H: int, w: int, h: int) {
    && s * W as real <= w as real
    && s * H as real <= h as real
    && (s * W as real == w as real || s * H as real == h as real)
  }

  /** A W×H image scaled by `s` covers a w×h box and meets it on one axis. */
  predicate Covers(s: real, W: int, H: int, w: int, h: int) {
    && s * W as real >= w as real
    && s * H as real >= h as real
    && (s * W as real == w as real || s * H as real == h as real)
  }

  /**
   * Scaling a W×H image by the smaller of the two ratios fits it in a w×h
   * box and meets the box on one axis.
   */
  lemma {:induction false} MinScaleFits(w: int, h: int, W: int, H: int)
    requires W > 0 && H > 0
    ensures FitsInside(Min(Ratio(w, W), Ratio(h, H)), W, H, w, h)
  {
    var a, b := Ratio(w, W), Ratio(h, H);
    RatioTimes(w, W);
    RatioTimes(h, H);
    if a <= b {
      MulMonotone(a, b, H as real);
    } else {
      MulMonotone(b, a, W as real);
    }
  }

  /**
   * Scaling a W×H image by the larger of the two ratios makes it cover a
   * w×h box and meet the box on one axis.
   */
  lemma {:induction false} MaxScaleCovers(w: int, h: int, W: int, H: int)
    requires W > 0 && H > 0
    ensures Covers(Max(Ratio(w, W), Ratio(h, H)), W, H, w, h)
  {
    var a, b := Ratio(w, W), Ratio(h, H);
    RatioTimes(w, W);
    RatioTimes(h, H);
    if a >= b {
      MulMonotone(b, a, H as real);
    } else {
      MulMonotone(a, b, W as real);
    }
  }

  /** The target box of the pad and fill modes: filled from l/s, then squared if one side is 0. */
  function SquaredBox(o: ResizeOpt, originWidth: int, originHeight: int): (int, int) {
    var f := FillWideAndHigh(originHeight, originWidth, o);
    FixedNum(f.w, f.h, 0)
  }

  /**
   * pad: the image is always resized, by the smaller ratio of the squared
   * box, onto a canvas that is exactly that box, with the background the
   * colour rule gives.
   */
  lemma PadShape(o: ResizeOpt, originWidth: int, originHeight: int, hasAlpha: bool)
    requires originWidth > 0 && originHeight > 0
    requires SizeGiven(o) && o.m == "pad"
    ensures var (w, h) := SquaredBox(o, originWidth, originHeight);
      Plan(o, originWidth, originHeight, hasAlpha) ==
        Pad(Min(Ratio(w, originWidth), Ratio(h, originHeight)), w, h, PadBackground(o.color, hasAlpha))
  {
  }

  /**
   * pad: the scale is the largest uniform one at which the image fits in
   * the canvas, touching it on one axis.
   */
  lemma PadFitsCanvas(o: ResizeOpt, originWidth: int, originHeight: int, hasAlpha: bool)
    requires originWidth > 0 && originHeight > 0
    requires SizeGiven(o) && o.m == "pad"
    ensures var r := Plan(o, originWidth, originHeight, hasAlpha);
      r.Pad? && FitsInside(r.scale, originWidth, originHeight, r.w, r.h)
  {
    var (w, h) := SquaredBox(o, originWidth, originHeight);
    PadShape(o, originWidth, originHeight, hasAlpha);
    MinScaleFits(w, h, originWidth, originHeight);
  }

  /** pad and fill turn a single given side into a square box. */
  lemma SingleSideMakesSquare(o: ResizeOpt, originWidth: int, originHeight: int)
    requires (o.w > 0 && o.h == 0) || (o.w == 0 && o.h > 0)
    ensures var b := SquaredBox(o, originWidth, originHeight);
      b.0 == b.1 && b.0 == o.w + o.h
  {
  }

  /**
   * fill: the image is cropped and resized to the target box unless limit
   * is on and no positive side of the box is smaller than the source's.
   */
  lemma FillGuard(o: ResizeOpt, originWidth: int, originHeight: int, hasAlpha: bool)
    requires originWidth > 0 && originHeight > 0
    requires SizeGiven(o) && o.m == "fill"
    ensures var (w, h) := SquaredBox(o, originWidth, originHeight);
      var r := Plan(o, originWidth, originHeight, hasAlpha);
      && (r == NoOp || r == Thumbnail(w, h, InterestingCentre, SizeBoth))
      && (r == NoOp <==> o.limit != 0 && !(0 < w < originWidth) && !(0 < h < originHeight))
  {
  }

  /**
   * fixed with both sides: a forced stretch to exactly w×h, which with
   * limit on happens only when both sides shrink.
   */
  lemma FixedBothSides(o: ResizeOpt, originWidth: int, originHeight: int, hasAlpha: bool)
    requires originWidth > 0 && originHeight > 0
    requires SizeGiven(o) && o.m == "fixed"
    requires var f := FillWideAndHigh(originHeight, originWidth, o); f.w > 0 && f.h > 0
    ensures var f := FillWideAndHigh(originHeight, originWidth, o);
      var r := Plan(o, originWidth, originHeight, hasAlpha);
      && (r == NoOp || r == Thumbnail(f.w, f.h, InterestingAll, SizeForce))
      && (r == NoOp <==> o.limit != 0 && (f.w >= originWidth || f.h >= originHeight))
  {
  }

  /**
   * fixed with one side: the image is scaled uniformly by that side's ratio,
   * when that side shrinks or limit is off.
   */
  lemma FixedOneSide(o: ResizeOpt, originWidth: int, originHeight: int, hasAlpha: bool)
    requires originWidth > 0 && originHeight > 0
    requires SizeGiven(o) && o.m == "fixed"
    requires var f := FillWideAndHigh(originHeight, originWidth, o);
      (f.w > 0 && f.h == 0) || (f.w == 0 && f.h > 0)
    ensures var f := FillWideAndHigh(originHeight, originWidth, o);
      var scale := if f.w > 0 then Ratio(f.w, originWidth) else Ratio(f.h, originHeight);
      var r := Plan(o, originWidth, originHeight, hasAlpha);
      && (r == NoOp || r == ResizeV(scale))
      && (r == NoOp <==> o.limit != 0 && !(0 < f.w < originWidth) && !(0 < f.h < originHeight))
  {
  }

  /**
   * mfit: l and s are completed by fixedNum before the box is filled; the
   * image is resized by the larger ratio when some side is positive and
   * both sides are below the source's, or when limit is off.
   */
  lemma MfitGuard(o: ResizeOpt, originWidth: int, originHeight: int, hasAlpha: bool)
    requires originWidth > 0 && originHeight > 0
    requires SizeGiven(o) && o.m == "mfit"
    ensures var (l, s) := FixedNum(o.l, o.s, 0);
      var f := FillWideAndHigh(originHeight, originWidth, o.(l := l, s := s));
      var r := Plan(o, originWidth, originHeight, hasAlpha);
      && (r == NoOp || r == Resize(Max(Ratio(f.w, originWidth), Ratio(f.h, originHeight))))
      && (r == NoOp <==> !(((f.w > 0 || f.h > 0) && f.w < originWidth && f.h < originHeight) || o.limit == 0))
  {
  }

  /**
   * mfit: the image is scaled by the larger ratio, so the result covers the
   * box on both axes (it is not fitted inside it) and meets it on one.
   */
  lemma MfitCoversBox(o: ResizeOpt, originWidth: int, originHeight: int, hasAlpha: bool)
    requires originWidth > 0 && originHeight > 0
    requires SizeGiven(o) && o.m == "mfit"
    requires Plan(o, originWidth, originHeight, hasAlpha) != NoOp
    ensures var (l, s) := FixedNum(o.l, o.s, 0);
      var f := FillWideAndHigh(originHeight, originWidth, o.(l := l, s := s));
      var r := Plan(o, originWidth, originHeight, hasAlpha);
      r.Resize? && Covers(r.scale, originWidth, originHeight, f.w, f.h)
  {
    var (l, s) := FixedNum(o.l, o.s, 0);
    var f := FillWideAndHigh(originHeight, originWidth, o.(l := l, s := s));
    MfitGuard(o, originWidth, originHeight, hasAlpha);
    MaxScaleCovers(f.w, f.h, originWidth, originHeight);
  }

  /**
   * Default mode: a resize happens exactly when a positive side is smaller
   * than the source's or limit is off; a side left at 0 counts as the
   * source's own, and the scale is the smaller ratio.
   */
  lemma DefaultGuard(o: ResizeOpt, originWidth: int, originHeight: int, hasAlpha: bool)
    requires originWidth > 0 && originHeight > 0
    requires SizeGiven(o) && o.m !in {"pad", "fill", "fixed", "mfit"}
    ensures var f := FillWideAndHigh(originHeight, originWidth, o);
      var w := if f.w == 0 then originWidth else f.w;
      var h := if f.h == 0 then originHeight else f.h;
      var r := Plan(o, originWidth, originHeight, hasAlpha);
      && (r == NoOp || r == Resize(Min(Ratio(w, originWidth), Ratio(h, originHeight))))
      && (r == NoOp <==> !((0 < f.w < originWidth) || (0 < f.h < originHeight) || o.limit == 0))
  {
    assert Plan(o, originWidth, originHeight, hasAlpha) == DefaultPlan(o, originWidth, originHeight);
  }

  /**
   * Default mode: the smaller ratio makes the result fit the box (a side
   * left at 0 being the source's) and meet it on one axis.
   */
  lemma DefaultModeFits(o: ResizeOpt, originWidth: int, originHeight: int, hasAlpha: bool)
    requires originWidth > 0 && originHeight > 0
    requires SizeGiven(o) && o.m !in {"pad", "fill", "fixed", "mfit"}
    requires Plan(o, originWidth, originHeight, hasAlpha) != NoOp
    ensures var f := FillWideAndHigh(originHeight, originWidth, o);
      var w := if f.w == 0 then originWidth else f.w;
      var h := if f.h == 0 then originHeight else f.h;
      var r := Plan(o, originWidth, originHeight, hasAlpha);
      r.Resize? && FitsInside(r.scale, originWidth, originHeight, w, h)
  {
    var f := FillWideAndHigh(originHeight, originWidth, o);
    var w := if f.w == 0 then originWidth else f.w;
    var h := if f.h == 0 then originHeight else f.h;
    DefaultGuard(o, originWidth, originHeight, hasAlpha);
    MinScaleFits(w, h, originWidth, originHeight);
  }

  /** Default mode never enlarges while limit is on. */
  lemma DefaultModeNeverEnlarges(o: ResizeOpt, originWidth: int, originHeight: int, hasAlpha: bool)
    requires originWidth > 0 && originHeight > 0
    requires SizeGiven(o) && o.m !in {"pad", "fill", "fixed", "mfit"} && o.limit != 0
    ensures var r := Plan(o, originWidth, originHeight, hasAlpha);
      r == NoOp || (r.Resize? && r.scale < 1.0)
  {
    var f := FillWideAndHigh(originHeight, originWidth, o);
    var w := if f.w == 0 then originWidth else f.w;
    var h := if f.h == 0 then originHeight else f.h;
    DefaultGuard(o, originWidth, originHeight, hasAlpha);
    RatioBelowOne(w, originWidth);
    RatioBelowOne(h, originHeight);
  }

  /**
   * The percent branch is taken only when no size parameter is positive;
   * after normalisation that needs a negative w, h, l or s, since all four
   * at 0 are rejected.
   */
  lemma PercentBranchNeedsNegative(o: ResizeOpt, n: ResizeOpt, originWidth: int, originHeight: int, hasAlpha: bool)
    requires originWidth > 0 && originHeight > 0
    requires Normalize(o) == Ok(n) && !SizeGiven(n)
    ensures n.w < 0 || n.h < 0 || n.l < 0 || n.s < 0
    ensures Plan(n, originWidth, originHeight, hasAlpha) ==
      if n.p > 0 then Resize(n.p as real / 100.0) else Fail(BadRequest("PARAM_ERROR", "Missing required param"))
  {
  }

  /** The percent branch is reachable: `resize,w_-5,p_50` halves the image. */
  lemma PercentBranchReachable(originWidth: int, originHeight: int, hasAlpha: bool)
    requires originWidth > 0 && originHeight > 0
    ensures Normalize(ReadTokens(["w_-5", "p_50"])) == Ok(ResizeOpt(-5, 0, 1, "", "", 0, 0, 50))
    ensures Plan(ResizeOpt(-5, 0, 1, "", "", 0, 0, 50), originWidth, originHeight, hasAlpha) == Resize(0.5)
  {
    var ts := ["w_-5", "p_50"];
    assert HasPrefix(ts[0], "w_") by { assert ts[0][..2] == "w_"; }
    assert HasPrefix(ts[1], "p_") by { assert ts[1][..2] == "p_"; }
    assert !HasPrefix(ts[1], "w_") && !HasPrefix(ts[1], "h_") && !HasPrefix(ts[1], "limit_");
    assert !HasPrefix(ts[1], "m_") && !HasPrefix(ts[1], "color_") && !HasPrefix(ts[1], "l_") && !HasPrefix(ts[1], "s_");
    assert !Occurs("w_", "-5") by {
      forall i ensures !OccursAt("w_", "-5", i) { }
    }
    assert !Occurs("p_", "50") by {
      forall i ensures !OccursAt("p_", "50", i) { }
    }
    RemoveAllKey("w_", "-5");
    RemoveAllKey("p_", "50");
    assert "w_" + "-5" == ts[0] && "p_" + "50" == ts[1];
    assert Itoa(-5) == "-5";
    assert Itoa(50) == "50";
    AtoiItoa(-5);
    AtoiItoa(50);
    assert ts[..1][..0] == [];
    assert ts[..1] == [ts[0]];
  }

  /** With w or h positive, p plays no part in the plan. */
  lemma PercentIgnoredWithSize(o: ResizeOpt, q: int, originWidth: int, originHeight: int, hasAlpha: bool)
    requires originWidth > 0 && originHeight > 0
    requires o.w > 0 || o.h > 0
    ensures Plan(o.(p := q), originWidth, originHeight, hasAlpha) == Plan(o, originWidth, originHeight, hasAlpha)
  {
  }

  /** With w or h positive, l and s play no part in the plan. */
  lemma EdgesIgnoredWithSize(o: ResizeOpt, l: int, s: int, originWidth: int, originHeight: int, hasAlpha: bool)
    requires originWidth > 0 && originHeight > 0
    requires o.w > 0 || o.h > 0
    ensures Plan(o.(l := l, s := s), originWidth, originHeight, hasAlpha) == Plan(o, originWidth, originHeight, hasAlpha)
  {
    var o' := o.(l := l, s := s);
    assert FillWideAndHigh(originHeight, originWidth, o') == o';
    assert FillWideAndHigh(originHeight, originWidth, o) == o;
    if o.m == "pad" {
      assert PadPlan(o', originWidth, originHeight, hasAlpha) == PadPlan(o, originWidth, originHeight, hasAlpha);
    } else if o.m == "fill" {
      assert FillPlan(o', originWidth, originHeight) == FillPlan(o, originWidth, originHeight);
    } else if o.m == "fixed" {
      assert FixedPlan(o', originWidth, originHeight) == FixedPlan(o, originWidth, originHeight);
    } else if o.m == "mfit" {
      var (l1, s1) := FixedNum(o.l, o.s, 0);
      var (l2, s2) := FixedNum(l, s, 0);
      assert FillWideAndHigh(originHeight, originWidth, o'.(l := l2, s := s2)).(l := l1, s := s1)
          == FillWideAndHigh(originHeight, originWidth, o.(l := l1, s := s1));
      assert MfitPlan(o', originWidth, originHeight) == MfitPlan(o, originWidth, originHeight);
    } else {
      assert DefaultPlan(o', originWidth, originHeight) == DefaultPlan(o, originWidth, originHeight);
    }
  }
}
