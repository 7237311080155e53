/**
 * The options of a `resize` operation: reading its `key_value` tokens,
 * normalising conflicting size parameters, and the helpers that derive the
 * target box from the long/short edges and a missing axis.
 */
module ResizeOptions {
  import opened Common
  import opened GoStrings
  import opened GoConv

  /**
   * The parsed options. w, h: target width and height; limit: 0 allows
   * enlarging; m: the mode name; color: the pad colour text; l, s: long and
   * short edge; p: percent. All integers may be negative: Atoi accepts a sign.
   */
  datatype ResizeOpt = ResizeOpt(w: int, h: int, limit: int, m: string, color: string, l: int, s: int, p: int)

  /** The options before any token is read: only limit is set, to 1. */
  const DefaultResizeOpt := ResizeOpt(0, 0, 1, "", "", 0, 0, 0)

  /** The option a token sets, decided by the first matching prefix in a fixed order. */
  datatype Key = KeyW | KeyH | KeyLimit | KeyM | KeyColor | KeyL | KeyS | KeyP | KeyUnknown

  function KeyOf(t: string): Key {
    if HasPrefix(t, "w_") then KeyW
    else if HasPrefix(t, "h_") then KeyH
    else if HasPrefix(t, "limit_") then KeyLimit
    else if HasPrefix(t, "m_") then KeyM
    else if HasPrefix(t, "color_") then KeyColor
    else if HasPrefix(t, "l_") then KeyL
    else if HasPrefix(t, "s_") then KeyS
    else if HasPrefix(t, "p_") then KeyP
    else KeyUnknown
  }

  function Prefix(k: Key): (pre: string)
    requires k != KeyUnknown
    ensures |pre| > 0
  {
    match k
    case KeyW => "w_"
    case KeyH => "h_"
    case KeyLimit => "limit_"
    case KeyM => "m_"
    case KeyColor => "color_"
    case KeyL => "l_"
    case KeyS => "s_"
    case KeyP => "p_"
  }

  /** The value an option holds: text for m and color, a number for the others. */
  datatype FieldValue = IntVal(i: int) | StrVal(s: string)

  /** What a token's value text becomes: m and color keep it, the others go through Atoi. */
  function Decode(k: Key, v: string): FieldValue {
    if k == KeyM || k == KeyColor then StrVal(v) else IntVal(Atoi(v).0)
  }

  /** The value of one option. */
  function Field(o: ResizeOpt, k: Key): FieldValue
    requires k != KeyUnknown
  {
    match k
    case KeyW => IntVal(o.w)
    case KeyH => IntVal(o.h)
    case KeyLimit => IntVal(o.limit)
    case KeyM => StrVal(o.m)
    case KeyColor => StrVal(o.color)
    case KeyL => IntVal(o.l)
    case KeyS => IntVal(o.s)
    case KeyP => IntVal(o.p)
  }

  /**
   * One token read: its value is the token with every occurrence of its
   * prefix removed; a number that does not parse gives 0.
   */
  function ApplyToken(o: ResizeOpt, t: string): ResizeOpt {
    var k := KeyOf(t);
    if k == KeyUnknown then o
    else
      var v := RemoveAll(t, Prefix(k));
      match k
      case KeyW => o.(w := Atoi(v).0)
      case KeyH => o.(h := Atoi(v).0)
      case KeyLimit => o.(limit := Atoi(v).0)
      case KeyM => o.(m := v)
      case KeyColor => o.(color := v)
      case KeyL => o.(l := Atoi(v).0)
      case KeyS => o.(s := Atoi(v).0)
      case KeyP => o.(p := Atoi(v).0)
  }

  /** Every token read in order, starting from the defaults. */
  function ReadTokens(ts: seq<string>): ResizeOpt {
    if |ts| == 0 then DefaultResizeOpt else ApplyToken(ReadTokens(ts[..|ts| - 1]), ts[|ts| - 1])
  }

  /**
   * The rules applied after reading: a positive p is dropped when w or h is
   * positive, positive l or s are both dropped when w or h is positive, and
   * the options are rejected when w, h, l and s are all 0.
   */
  function Normalize(o: ResizeOpt): (r: Result<ResizeOpt>)
    ensures r.Err? <==> o.w == 0 && o.h == 0 && o.l == 0 && o.s == 0
    ensures r.Err? ==> r.error == BadRequest("InvalidArgument", "Width and Height can not both be 0.")
    ensures r.Ok? ==> r.value.(p := o.p, l := o.l, s := o.s) == o
    ensures r.Ok? && (r.value.w > 0 || r.value.h > 0) ==> r.value.p <= 0 && r.value.l <= 0 && r.value.s <= 0
    ensures r.Ok? ==> r.value.p == o.p || (r.value.p == 0 && o.p > 0)
    ensures r.Ok? ==> (r.value.l == o.l && r.value.s == o.s) ||
                      (r.value.l == 0 && r.value.s == 0 && (o.l > 0 || o.s > 0))
  {
    var o1 := if o.p > 0 && (o.w > 0 || o.h > 0) then o.(p := 0) else o;
    var o2 := if (o1.l > 0 || o1.s > 0) && (o1.w > 0 || o1.h > 0) then o1.(l := 0, s := 0) else o1;
    if o2.w == 0 && o2.h == 0 && o2.l == 0 && o2.s == 0 then
      Err(BadRequest("InvalidArgument", "Width and Height can not both be 0."))
    else Ok(o2)
  }

  /**
   * parseResizeOpt: the token loop followed by the normalisation. Without a
   * `limit_` token the result keeps limit 1.
   */
  method ParseResizeOpt(resizeOpt: seq<string>) returns (r: Result<ResizeOpt>)
    ensures r == Normalize(ReadTokens(resizeOpt))
    ensures r.Ok? && (forall i :: 0 <= i < |resizeOpt| ==> KeyOf(resizeOpt[i]) != KeyLimit) ==> r.value.limit == 1
  {
    var opt := DefaultResizeOpt;
    for i := 0 to |resizeOpt|
      invariant opt == ReadTokens(resizeOpt[..i])
    {
      var o := resizeOpt[i];
      assert resizeOpt[..i + 1][..i] == resizeOpt[..i];
      if HasPrefix(o, "w_") {
        opt := opt.(w := Atoi(RemoveAll(o, "w_")).0);
      } else if HasPrefix(o, "h_") {
        opt := opt.(h := Atoi(RemoveAll(o, "h_")).0);
      } else if HasPrefix(o, "limit_") {
        opt := opt.(limit := Atoi(RemoveAll(o, "limit_")).0);
      } else if HasPrefix(o, "m_") {
        opt := opt.(m := RemoveAll(o, "m_"));
      } else if HasPrefix(o, "color_") {
        opt := opt.(color := RemoveAll(o, "color_"));
      } else if HasPrefix(o, "l_") {
        opt := opt.(l := Atoi(RemoveAll(o, "l_")).0);
      } else if HasPrefix(o, "s_") {
        opt := opt.(s := Atoi(RemoveAll(o, "s_")).0);
      } else if HasPrefix(o, "p_") {
        opt := opt.(p := Atoi(RemoveAll(o, "p_")).0);
      }
    }
    assert resizeOpt[..|resizeOpt|] == resizeOpt;
    if opt.p > 0 && (opt.w > 0 || opt.h > 0) {
      opt := opt.(p := 0);
    }
    if (opt.l > 0 || opt.s > 0) && (opt.w > 0 || opt.h > 0) {
      opt := opt.(l := 0, s := 0);
    }
    if opt.w == 0 && opt.h == 0 && opt.l == 0 && opt.s == 0 {
      r := Err(BadRequest("InvalidArgument", "Width and Height can not both be 0."));
    } else {
      r := Ok(opt);
    }
    if r.Ok? && (forall i :: 0 <= i < |resizeOpt| ==> KeyOf(resizeOpt[i]) != KeyLimit) {
      LastTokenForAbsent(resizeOpt, KeyLimit);
      LastTokenWins(resizeOpt, KeyLimit);
    }
  }

  /** The last token of `ts` that sets option `k`, if any. */
  function LastTokenFor(ts: seq<string>, k: Key): (r: Option<string>)
    ensures r.Some? ==> KeyOf(r.value) == k
  {
    if |ts| == 0 then None
    else if KeyOf(ts[|ts| - 1]) == k then Some(ts[|ts| - 1])
    else LastTokenFor(ts[..|ts| - 1], k)
  }

  /** There is no last token for an option exactly when no token sets it. */
  lemma {:induction false} LastTokenForAbsent(ts: seq<string>, k: Key)
    ensures LastTokenFor(ts, k).None? <==> forall i :: 0 <= i < |ts| ==> KeyOf(ts[i]) != k
  {
    if |ts| > 0 {
      var n := |ts| - 1;
      LastTokenForAbsent(ts[..n], k);
      assert forall i :: 0 <= i < n ==> ts[..n][i] == ts[i];
    }
  }

  /** The last token for an option is the one at the last position that sets it. */
  lemma {:induction false} LastTokenForIsLast(ts: seq<string>, k: Key)
    ensures LastTokenFor(ts, k).Some? ==>
      exists i :: 0 <= i < |ts| && ts[i] == LastTokenFor(ts, k).value &&
        forall j :: i < j < |ts| ==> KeyOf(ts[j]) != k
  {
    if |ts| > 0 {
      var n := |ts| - 1;
      var front := ts[..n];
      if KeyOf(ts[n]) == k {
        assert ts[n] == LastTokenFor(ts, k).value;
      } else if LastTokenFor(front, k).Some? {
        LastTokenForIsLast(front, k);
        var i :| 0 <= i < n && front[i] == LastTokenFor(front, k).value &&
          forall j :: i < j < n ==> KeyOf(front[j]) != k;
        assert ts[i] == LastTokenFor(ts, k).value;
        forall j | i < j < |ts| ensures KeyOf(ts[j]) != k {
          if j < n { assert front[j] == ts[j]; }
        }
      }
    }
  }

  /** One token changes the option it names, to its decoded value, and no other. */
  lemma ApplyTokenField(o: ResizeOpt, t: string, k: Key)
    requires k != KeyUnknown
    ensures Field(ApplyToken(o, t), k) ==
      if KeyOf(t) == k then Decode(k, RemoveAll(t, Prefix(k))) else Field(o, k)
  {
  }

  /**
   * The last token for an option decides its value; with no such token the
   * option keeps its default (limit 1, everything else 0 or empty).
   */
  lemma {:induction false} LastTokenWins(ts: seq<string>, k: Key)
    requires k != KeyUnknown
    ensures Field(ReadTokens(ts), k) ==
      match LastTokenFor(ts, k)
      case None => Field(DefaultResizeOpt, k)
      case Some(t) => Decode(k, RemoveAll(t, Prefix(k)))
  {
    if |ts| > 0 {
      var front := ts[..|ts| - 1];
      var t := ts[|ts| - 1];
      LastTokenWins(front, k);
      assert ReadTokens(ts) == ApplyToken(ReadTokens(front), t);
      ApplyTokenField(ReadTokens(front), t, k);
    }
  }

  /** The tokens whose prefix names an option, in order. */
  function KnownTokens(ts: seq<string>): seq<string> {
    if |ts| == 0 then []
    else if KeyOf(ts[|ts| - 1]) == KeyUnknown then KnownTokens(ts[..|ts| - 1])
    else KnownTokens(ts[..|ts| - 1]) + [ts[|ts| - 1]]
  }

  /** Tokens with an unknown prefix change nothing, wherever they stand. */
  lemma {:induction false} UnknownTokensIgnored(ts: seq<string>)
    ensures ReadTokens(ts) == ReadTokens(KnownTokens(ts))
  {
    if |ts| > 0 {
      var front := ts[..|ts| - 1];
      UnknownTokensIgnored(front);
      if KeyOf(ts[|ts| - 1]) != KeyUnknown {
        var kt := KnownTokens(front) + [ts[|ts| - 1]];
        assert kt[..|kt| - 1] == KnownTokens(front);
      }
    }
  }

  /**
   * A resize without any w_, h_, l_ or s_ token is rejected, whatever else
   * it carries: a percent alone, a mode, a colour, a limit or unknown
   * tokens.
   */
  lemma WithoutSizeRejected(ts: seq<string>)
    requires forall i :: 0 <= i < |ts| ==>
      KeyOf(ts[i]) != KeyW && KeyOf(ts[i]) != KeyH && KeyOf(ts[i]) != KeyL && KeyOf(ts[i]) != KeyS
    ensures Normalize(ReadTokens(ts)) == Err(BadRequest("InvalidArgument", "Width and Height can not both be 0."))
  {
    SizeOptionsStayZero(ts);
  }

  /** Without a w_, h_, l_ or s_ token the four size options keep their default 0. */
  lemma SizeOptionsStayZero(ts: seq<string>)
    requires forall i :: 0 <= i < |ts| ==>
      KeyOf(ts[i]) != KeyW && KeyOf(ts[i]) != KeyH && KeyOf(ts[i]) != KeyL && KeyOf(ts[i]) != KeyS
    ensures ReadTokens(ts).w == 0 && ReadTokens(ts).h == 0 && ReadTokens(ts).l == 0 && ReadTokens(ts).s == 0
  {
    var o := ReadTokens(ts);
    assert o.w == 0 by { NoTokenKeepsDefault(ts, KeyW); }
    assert o.h == 0 by { NoTokenKeepsDefault(ts, KeyH); }
    assert o.l == 0 by { NoTokenKeepsDefault(ts, KeyL); }
    assert o.s == 0 by { NoTokenKeepsDefault(ts, KeyS); }
  }

  /** An option no token sets keeps its default. */
  lemma NoTokenKeepsDefault(ts: seq<string>, k: Key)
    requires k != KeyUnknown
    requires forall i :: 0 <= i < |ts| ==> KeyOf(ts[i]) != k
    ensures Field(ReadTokens(ts), k) == Field(DefaultResizeOpt, k)
  {
    LastTokenForAbsent(ts, k);
    LastTokenWins(ts, k);
  }

  /**
   * fillWideAndHigh: when neither w nor h is positive, the long edge l goes
   * to the longer axis of the source (the width when H < W, otherwise the
   * height) and the short edge s to the other. No other option changes.
   */
  function FillWideAndHigh(originHeight: int, originWidth: int, o: ResizeOpt): (r: ResizeOpt)
    ensures r.(w := o.w, h := o.h) == o
    ensures (o.w > 0 || o.h > 0) ==> r == o
    ensures !(o.w > 0 || o.h > 0) && originHeight < originWidth ==> r.w == o.l && r.h == o.s
    ensures !(o.w > 0 || o.h > 0) && originHeight >= originWidth ==> r.w == o.s && r.h == o.l
  {
    if o.w > 0 || o.h > 0 then o
    else if originHeight < originWidth then o.(h := o.s, w := o.l)
    else o.(h := o.l, w := o.s)
  }

  /** The derived box has the source's orientation when l is at least s. */
  lemma FillKeepsOrientation(originHeight: int, originWidth: int, o: ResizeOpt)
    requires !(o.w > 0 || o.h > 0) && o.l >= o.s
    ensures var r := FillWideAndHigh(originHeight, originWidth, o);
      (originHeight < originWidth ==> r.w >= r.h) && (originHeight >= originWidth ==> r.h >= r.w)
  {
  }

  /** Filling twice is filling once. */
  lemma FillIdempotent(originHeight: int, originWidth: int, o: ResizeOpt)
    ensures var r := FillWideAndHigh(originHeight, originWidth, o);
      FillWideAndHigh(originHeight, originWidth, r) == r
  {
  }

  /**
   * fixedNum, for ints and for float scales alike (`zero` is the type's 0):
   * a pair with both values set is kept; when exactly one is 0 both become
   * the other; a result is 0 only when both inputs are.
   */
  function FixedNum<T(==)>(n1: T, n2: T, zero: T): (r: (T, T))
    ensures n1 != zero && n2 != zero ==> r == (n1, n2)
    ensures n1 == zero && n2 != zero ==> r == (n2, n2)
    ensures n1 != zero && n2 == zero ==> r == (n1, n1)
    ensures (r.0 == zero || r.1 == zero) ==> n1 == zero && n2 == zero
  {
    if n1 == zero then (n2, n2)
    else if n2 == zero then (n1, n1)
    else (n1, n2)
  }

  /** fixedNum applied to its own result changes nothing. */
  lemma FixedNumIdempotent<T>(n1: T, n2: T, zero: T)
    ensures var r := FixedNum(n1, n2, zero); FixedNum(r.0, r.1, zero) == r
  {
  }

  /** limit: some positive target axis is smaller than the source's. */
  predicate Limit(o: ResizeOpt, width: int, height: int) {
    (o.w < width && o.w > 0) || (o.h < height && o.h > 0)
  }
}
