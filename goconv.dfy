/**
 * The number conversions the handler borrows from Go's standard library:
 * strconv.Atoi (64-bit int), the `%d` verb of fmt.Sprintf, and the
 * `%02x%02x%02x` pattern of fmt.Sscanf used to read a colour.
 */
module GoConv {
  import opened Common

  const MaxUint64: int := 0xFFFF_FFFF_FFFF_FFFF
  const MaxInt64: int := 0x7FFF_FFFF_FFFF_FFFF
  const MinInt64: int := -0x8000_0000_0000_0000
  /** ParseUint's overflow cutoff for base 10: maxUint64/10 + 1. */
  const Cutoff: int := MaxUint64 / 10 + 1

  predicate IsDigit(c: char) { '0' <= c <= '9' }

  function DigitValue(c: char): (d: nat)
    requires IsDigit(c)
    ensures d < 10
  {
    c as int - '0' as int
  }

  function DigitChar(d: nat): (c: char)
    requires d < 10
    ensures IsDigit(c) && DigitValue(c) == d
  {
    ('0' as int + d) as char
  }

  function Pow10(k: nat): (p: nat)
    ensures p >= 1
  {
    if k == 0 then 1 else 10 * Pow10(k - 1)
  }

  /** The outcome of strconv.ParseUint's digit loop. */
  datatype Scan = SyntaxErr | RangeErr | Scanned(n: nat)

  /**
   * strconv.ParseUint's loop for base 10 and 64 bits, with `n` the value
   * read so far. A non-digit is a syntax error; an overflow stops the loop at
   * once, before any later character is looked at.
   */
  function ScanUint(s: string, n: nat): (r: Scan)
    requires n <= MaxUint64
    ensures r.Scanned? ==> n <= r.n <= MaxUint64
    ensures r.Scanned? ==> forall i :: 0 <= i < |s| ==> IsDigit(s[i])
    decreases |s|
  {
    if |s| == 0 then Scanned(n)
    else if !IsDigit(s[0]) then SyntaxErr
    else if n >= Cutoff then RangeErr
    else if n * 10 + DigitValue(s[0]) > MaxUint64 then RangeErr
    else ScanUint(s[1..], n * 10 + DigitValue(s[0]))
  }

  /** The digits after an optional leading sign. */
  function Unsigned(s: string): string {
    if |s| > 0 && (s[0] == '+' || s[0] == '-') then s[1..] else s
  }

  /** A decimal numeral: an optional sign and at least one digit. */
  predicate IsNumeral(s: string) {
    var body := Unsigned(s);
    |body| > 0 && forall i :: 0 <= i < |body| ==> IsDigit(body[i])
  }

  /**
   * strconv.Atoi on a 64-bit platform, as the pair (value, err == nil).
   * Malformed text gives 0; a numeral out of the int64 range gives the
   * nearest bound (both with an error, which the service discards).
   */
  function Atoi(s: string): (r: (int, bool))
    ensures MinInt64 <= r.0 <= MaxInt64
    ensures r.1 ==> IsNumeral(s)
  {
    var neg := |s| > 0 && s[0] == '-';
    var body := Unsigned(s);
    if |body| == 0 then (0, false)
    else match ScanUint(body, 0)
      case SyntaxErr => (0, false)
      case RangeErr => if neg then (MinInt64, false) else (MaxInt64, false)
      case Scanned(u) =>
        if !neg && u > MaxInt64 then (MaxInt64, false)
        else if neg && u > -MinInt64 then (MinInt64, false)
        else if neg then (-(u as int), true)
        else (u, true)
  }

  /** The decimal digits of a natural number, most significant first. */
  function NatToDecimal(n: nat): (s: string)
    ensures |s| >= 1
    ensures forall i :: 0 <= i < |s| ==> IsDigit(s[i])
  {
    if n < 10 then [DigitChar(n)] else NatToDecimal(n / 10) + [DigitChar(n % 10)]
  }

  /** The `%d` verb of fmt.Sprintf for an int. */
  function Itoa(n: int): string {
    if n < 0 then "-" + NatToDecimal(-n) else NatToDecimal(n)
  }

  /** The digit loop reads a concatenation piece by piece. */
  lemma {:induction false} ScanAppend(a: string, b: string, n: nat)
    requires n <= MaxUint64
    ensures ScanUint(a + b, n) ==
      match ScanUint(a, n)
      case Scanned(k) => ScanUint(b, k)
      case other => other
    decreases |a|
  {
    if |a| == 0 {
      assert a + b == b;
    } else {
      assert (a + b)[0] == a[0];
      assert (a + b)[1..] == a[1..] + b;
      if IsDigit(a[0]) && n < Cutoff && n * 10 + DigitValue(a[0]) <= MaxUint64 {
        ScanAppend(a[1..], b, n * 10 + DigitValue(a[0]));
      }
    }
  }

  /** The digit loop reads back the decimal digits of any 64-bit unsigned value. */
  lemma {:induction false} ScanDecimal(m: nat)
    requires m <= MaxUint64
    ensures ScanUint(NatToDecimal(m), 0) == Scanned(m)
  {
    if m >= 10 {
      var d := DigitChar(m % 10);
      ScanDecimal(m / 10);
      ScanAppend(NatToDecimal(m / 10), [d], 0);
      assert m / 10 < Cutoff;
      assert (m / 10) * 10 + m % 10 == m;
      assert [d][1..] == "";
    } else {
      assert NatToDecimal(m)[1..] == "";
    }
  }

  /** Atoi reads back what `%d` writes, for every 64-bit int. */
  lemma AtoiItoa(n: int)
    requires MinInt64 <= n <= MaxInt64
    ensures Atoi(Itoa(n)) == (n, true)
  {
    if n < 0 {
      ScanDecimal(-n);
      assert Unsigned(Itoa(n)) == NatToDecimal(-n);
    } else {
      ScanDecimal(n);
      assert Unsigned(Itoa(n)) == NatToDecimal(n);
    }
  }

  /**
   * The digit loop stops with a syntax error at a non-digit when the digits
   * before it cannot overflow.
   */
  lemma {:induction false} ScanStopsAtNonDigit(s: string, n: nat, j: nat)
    requires j < |s| && !IsDigit(s[j])
    requires forall k :: 0 <= k < j ==> IsDigit(s[k])
    requires (n + 1) * Pow10(j) <= Pow10(19)
    ensures n <= MaxUint64 && ScanUint(s, n) == SyntaxErr
    decreases j
  {
    Pow10Of19();
    MulLe(1, Pow10(j), n + 1);
    if j > 0 {
      var p := Pow10(j - 1);
      var d := DigitValue(s[0]);
      var n' := n * 10 + d;
      assert (n + 1) * Pow10(j) == ((n + 1) * 10) * p;
      MulLe(1, p, (n + 1) * 10);
      assert n < Cutoff;
      MulLe(n' + 1, (n + 1) * 10, p);
      ScanStopsAtNonDigit(s[1..], n', j - 1);
    }
  }

  lemma MulLe(a: nat, b: nat, c: nat)
    requires a <= b
    ensures a * c <= b * c
  {
  }

  lemma Pow10Of19()
    ensures Pow10(19) == 10_000_000_000_000_000_000
  {
    assert Pow10(1) == 10;
    assert Pow10(2) == 100;
    assert Pow10(3) == 1000;
    assert Pow10(4) == 10000;
    assert Pow10(5) == 100000;
    assert Pow10(6) == 1000000;
    assert Pow10(7) == 10000000;
    assert Pow10(8) == 100000000;
    assert Pow10(9) == 1000000000;
    assert Pow10(10) == 10000000000;
    assert Pow10(11) == 100000000000;
    assert Pow10(12) == 1000000000000;
    assert Pow10(13) == 10000000000000;
    assert Pow10(14) == 100000000000000;
    assert Pow10(15) == 1000000000000000;
    assert Pow10(16) == 10000000000000000;
    assert Pow10(17) == 100000000000000000;
    assert Pow10(18) == 1000000000000000000;
    assert Pow10(19) == 10000000000000000000;
  }

  lemma {:induction false} Pow10Monotone(i: nat, j: nat)
    requires i <= j
    ensures Pow10(i) <= Pow10(j)
    decreases j
  {
    if i < j { Pow10Monotone(i, j - 1); }
  }

  /**
   * Malformed text of at most 20 characters reads as 0 (longer text whose
   * first 20 digits already overflow is clamped instead, as Go does).
   */
  lemma AtoiMalformed(s: string)
    requires |s| <= 20 && !IsNumeral(s)
    ensures Atoi(s) == (0, false)
  {
    var body := Unsigned(s);
    if |body| > 0 {
      var j :| 0 <= j < |body| && !IsDigit(body[j]);
      var j0 := FirstNonDigit(body, j);
      Pow10Monotone(j0, 19);
      assert (0 + 1) * Pow10(j0) == Pow10(j0);
      ScanStopsAtNonDigit(body, 0, j0);
      assert ScanUint(body, 0) == SyntaxErr;
    }
  }

  /** The first non-digit of `s`, given that one exists at or before `j`. */
  lemma {:induction false} FirstNonDigit(s: string, j: nat) returns (j0: nat)
    requires j < |s| && !IsDigit(s[j])
    ensures j0 <= j && !IsDigit(s[j0])
    ensures forall k :: 0 <= k < j0 ==> IsDigit(s[k])
    decreases j
  {
    if exists k :: 0 <= k < j && !IsDigit(s[k]) {
      var k :| 0 <= k < j && !IsDigit(s[k]);
      j0 := FirstNonDigit(s, k);
    } else {
      j0 := j;
    }
  }

  predicate IsHexDigit(c: char) {
    ('0' <= c <= '9') || ('a' <= c <= 'f') || ('A' <= c <= 'F')
  }

  function HexValue(c: char): (v: nat)
    requires IsHexDigit(c)
    ensures v < 16
  {
    if '0' <= c <= '9' then c as int - '0' as int
    else if 'a' <= c <= 'f' then c as int - 'a' as int + 10
    else c as int - 'A' as int + 10
  }

  /**
   * One `%02x` verb of fmt.Sscanf: at least one and at most two hex digits.
   * Gives the value read and the rest of the input.
   */
  function ScanHexByte(s: string): (r: Option<(byte, string)>)
    ensures r.Some? <==> |s| > 0 && IsHexDigit(s[0])
    ensures r.Some? ==> |s| - 2 <= |r.value.1| <= |s| - 1
    ensures r.Some? ==> r.value.1 == s[|s| - |r.value.1|..]
  {
    if |s| > 0 && IsHexDigit(s[0]) then
      if |s| > 1 && IsHexDigit(s[1]) then Some((16 * HexValue(s[0]) + HexValue(s[1]), s[2..]))
      else Some((HexValue(s[0]), s[1..]))
    else None
  }

  /**
   * fmt.Sscanf(s, "%02x%02x%02x", &r, &g, &b) succeeding: three hex bytes
   * read one after the other; whatever follows them is ignored.
   */
  function ScanColor(s: string): Option<Color> {
    match ScanHexByte(s)
    case None => None
    case Some((r, s1)) =>
      match ScanHexByte(s1)
      case None => None
      case Some((g, s2)) =>
        match ScanHexByte(s2)
        case None => None
        case Some((b, _)) => Some(Color(r, g, b))
  }

  /** Lower-case hex digit, as a reference encoder for ScanColor. */
  function HexChar(v: nat): (c: char)
    requires v < 16
    ensures IsHexDigit(c) && HexValue(c) == v
  {
    if v < 10 then ('0' as int + v) as char else ('a' as int + v - 10) as char
  }

  /** The six-digit `rrggbb` form of a colour. */
  function HexColor(c: Color): (s: string)
    ensures |s| == 6
  {
    [HexChar(c.r / 16), HexChar(c.r % 16), HexChar(c.g / 16), HexChar(c.g % 16),
     HexChar(c.b / 16), HexChar(c.b % 16)]
  }

  /** The colour scan reads back every `rrggbb` text, whatever follows it. */
  lemma ScanHexColor(c: Color, rest: string)
    ensures ScanColor(HexColor(c) + rest) == Some(c)
  {
    var s := HexColor(c) + rest;
    assert ScanHexByte(s) == Some((c.r, s[2..]));
    assert ScanHexByte(s[2..]) == Some((c.g, s[4..]));
    assert ScanHexByte(s[4..]) == Some((c.b, s[6..]));
  }

  /** A colour scan fails when fewer than three hex digits lead the text. */
  lemma ScanColorNeedsThreeDigits(s: string)
    requires |s| < 3 || !IsHexDigit(s[0])
    ensures ScanColor(s) == None
  {
  }
}
