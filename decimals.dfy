/**
  Foundation's `Decimal`: an exact base-10 number. A value is `units / 10^scale`;
  the subset type `Decimal` keeps it normalised (no trailing zero digit when
  `scale > 0`), so that `==` on it is Swift's numeric equality (`NormalUnique`).
  `Format` is Swift's `"\(d)"`, `ParseWith` is `Decimal(string:)` with a given
  decimal separator.
*/
module Decimals {
  import opened Wrappers
  import opened Text

  function Pow10(n: nat): (p: nat)
    ensures p >= 1
  {
    if n == 0 then 1 else 10 * Pow10(n - 1)
  }

  lemma {:induction false} Pow10Add(m: nat, n: nat)
    ensures Pow10(m + n) == Pow10(m) * Pow10(n)
  {
    if n > 0 {
      Pow10Add(m, n - 1);
      assert Pow10(m + n) == 10 * Pow10(m + n - 1);
    }
  }

  datatype Dec = Dec(units: int, scale: nat)

  predicate Normal(d: Dec) {
    d.scale == 0 || d.units % 10 != 0
  }

  type Decimal = d: Dec | Normal(d) witness Dec(0, 0)

  const Zero: Decimal := Dec(0, 0)

  /** The exact rational number a decimal stands for. */
  function Value(d: Dec): real {
    d.units as real / Pow10(d.scale) as real
  }

  /** Drops trailing zero digits. */
  function Normalize(d: Dec): (r: Decimal)
    ensures r.scale <= d.scale
    decreases d.scale
  {
    if d.scale > 0 && d.units % 10 == 0 then Normalize(Dec(d.units / 10, d.scale - 1)) else d
  }

  lemma CancelFactor(a: real, b: real, k: real)
    requires b > 0.0 && k > 0.0
    ensures (a * k) / (b * k) == a / b
  {
  }

  lemma {:induction false} NormalizeValue(d: Dec)
    ensures Value(Normalize(d)) == Value(d)
    decreases d.scale
  {
    if d.scale > 0 && d.units % 10 == 0 {
      var q := d.units / 10;
      NormalizeValue(Dec(q, d.scale - 1));
      assert d.units == q * 10;
      CancelFactor(q as real, Pow10(d.scale - 1) as real, 10.0);
    }
  }

  lemma {:induction false} ScaleUp(u: int, s: nat, k: nat)
    ensures Value(Dec(u * Pow10(k), s + k)) == Value(Dec(u, s))
  {
    Pow10Add(s, k);
    ScaledQuotient(u, u * Pow10(k), Pow10(s), Pow10(k), Pow10(s + k));
  }

  lemma ScaledQuotient(x: int, y: int, p: int, q: int, r: int)
    requires p >= 1 && q >= 1 && y == x * q && r == p * q
    ensures y as real / r as real == x as real / p as real
  {
    IntTimesReal(x, q);
    IntTimesReal(p, q);
    CancelFactor(x as real, p as real, q as real);
  }

  lemma IntTimesReal(x: int, y: int)
    ensures (x * y) as real == x as real * y as real
  {
  }

  /** A normal decimal is determined by its value: Swift's `==` is structural equality here. */
  lemma NormalUnique(a: Decimal, b: Decimal)
    requires Value(a) == Value(b)
    ensures a == b
  {
    if a.scale <= b.scale {
      NormalUniqueOrdered(a, b);
    } else {
      NormalUniqueOrdered(b, a);
    }
  }

  lemma NormalUniqueOrdered(a: Decimal, b: Decimal)
    requires Value(a) == Value(b) && a.scale <= b.scale
    ensures a == b
  {
    var k := b.scale - a.scale;
    ScaleUp(a.units, a.scale, k);
    SameDenominator((a.units * Pow10(k)) as real, b.units as real, Pow10(b.scale) as real);
    if k > 0 {
      TimesPowerOfTen(a.units, k);
    }
  }

  lemma SameDenominator(x: real, y: real, p: real)
    requires p > 0.0 && x / p == y / p
    ensures x == y
  {
    assert x == (x / p) * p;
  }

  lemma TimesPowerOfTen(u: int, k: nat)
    requires k > 0
    ensures (u * Pow10(k)) % 10 == 0
  {
    var m := u * Pow10(k - 1);
    assert u * Pow10(k) == m * 10;
  }

  function Neg(d: Decimal): (r: Decimal)
    ensures Value(r) == -Value(d)
  {
    assert (-d.units) % 10 == 0 ==> d.units % 10 == 0;
    Dec(-d.units, d.scale)
  }

  function Max(a: nat, b: nat): nat {
    if a < b then b else a
  }

  /** Exact `Decimal` addition. */
  function Add(a: Decimal, b: Decimal): (r: Decimal)
    ensures Value(r) == Value(a) + Value(b)
  {
    var s := Max(a.scale, b.scale);
    var aligned := Dec(a.units * Pow10(s - a.scale) + b.units * Pow10(s - b.scale), s);
    AddAligned(a, b, s);
    NormalizeValue(aligned);
    Normalize(aligned)
  }

  lemma AddAligned(a: Dec, b: Dec, s: nat)
    requires a.scale <= s && b.scale <= s
    ensures Value(Dec(a.units * Pow10(s - a.scale) + b.units * Pow10(s - b.scale), s)) == Value(a) + Value(b)
  {
    var ua := a.units * Pow10(s - a.scale);
    var ub := b.units * Pow10(s - b.scale);
    ScaleUp(a.units, a.scale, s - a.scale);
    ScaleUp(b.units, b.scale, s - b.scale);
    DivideSum(ua as real, ub as real, Pow10(s) as real);
  }

  lemma DivideSum(x: real, y: real, p: real)
    requires p > 0.0
    ensures (x + y) / p == x / p + y / p
  {
  }

  /** Sum of a list of decimals, accumulated from the left as `total += x` does. */
  function Sum(ds: seq<Decimal>): Decimal {
    if ds == [] then Zero else Add(Sum(ds[..|ds| - 1]), ds[|ds| - 1])
  }

  /** Sum of the exact values of a list of decimals. */
  function ValueSum(ds: seq<Decimal>): real {
    if ds == [] then 0.0 else ValueSum(ds[..|ds| - 1]) + Value(ds[|ds| - 1])
  }

  lemma {:induction false} SumValue(ds: seq<Decimal>)
    ensures Value(Sum(ds)) == ValueSum(ds)
  {
    if ds != [] {
      SumValue(ds[..|ds| - 1]);
    }
  }

  // ---- digit strings ----

  /** Decimal digits of `n`, most significant first, without leading zeros. */
  function NatToDigits(n: nat): (s: string)
    ensures |s| >= 1 && AllDigits(s)
  {
    if n < 10 then [DigitChar(n)] else NatToDigits(n / 10) + [DigitChar(n % 10)]
  }

  function DigitsToNat(s: string): nat
    requires AllDigits(s)
  {
    if s == [] then 0 else DigitsToNat(s[..|s| - 1]) * 10 + DigitValue(s[|s| - 1])
  }

  lemma {:induction false} DigitsRoundTrip(n: nat)
    ensures DigitsToNat(NatToDigits(n)) == n
  {
    if n >= 10 {
      var s := NatToDigits(n);
      assert s[..|s| - 1] == NatToDigits(n / 10);
      DigitsRoundTrip(n / 10);
    }
  }

  lemma {:induction false} DigitsLength(n: nat, k: nat)
    requires k >= 1 && n < Pow10(k)
    ensures |NatToDigits(n)| <= k
  {
    if n >= 10 {
      DigitsLength(n / 10, k - 1);
    }
  }

  lemma {:induction false} ZerosValue(m: nat)
    ensures DigitsToNat(Zeros(m)) == 0
  {
    if m > 0 {
      assert Zeros(m)[..m - 1] == Zeros(m - 1);
      ZerosValue(m - 1);
    }
  }

  lemma {:induction false} LeadingZeros(m: nat, s: string)
    requires AllDigits(s)
    ensures DigitsToNat(Zeros(m) + s) == DigitsToNat(s)
  {
    if s == [] {
      assert Zeros(m) + s == Zeros(m);
      ZerosValue(m);
    } else {
      var t := Zeros(m) + s;
      assert t[..|t| - 1] == Zeros(m) + s[..|s| - 1];
      LeadingZeros(m, s[..|s| - 1]);
    }
  }

  // ---- text form ----

  function Abs(i: int): nat {
    if i < 0 then -i else i
  }

  /** Swift's `"\(d)"`: optional '-', integer digits, and the fraction digits after '.' when there are any. */
  function Format(d: Decimal): string {
    (if d.units < 0 then "-" else "") + Magnitude(Abs(d.units), d.scale)
  }

  /** Digits of `n / 10^scale`, with the `scale` fraction digits after a '.' when `scale > 0`. */
  function Magnitude(n: nat, scale: nat): string {
    NatToDigits(WholePart(n, scale)) + (if scale == 0 then "" else "." + FractionDigits(FractionPart(n, scale), scale))
  }

  function WholePart(n: nat, scale: nat): nat {
    var p := Pow10(scale);
    assert n / p >= 0 by {
      DivOfNat(n, p);
    }
    n / p
  }

  lemma DivOfNat(n: nat, p: nat)
    requires p >= 1
    ensures n / p >= 0
  {
  }

  function FractionPart(n: nat, scale: nat): (r: nat)
    ensures r < Pow10(scale)
  {
    n % Pow10(scale)
  }

  lemma Recombine(n: nat, scale: nat)
    ensures WholePart(n, scale) * Pow10(scale) + FractionPart(n, scale) == n
  {
  }

  /** `Decimal(string:)` for the separator `sep`: an optional sign, then digits with at most one separator, at least one digit. */
  function ParseWith(s: string, sep: char): Option<Decimal> {
    if |s| > 0 && (s[0] == '-' || s[0] == '+') then
      match ParseUnsigned(s[1..], sep)
      case None => None
      case Some(d) => Some(if s[0] == '-' then Neg(d) else d)
    else
      ParseUnsigned(s, sep)
  }

  function ParseUnsigned(s: string, sep: char): Option<Decimal> {
    var k := IndexOf(s, sep);
    var whole := s[..k];
    var fraction := if k < |s| then s[k + 1..] else [];
    if AllDigits(whole) && AllDigits(fraction) && |whole| + |fraction| > 0 then
      Some(Normalize(Dec(Units(whole, fraction), |fraction|)))
    else
      None
  }

  /** The digits on both sides of the separator read as one integer. */
  function Units(whole: string, fraction: string): nat
    requires AllDigits(whole) && AllDigits(fraction)
  {
    DigitsToNat(whole) * Pow10(|fraction|) + DigitsToNat(fraction)
  }

  /** `Decimal(string:)` with the '.' separator. */
  function Parse(s: string): Option<Decimal> {
    ParseWith(s, '.')
  }

  /** `Decimal(string: s) ?? 0`, the fallback every decoder here uses. */
  function ParseOrZero(s: string): Decimal {
    Parse(s).GetOr(Zero)
  }

  lemma MagnitudeRoundTrip(n: nat, scale: nat)
    requires Normal(Dec(n, scale))
    ensures ParseUnsigned(Magnitude(n, scale), '.') == Some(Dec(n, scale))
  {
    var whole := NatToDigits(WholePart(n, scale));
    DigitsRoundTrip(WholePart(n, scale));
    if scale == 0 {
      assert Magnitude(n, scale) == whole;
      assert whole[..|whole|] == whole;
      Recombine(n, scale);
    } else {
      var fraction := FractionDigits(FractionPart(n, scale), scale);
      assert Magnitude(n, scale) == whole + "." + fraction;
      Recombine(n, scale);
      assert Units(whole, fraction) == n;
      ParsedParts(whole, fraction, n, scale);
    }
  }

  lemma ParsedParts(whole: string, fraction: string, n: nat, scale: nat)
    requires scale >= 1 && |whole| >= 1 && AllDigits(whole) && AllDigits(fraction) && |fraction| == scale
    requires Units(whole, fraction) == n
    requires Normal(Dec(n, scale))
    requires '.' !in whole
    ensures ParseUnsigned(whole + "." + fraction, '.') == Some(Dec(n, scale))
  {
    var text := whole + "." + fraction;
    IndexOfAfterPrefix(whole, '.', fraction);
    assert text[..|whole|] == whole;
    assert text[|whole| + 1..] == fraction;
    NormalizeNormal(Dec(n, scale));
  }

  lemma NormalizeNormal(d: Dec)
    requires Normal(d)
    ensures Normalize(d) == d
  {
  }

  /** The fraction part written with exactly `scale` digits. */
  lemma PaddedDigits(r: nat, scale: nat)
    requires scale >= 1 && r < Pow10(scale)
    ensures |PadLeft(NatToDigits(r), scale)| == scale
    ensures AllDigits(PadLeft(NatToDigits(r), scale)) && DigitsToNat(PadLeft(NatToDigits(r), scale)) == r
  {
    var digits := NatToDigits(r);
    DigitsLength(r, scale);
    LeadingZeros(scale - |digits|, digits);
    DigitsRoundTrip(r);
  }

  /** `r` written with exactly `scale` digits, zero-padded on the left. */
  function FractionDigits(r: nat, scale: nat): (s: string)
    requires scale >= 1 && r < Pow10(scale)
    ensures |s| == scale && AllDigits(s) && DigitsToNat(s) == r
  {
    PaddedDigits(r, scale);
    PadLeft(NatToDigits(r), scale)
  }

  /** Decoding what the encoder wrote gives the same decimal back. */
  lemma ParseFormat(d: Decimal)
    ensures Parse(Format(d)) == Some(d)
  {
    var n := Abs(d.units);
    AbsNormal(d);
    MagnitudeRoundTrip(n, d.scale);
    MagnitudeStartsWithDigit(n, d.scale);
    var body := Magnitude(n, d.scale);
    if d.units < 0 {
      ParseSigned(body, Dec(n, d.scale));
      assert Neg(Dec(n, d.scale)) == d;
    } else {
      assert Format(d) == body;
    }
  }

  lemma MagnitudeStartsWithDigit(n: nat, scale: nat)
    ensures |Magnitude(n, scale)| > 0 && IsDigit(Magnitude(n, scale)[0])
  {
  }

  lemma ParseSigned(body: string, x: Decimal)
    requires ParseUnsigned(body, '.') == Some(x)
    ensures ParseWith("-" + body, '.') == Some(Neg(x))
  {
    assert ("-" + body)[1..] == body;
  }

  lemma AbsNormal(d: Decimal)
    ensures Normal(Dec(Abs(d.units), d.scale))
  {
    if d.units < 0 && d.scale > 0 {
      assert d.units % 10 != 0;
      assert (-d.units) % 10 != 0;
    }
  }

  /** A character that is neither a digit, the separator nor a sign makes the text unparsable. */
  lemma ParseRejects(s: string, sep: char, i: nat)
    requires i < |s| && !IsDigit(s[i]) && s[i] != sep && s[i] != '-' && s[i] != '+'
    ensures ParseWith(s, sep) == None
  {
    if s[0] == '-' || s[0] == '+' {
      UnsignedRejects(s[1..], sep, i - 1);
    } else {
      UnsignedRejects(s, sep, i);
    }
  }

  lemma UnsignedRejects(s: string, sep: char, i: nat)
    requires i < |s| && !IsDigit(s[i]) && s[i] != sep
    ensures ParseUnsigned(s, sep) == None
  {
    var k := IndexOf(s, sep);
    if i < k {
      assert s[..k][i] == s[i];
    } else {
      assert s[k + 1..][i - k - 1] == s[i];
    }
  }

  /** Digits with at most one separator and at least one digit always parse. */
  lemma ParseAccepts(s: string, sep: char)
    requires !IsDigit(sep) && sep != '-' && sep != '+'
    requires forall i :: 0 <= i < |s| ==> IsDigit(s[i]) || s[i] == sep
    requires Count(s, sep) <= 1
    requires exists i :: 0 <= i < |s| && IsDigit(s[i])
    ensures ParseWith(s, sep).Some?
  {
    var k := IndexOf(s, sep);
    var whole := s[..k];
    assert AllDigits(whole) by {
      forall j | 0 <= j < |whole| ensures IsDigit(whole[j]) {
        assert whole[j] == s[j];
      }
    }
    var fraction := if k < |s| then s[k + 1..] else [];
    if k < |s| {
      AfterFirstHasNoOther(s, sep);
      assert AllDigits(fraction) by {
        forall j | 0 <= j < |fraction| ensures IsDigit(fraction[j]) {
          assert fraction[j] == s[k + 1 + j];
        }
      }
      var i :| 0 <= i < |s| && IsDigit(s[i]);
      assert i < k || i > k;
    }
    UnsignedAccepts(s, sep, whole, fraction);
  }

  lemma UnsignedAccepts(s: string, sep: char, whole: string, fraction: string)
    requires |s| > 0 && s[0] != '-' && s[0] != '+'
    requires whole == s[..IndexOf(s, sep)]
    requires fraction == if IndexOf(s, sep) < |s| then s[IndexOf(s, sep) + 1..] else []
    requires AllDigits(whole) && AllDigits(fraction) && |whole| + |fraction| > 0
    ensures ParseWith(s, sep).Some?
  {
  }

  lemma AfterFirstHasNoOther(s: string, sep: char)
    requires Count(s, sep) <= 1 && IndexOf(s, sep) < |s|
    ensures sep !in s[IndexOf(s, sep) + 1..]
  {
    var k := IndexOf(s, sep);
    assert s == s[..k] + [sep] + s[k + 1..];
    CountAppend(s[..k] + [sep], s[k + 1..], sep);
    CountAppend(s[..k], [sep], sep);
  }
}
