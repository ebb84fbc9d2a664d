/** `canonical_number` of `canonical.py`: rounding to 1e-8 with ties to even, and the text it prints. */
module Canonical {
  import opened Wrappers

  const SCALE: int := 100_000_000

  // ---------- rounding ----------

  /** roundTiesToEven of section 4.3.1 of IEEE 754-2008, to an integer. */
  function RoundHalfEven(x: real): int {
    var below := x.Floor;
    var excess := x - below as real;
    if excess < 0.5 || (excess == 0.5 && below % 2 == 0) then below else below + 1
  }

  /** The quantised value, counted in units of 1e-8. */
  function Quantize(x: real): int {
    RoundHalfEven(x * SCALE as real)
  }

  function FromUnits(units: int): real {
    units as real / SCALE as real
  }

  lemma {:induction false} UnitsExact(units: int)
    ensures FromUnits(units) * SCALE as real == units as real
    ensures Quantize(FromUnits(units)) == units
  {
  }

  /** The error is at most half a unit, and an exact tie goes to the even neighbour. */
  lemma {:induction false} QuantizeNearest(x: real)
    ensures -0.5 <= x * SCALE as real - Quantize(x) as real <= 0.5
    ensures x * SCALE as real - Quantize(x) as real in {-0.5, 0.5} ==> Quantize(x) % 2 == 0
  {
  }

  lemma {:induction false} QuantizeMonotone(x: real, y: real)
    requires x <= y
    ensures Quantize(x) <= Quantize(y)
  {
  }

  // ---------- text ----------

  function DigitChar(d: nat): char
    requires d < 10
  {
    '0' + d as char
  }

  predicate IsDigit(c: char) {
    '0' <= c <= '9'
  }

  function DigitValue(c: char): nat
    requires IsDigit(c)
  {
    c as int - '0' as int
  }

  function NatText(n: nat): string {
    if n < 10 then [DigitChar(n)] else NatText(n / 10) + [DigitChar(n % 10)]
  }

  function Padded(n: nat, width: nat): string {
    if width == 0 then "" else Padded(n / 10, width - 1) + [DigitChar(n % 10)]
  }

  function Magnitude(n: int): nat {
    if n < 0 then -n else n
  }

  /** `format(quantized, "f")`: eight decimals, a sign when negative, and "0" for every zero. */
  function Render(units: int): string {
    if units == 0 then "0"
    else (if units < 0 then "-" else "") + Body(Magnitude(units))
  }

  function Body(n: nat): string {
    NatText(n / SCALE) + "." + Padded(n % SCALE, 8)
  }

  function CanonicalNumber(x: real): string {
    Render(Quantize(x))
  }

  function Pow10(k: nat): nat {
    if k == 0 then 1 else 10 * Pow10(k - 1)
  }

  function Digits(s: string): nat
    requires forall c :: c in s ==> IsDigit(c)
  {
    if s == "" then 0
    else Digits(s[..|s| - 1]) * 10 + DigitValue(s[|s| - 1])
  }

  function Find(s: string, c: char): (i: nat)
    ensures i <= |s| && (i < |s| ==> s[i] == c) && c !in s[..i]
  {
    if s == "" || s[0] == c then 0
    else
      var i := 1 + Find(s[1..], c);
      assert s[..i] == [s[0]] + s[1..][..i - 1];
      i
  }

  /** The value `Decimal(text)` reads from a plain decimal: optional sign, digits, optional fraction. */
  function DecimalOf(text: string): Option<real> {
    if text != "" && text[0] == '-' then
      match Unsigned(text[1..])
      case None => None
      case Some(v) => Some(-v)
    else Unsigned(text)
  }

  function Unsigned(text: string): Option<real> {
    var dot := Find(text, '.');
    var fraction := if dot < |text| then text[dot + 1..] else "";
    var digits := text[..dot] + fraction;
    if digits == "" || exists c :: c in digits && !IsDigit(c) then None
    else
      assert Pow10(|fraction|) > 0 by { Pow10Positive(|fraction|); }
      Some(Digits(digits) as real / Pow10(|fraction|) as real)
  }

  lemma {:induction false} Pow10Positive(k: nat)
    ensures Pow10(k) > 0
  {
    if k > 0 { Pow10Positive(k - 1); }
  }

  lemma {:induction false} NatTextReads(n: nat)
    ensures NatText(n) != "" && (forall c :: c in NatText(n) ==> IsDigit(c)) && Digits(NatText(n)) == n
  {
    if n < 10 {
      assert Digits([DigitChar(n)]) == n;
    } else {
      NatTextReads(n / 10);
      assert NatText(n)[..|NatText(n)| - 1] == NatText(n / 10);
    }
  }

  lemma {:induction false} ShiftDigits(d: nat, p: nat, n: nat)
    ensures (d * p + n / 10) * 10 + n % 10 == d * (10 * p) + n
  {
  }

  lemma {:induction false} PaddedReads(head: string, n: nat, width: nat)
    requires (forall c :: c in head ==> IsDigit(c)) && n < Pow10(width)
    ensures |Padded(n, width)| == width && forall c :: c in head + Padded(n, width) ==> IsDigit(c)
    ensures Digits(head + Padded(n, width)) == Digits(head) * Pow10(width) + n
  {
    var all := head + Padded(n, width);
    if width == 0 {
      assert all == head;
    } else {
      PaddedReads(head, n / 10, width - 1);
      assert all[..|all| - 1] == head + Padded(n / 10, width - 1) && all[|all| - 1] == DigitChar(n % 10);
      ShiftDigits(Digits(head), Pow10(width - 1), n);
    }
  }

  lemma {:induction false} FindAt(s: string, c: char, k: nat)
    requires k < |s| && s[k] == c && c !in s[..k]
    ensures Find(s, c) == k
  {
  }

  lemma {:induction false} BodyReads(n: nat)
    ensures Body(n) != "" && Body(n)[0] != '-' && Unsigned(Body(n)) == Some(FromUnits(n))
  {
    var whole, part := NatText(n / SCALE), Padded(n % SCALE, 8);
    var body := Body(n);
    NatTextReads(n / SCALE);
    Pow10Eight();
    PaddedReads(whole, n % SCALE, 8);
    assert body[0] == whole[0] && whole[0] in whole;
    var dot := |whole|;
    assert body[..dot] == whole;
    FindAt(body, '.', dot);
    assert body[..dot] == whole && body[dot + 1..] == part;
    assert Digits(whole + part) == n;
  }

  lemma {:induction false} Pow10Eight()
    ensures Pow10(8) == SCALE
  {
  }

  lemma {:induction false} NegativeReads(body: string)
    requires Unsigned(body).Some?
    ensures DecimalOf("-" + body) == Some(-Unsigned(body).value)
  {
  }

  lemma {:induction false} NegatedUnits(units: int)
    ensures FromUnits(-units) == -FromUnits(units)
  {
  }

  lemma {:induction false} ZeroReads()
    ensures DecimalOf("0") == Some(0.0) && FromUnits(0) == 0.0
  {
    assert Find("0", '.') == 1 && "0"[..1] + "" == "0";
    assert Digits("0") == 0;
  }

  /** Reading the printed text gives back exactly the quantised value. */
  lemma {:induction false} RenderReads(units: int)
    ensures DecimalOf(Render(units)) == Some(FromUnits(units))
  {
    if units == 0 {
      ZeroReads();
    } else {
      BodyReads(Magnitude(units));
      if units < 0 {
        NegativeReads(Body(-units));
        NegatedUnits(units);
      } else {
        assert "" + Body(units) == Body(units);
      }
    }
  }

  /** Idempotence through the text: canonicalising a printed number prints it again. */
  lemma {:induction false} CanonicalIdempotent(x: real)
    ensures DecimalOf(CanonicalNumber(x)).Some?
    ensures CanonicalNumber(DecimalOf(CanonicalNumber(x)).value) == CanonicalNumber(x)
  {
    RenderReads(Quantize(x));
    UnitsExact(Quantize(x));
  }

  /** The text identifies the quantised value: equal texts exactly for equal roundings. */
  lemma {:induction false} RenderInjective(a: int, b: int)
    ensures Render(a) == Render(b) <==> a == b
  {
    RenderReads(a);
    RenderReads(b);
    UnitsExact(a);
    UnitsExact(b);
  }

  /** Digits, none too many in front, a point and eight decimals. */
  ghost predicate EightDecimals(text: string) {
    && |text| >= 10 && text[|text| - 9] == '.'
    && (forall i :: 0 <= i < |text| && i != |text| - 9 ==> '0' <= text[i] <= '9')
    && (|text| > 10 ==> text[0] != '0')
  }

  lemma {:induction false} NatTextLeads(n: nat)
    ensures |NatText(n)| >= 1 && (|NatText(n)| > 1 ==> n >= 10) && (n > 0 ==> NatText(n)[0] != '0')
  {
    if n >= 10 { NatTextLeads(n / 10); }
  }

  lemma {:induction false} BodyShape(n: nat)
    ensures EightDecimals(Body(n))
  {
    hide NatText, Padded, Pow10, EightDecimals, Digits;
    NatTextReads(n / SCALE);
    NatTextLeads(n / SCALE);
    Pow10Eight();
    PaddedReads("", n % SCALE, 8);
    var part := Padded(n % SCALE, 8);
    assert "" + part == part;
    PointShape(NatText(n / SCALE), part);
  }

  lemma {:induction false} PointShape(whole: string, part: string)
    requires |whole| >= 1 && |part| == 8 && (|whole| > 1 ==> whole[0] != '0')
    requires (forall c :: c in whole ==> IsDigit(c)) && forall c :: c in part ==> IsDigit(c)
    ensures EightDecimals(whole + "." + part)
  {
    var text := whole + "." + part;
    forall i | 0 <= i < |text| && i != |whole| ensures '0' <= text[i] <= '9' {
      if i < |whole| { assert text[i] == whole[i] && whole[i] in whole; }
      else { assert text[i] == part[i - |whole| - 1] && part[i - |whole| - 1] in part; }
    }
  }

  /** The text of a number: the nearest multiple `q` of 1e-8, the even one of two, printed as "0" when it is zero and
      otherwise with eight decimals, with a minus sign when it is negative, so that it reads as `q`. */
  lemma {:induction false} TextExactly(x: real)
    ensures var text := CanonicalNumber(x);
      exists q: int ::
        && -0.5 <= x * 100000000.0 - q as real <= 0.5
        && (x * 100000000.0 - q as real in {-0.5, 0.5} ==> q % 2 == 0)
        && DecimalOf(text) == Some(q as real / 100000000.0)
        && (q == 0 ==> text == "0") && (q > 0 ==> EightDecimals(text))
        && (q < 0 ==> text != "" && text[0] == '-' && EightDecimals(text[1..]))
  {
    hide Quantize, Body, DecimalOf;
    var q := Quantize(x);
    QuantizeNearest(x);
    RenderReads(q);
    BodyShape(Magnitude(q));
    assert SCALE as real == 100000000.0;
    assert -0.5 <= x * 100000000.0 - q as real <= 0.5;
    if q < 0 { assert Render(q)[1..] == Body(-q); }
    if q > 0 { assert Render(q) == Body(q); }
  }

  /** How a text is read, digit by digit. */
  lemma {:induction false} ReadsDigits()
    ensures DecimalOf("-12.5") == Some(-12.5)
  {
    var text := "12.5";
    assert "-12.5"[1..] == text;
    FindAt(text, '.', 2);
    assert text[..2] == "12" && text[3..] == "5" && "12" + "5" == "125";
    DigitsOf("12", '5');
    DigitsOf("1", '2');
    DigitsOf("", '1');
    assert Pow10(1) == 10;
  }

  lemma {:induction false} DigitsOf(front: string, last: char)
    requires (forall c :: c in front ==> IsDigit(c)) && IsDigit(last)
    ensures (forall c :: c in front + [last] ==> IsDigit(c))
    ensures Digits(front + [last]) == Digits(front) * 10 + DigitValue(last)
  {
    assert (front + [last])[..|front|] == front;
  }

  /** What a reader of a printed `<=` assertion may conclude about the comparison that was made. */
  lemma {:induction false} PrintedComparison(observed: real, threshold: real)
    ensures var o, t := DecimalOf(CanonicalNumber(observed)), DecimalOf(CanonicalNumber(threshold));
      && o.Some? && t.Some?
      && (observed <= threshold ==> o.value <= t.value)
      && (o.value < t.value ==> observed <= threshold)
  {
    RenderReads(Quantize(observed));
    RenderReads(Quantize(threshold));
    UnitsExact(Quantize(observed));
    UnitsExact(Quantize(threshold));
    if observed <= threshold {
      QuantizeMonotone(observed, threshold);
    } else {
      QuantizeMonotone(threshold, observed);
    }
  }

  lemma {:induction false} QuarterUnits(units: int)
    ensures Quantize((units as real + 0.25) / SCALE as real) == units
  {
    assert (units as real + 0.25) / SCALE as real * SCALE as real == units as real + 0.25;
    assert (units as real + 0.25).Floor == units;
  }

  /** For every printed text there are two numbers that both print it and differ: `observed <= threshold` fails,
      and the other way round it holds. */
  lemma {:induction false} EqualPrintsUndecided(units: int) returns (observed: real, threshold: real)
    ensures CanonicalNumber(observed) == CanonicalNumber(threshold) == Render(units)
    ensures threshold < observed
  {
    observed, threshold := (units as real + 0.25) / SCALE as real, FromUnits(units);
    QuarterUnits(units);
    UnitsExact(units);
  }

  predicate Prints(x: real, text: string) {
    CanonicalNumber(x) == text
  }

  /** Whatever numbers were behind the two texts, the `<=` between them came out the same way. */
  ghost predicate Decided(left: string, right: string) {
    || (forall o: real, t: real :: Prints(o, left) && Prints(t, right) ==> o <= t)
    || (forall o: real, t: real :: Prints(o, left) && Prints(t, right) ==> o > t)
  }

  /** The prints decide the comparison exactly when they differ. */
  lemma {:induction false} PrintsDecideExactly(a: int, b: int)
    ensures Decided(Render(a), Render(b)) <==> Render(a) != Render(b)
  {
    hide Quantize, Render;
    RenderInjective(a, b);
    if a == b {
      var observed, threshold := EqualPrintsUndecided(a);
      assert Prints(observed, Render(a)) && Prints(threshold, Render(a));
    } else {
      forall o: real, t: real | Prints(o, Render(a)) && Prints(t, Render(b)) ensures if a < b then o <= t else o > t {
        RenderInjective(Quantize(o), a);
        RenderInjective(Quantize(t), b);
        if o <= t { QuantizeMonotone(o, t); } else { QuantizeMonotone(t, o); }
      }
    }
  }
}
