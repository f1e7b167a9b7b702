/** Decimal payout amounts converted to stroops, the token's ten-millionth units, as digit strings. */
module Stroops {
  import opened Wrappers

  datatype StroopsError = InvalidDigits | NotPositive

  predicate IsDigit(c: char) {
    '0' <= c <= '9'
  }

  predicate AllDigits(s: string) {
    forall i :: 0 <= i < |s| ==> IsDigit(s[i])
  }

  function DigitValue(c: char): nat
    requires IsDigit(c)
  {
    c as int - '0' as int
  }

  /** The number a digit string denotes; the empty string denotes zero. */
  function NatOf(s: string): nat
    requires AllDigits(s)
  {
    if s == [] then 0 else 10 * NatOf(s[..|s| - 1]) + DigitValue(s[|s| - 1])
  }

  /** Position of the first '.', or the length of the string. */
  function DotIndex(s: string): (i: nat)
    ensures i <= |s|
    ensures forall k :: 0 <= k < i ==> s[k] != '.'
    ensures i < |s| ==> s[i] == '.'
  {
    if s == [] || s[0] == '.' then 0 else 1 + DotIndex(s[1..])
  }

  /** The first piece of splitting at '.'. */
  function WholePart(s: string): string {
    s[..DotIndex(s)]
  }

  /** Everything after the first '.'. */
  function AfterDot(s: string): string {
    if DotIndex(s) < |s| then s[DotIndex(s) + 1..] else ""
  }

  /** The second piece of splitting at '.', empty when there is none. */
  function FractionPart(s: string): string {
    WholePart(AfterDot(s))
  }

  /** Drops leading zeros as long as another digit follows. */
  function StripZeros(s: string): string {
    if |s| >= 2 && s[0] == '0' && IsDigit(s[1]) then StripZeros(s[1..]) else s
  }

  function Combined(amount: string): string {
    WholePart(amount) + (FractionPart(amount) + "0000000")[..7]
  }

  function ToStroops(amount: string): Result<string, StroopsError> {
    var combined := StripZeros(Combined(amount));
    if combined == "" || !AllDigits(combined) then Err(InvalidDigits)
    else if NatOf(combined) == 0 then Err(NotPositive)
    else Ok(combined)
  }

  /** The accepted amounts: digits, then optionally a point and at most seven digits. */
  predicate AcceptedAmount(s: string) {
    && WholePart(s) != "" && AllDigits(WholePart(s))
    && AllDigits(AfterDot(s)) && |AfterDot(s)| <= 7
  }

  function Pow10(n: nat): nat {
    if n == 0 then 1 else 10 * Pow10(n - 1)
  }

  lemma {:induction false} Pow10Positive(n: nat)
    ensures Pow10(n) > 0
  {
    if n > 0 { Pow10Positive(n - 1); }
  }

  /** The number an accepted amount denotes: its whole part plus its fraction digits over a power of ten. */
  ghost function DecimalValue(s: string): real
    requires AcceptedAmount(s)
  {
    Pow10Positive(|AfterDot(s)|);
    NatOf(WholePart(s)) as real + NatOf(AfterDot(s)) as real / Pow10(|AfterDot(s)|) as real
  }

  // ---- Digit strings --------------------------------------------------------------------------------------

  lemma {:induction false} NatOfAppend(a: string, b: string)
    requires AllDigits(a) && AllDigits(b)
    ensures AllDigits(a + b) && NatOf(a + b) == NatOf(a) * Pow10(|b|) + NatOf(b)
    decreases |b|
  {
    if b == [] {
      assert a + b == a;
    } else {
      var c := b[..|b| - 1];
      NatOfAppend(a, c);
      assert (a + b)[..|a + b| - 1] == a + c;
      assert NatOf(a) * Pow10(|b|) == 10 * (NatOf(a) * Pow10(|c|));
    }
  }

  /** Stripping keeps the digits and the number, and leaves no leading zero. */
  lemma {:induction false} StripKeepsValue(s: string)
    requires s != "" && AllDigits(s)
    ensures var r := StripZeros(s); r != "" && AllDigits(r) && NatOf(r) == NatOf(s) && (r[0] != '0' || r == "0")
    decreases |s|
  {
    if |s| >= 2 && s[0] == '0' {
      StripKeepsValue(s[1..]);
      assert s == "0" + s[1..];
      assert "0"[..0] == "";
      NatOfAppend("0", s[1..]);
    }
  }

  lemma {:induction false} NoLeadingZeroIsPositive(s: string)
    requires s != "" && AllDigits(s) && s[0] != '0'
    ensures NatOf(s) > 0
    decreases |s|
  {
    if |s| > 1 { NoLeadingZeroIsPositive(s[..|s| - 1]); }
  }

  /** A number has only one digit string without a leading zero. */
  lemma {:induction false} CanonicalDigitsUnique(x: string, y: string)
    requires x != "" && y != "" && AllDigits(x) && AllDigits(y) && x[0] != '0' && y[0] != '0'
    requires NatOf(x) == NatOf(y)
    ensures x == y
    decreases |x|
  {
    var x', y' := x[..|x| - 1], y[..|y| - 1];
    assert NatOf(x') == NatOf(y') && x[|x| - 1] == y[|y| - 1];
    if x' != "" { NoLeadingZeroIsPositive(x'); }
    if y' != "" { NoLeadingZeroIsPositive(y'); }
    if x' != "" && y' != "" { CanonicalDigitsUnique(x', y'); }
    assert x == x' + [x[|x| - 1]] && y == y' + [y[|y| - 1]];
  }

  // ---- The conversion is exact ----------------------------------------------------------------------------

  lemma DigitsHaveNoDot(s: string)
    requires AllDigits(s)
    ensures WholePart(s) == s
  {
  }

  lemma Pow10Values()
    ensures Pow10(1) == 10 && Pow10(2) == 100 && Pow10(3) == 1_000 && Pow10(4) == 10_000
    ensures Pow10(0) == 1 && Pow10(5) == 100_000 && Pow10(6) == 1_000_000 && Pow10(7) == 10_000_000
  {
    assert Pow10(4) == 10 * Pow10(3);
  }

  function Zeros(n: nat): string {
    seq(n, i => '0')
  }

  lemma {:induction false} ZerosAreZero(n: nat)
    ensures AllDigits(Zeros(n)) && NatOf(Zeros(n)) == 0
  {
    if n > 0 {
      ZerosAreZero(n - 1);
      assert Zeros(n)[..n - 1] == Zeros(n - 1);
    }
  }

  /** Before stripping, the digits denote whole * 10^7 plus the fraction scaled to seven places. */
  lemma CombinedValue(s: string)
    requires AcceptedAmount(s)
    ensures var f := AfterDot(s);
      && AllDigits(Combined(s)) && Combined(s) != ""
      && NatOf(Combined(s)) == NatOf(WholePart(s)) * 10_000_000 + NatOf(f) * Pow10(7 - |f|)
  {
    var f := AfterDot(s);
    DigitsHaveNoDot(f);
    assert (f + "0000000")[..7] == f + Zeros(7 - |f|);
    ZerosAreZero(7 - |f|);
    NatOfAppend(f, Zeros(7 - |f|));
    NatOfAppend(WholePart(s), f + Zeros(7 - |f|));
    Pow10Values();
  }

  lemma ScaledFraction(v: nat, n: nat)
    requires n <= 7
    ensures Pow10(n) > 0 && v as real / Pow10(n) as real * 10_000_000.0 == (v * Pow10(7 - n)) as real
  {
    Pow10Values();
    assert n == 0 || n == 1 || n == 2 || n == 3 || n == 4 || n == 5 || n == 6 || n == 7;
  }

  /** The scaled digits denote exactly the amount times ten million. */
  lemma CombinedIsExact(s: string)
    requires AcceptedAmount(s)
    ensures AllDigits(Combined(s)) && NatOf(Combined(s)) as real == DecimalValue(s) * 10_000_000.0
  {
    CombinedValue(s);
    Pow10Values();
    ScaledFraction(NatOf(AfterDot(s)), |AfterDot(s)|);
  }

  /**
    For every accepted amount of any length: a positive one converts to the digits of exactly ten million times
    its value, with no leading zero, and zero is refused.
   */
  lemma ToStroopsExact(s: string)
    requires AcceptedAmount(s)
    ensures var r := ToStroops(s);
      && (r.Ok? <==> DecimalValue(s) > 0.0)
      && (r.Err? ==> r.error == NotPositive)
      && (r.Ok? ==> AllDigits(r.value) && r.value != "" && r.value[0] != '0'
                    && NatOf(r.value) as real == DecimalValue(s) * 10_000_000.0)
  {
    CombinedIsExact(s);
    CombinedValue(s);
    StripKeepsValue(Combined(s));
    assert NatOf("0") == 0 by { assert "0"[..0] == ""; }
  }

  /** Two amounts give the same stroops exactly when they denote the same number, however they are written. */
  lemma SameStroopsSameAmount(a: string, b: string)
    requires AcceptedAmount(a) && AcceptedAmount(b)
    ensures ToStroops(a) == ToStroops(b) <==> DecimalValue(a) == DecimalValue(b)
  {
    ToStroopsExact(a);
    ToStroopsExact(b);
    if ToStroops(a).Ok? && ToStroops(b).Ok? && DecimalValue(a) == DecimalValue(b) {
      CanonicalDigitsUnique(ToStroops(a).value, ToStroops(b).value);
    }
    if ToStroops(a).Err? {
      DecimalNonNegative(a);
    }
    if ToStroops(b).Err? {
      DecimalNonNegative(b);
    }
  }

  lemma DecimalNonNegative(s: string)
    requires AcceptedAmount(s)
    ensures DecimalValue(s) >= 0.0
  {
    CombinedIsExact(s);
  }
}
