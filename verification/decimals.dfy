/**
 Amounts as text (internal/chain/solana/transfer.go): base units printed as a decimal
 without trailing zeros, and decimals read back as whole base units or refused.
 */
module Decimals {
  import opened Wrappers
  import opened LittleEndian

  function Pow10(k: nat): (r: nat)
    ensures r > 0
  {
    if k == 0 then 1 else 10 * Pow10(k - 1)
  }

  type Digit = c: char | '0' <= c <= '9' witness '0'

  function DigitOf(n: nat): Digit
    requires n < 10
  {
    '0' + (n as char)
  }

  function ValueOf(c: Digit): nat {
    (c - '0') as nat
  }

  /** What a string of digits stands for. */
  function Value(s: seq<Digit>): nat {
    if s == [] then 0 else 10 * Value(s[..|s| - 1]) + ValueOf(s[|s| - 1])
  }

  function Zeros(k: nat): (r: seq<Digit>)
    ensures |r| == k
  {
    seq(k, _ => '0')
  }

  function Digits(n: nat): (r: seq<Digit>)
    ensures r != []
  {
    if n < 10 then [DigitOf(n)] else Digits(n / 10) + [DigitOf(n % 10)]
  }

  function Trimmed(s: seq<Digit>): (r: seq<Digit>)
    ensures |r| <= |s|
  {
    if s == [] || s[|s| - 1] != '0' then s else Trimmed(s[..|s| - 1])
  }

  /** A whole part and a fraction, without a point when there is no fraction. */
  function Joined(whole: seq<Digit>, fraction: seq<Digit>): string {
    if fraction == [] then whole else whole + "." + fraction
  }

  /** Base units as a decimal with so many places, as the wallet prints it. */
  function Print(n: nat, places: nat): string {
    var all := Digits(n);
    if |all| > places then Joined(all[..|all| - places], Trimmed(all[|all| - places..]))
    else Joined(Zeros(1), Trimmed(Zeros(places - |all|) + all))
  }

  // ------------------------------------------------------------------ reading

  /** A decimal: its sign, its digits as one number, and how many are a fraction. */
  datatype Decimal = Decimal(negative: bool, mantissa: nat, scale: nat)

  predicate AllDigits(s: string) {
    forall i :: 0 <= i < |s| ==> '0' <= s[i] <= '9'
  }

  function AsDigits(s: string): (r: seq<Digit>)
    requires AllDigits(s)
    ensures r == s
  {
    seq(|s|, i requires 0 <= i < |s| => s[i] as Digit)
  }

  /** Where the first point is, or the length. */
  function Point(s: string): (k: nat)
    ensures k <= |s| && (k < |s| ==> s[k] == '.') && forall i :: 0 <= i < k ==> s[i] != '.'
  {
    if s == [] || s[0] == '.' then 0 else
      var k := Point(s[1..]);
      assert forall i :: 0 < i < k + 1 ==> s[i] == s[1..][i - 1];
      k + 1
  }

  function Unsigned(s: string, negative: bool): Option<Decimal> {
    var k := Point(s);
    var fraction := if k < |s| then s[k + 1..] else "";
    var all := s[..k] + fraction;
    if all == [] || !AllDigits(all) then None else Some(Decimal(negative, Value(AsDigits(all)), |fraction|))
  }

  /** An optional sign, digits, and at most one point; no exponent. */
  function Parse(s: string): Option<Decimal> {
    if s != [] && (s[0] == '-' || s[0] == '+') then Unsigned(s[1..], s[0] == '-') else Unsigned(s, false)
  }

  /** The decimal in base units, if that is a whole number. */
  function Shifted(d: Decimal, places: nat): Option<nat> {
    if d.scale <= places then Some(d.mantissa * Pow10(places - d.scale))
    else if d.mantissa % Pow10(d.scale - places) == 0 then Some(d.mantissa / Pow10(d.scale - places))
    else None
  }

  function ToU64(n: Option<nat>): Option<u64> {
    match n case None => None case Some(v) => if v <= MAX_U64 then Some(v) else None
  }

  /** A nonnegative amount of SOL in lamports. */
  function Lamports(s: string): Option<u64> {
    match Parse(s)
    case None => None
    case Some(d) => if d.negative && d.mantissa > 0 then None else ToU64(Shifted(d, 9))
  }

  /** A positive amount in base units. */
  function Units(s: string, places: nat): Option<u64> {
    match Parse(s)
    case None => None
    case Some(d) => if d.negative || d.mantissa == 0 then None else ToU64(Shifted(d, places))
  }

  function Sol(lamports: u64): string { Print(lamports, 9) }

  // ------------------------------------------------------- reading is exact

  lemma {:induction false} Pow10Adds(a: nat, b: nat)
    ensures Pow10(a + b) == Pow10(a) * Pow10(b)
    decreases b
  {
    if b == 0 {
      assert Pow10(0) == 1;
    } else {
      Pow10Adds(a, b - 1);
      assert Pow10(a + b) == 10 * Pow10(a + (b - 1));
      assert Pow10(b) == 10 * Pow10(b - 1);
      Swap(Pow10(a), Pow10(b - 1));
    }
  }

  lemma Swap(x: nat, y: nat)
    ensures 10 * (x * y) == x * (10 * y)
  {
  }

  lemma OneMoreDigit(x: nat, p: nat, y: nat, d: nat)
    ensures 10 * (x * p + y) + d == x * (10 * p) + (10 * y + d)
  {
    Swap(x, p);
  }

  lemma DivExact(m: nat, p: nat)
    requires p > 0
    ensures m % p == 0 <==> m == (m / p) * p
  {
  }

  lemma Cancel(a: nat, b: nat, p: nat)
    requires p > 0 && a * p == b * p
    ensures a == b
  {
    if a < b { Larger(a, b, p); } else if b < a { Larger(b, a, p); }
  }

  lemma Larger(a: nat, b: nat, p: nat)
    requires a < b && p > 0
    ensures a * p < b * p
  {
    assert b * p == a * p + (b - a) * p;
    assert (b - a) * p >= p by { AtLeastOnce(b - a, p); }
  }

  lemma AtLeastOnce(k: nat, p: nat)
    requires k >= 1
    ensures k * p >= p
  {
  }

  lemma ScaledUp(m: nat, n: nat, k: nat, s: nat)
    requires s > 0
    ensures m * k == n <==> n * s == m * (k * s)
  {
    Regroup(m, k, s);
    if n * s == m * (k * s) { Cancel(n, m * k, s); }
  }

  lemma ScaledDown(m: nat, n: nat, k: nat, p: nat)
    requires k > 0 && p > 0
    ensures (m % k == 0 && m / k == n) <==> n * (k * p) == m * p
  {
    Regroup(n, k, p);
    DivExact(m, k);
    if n * (k * p) == m * p {
      Cancel(n * k, m, p);
      Quotient(m, k, n);
    }
  }

  /** Nothing is rounded: the units are the decimal's exact value, or it is refused. */
  lemma ShiftedIsExact(d: Decimal, places: nat, n: nat)
    ensures Shifted(d, places) == Some(n) <==> n * Pow10(d.scale) == d.mantissa * Pow10(places)
  {
    if d.scale <= places {
      Pow10Adds(places - d.scale, d.scale);
      ScaledUp(d.mantissa, n, Pow10(places - d.scale), Pow10(d.scale));
    } else {
      Pow10Adds(d.scale - places, places);
      ScaledDown(d.mantissa, n, Pow10(d.scale - places), Pow10(places));
    }
  }

  lemma Regroup(a: nat, b: nat, c: nat)
    ensures a * (b * c) == (a * b) * c
  {
  }

  lemma Quotient(m: nat, p: nat, n: nat)
    requires p > 0 && m == n * p
    ensures m / p == n && m % p == 0
  {
    var q, r := m / p, m % p;
    assert m == q * p + r;
    if q < n {
      Larger(q, n, p);
      assert n * p == q * p + (n - q) * p;
      AtLeastOnce(n - q, p);
    } else if n < q {
      Larger(n, q, p);
    }
  }

  // --------------------------------------------------- printing reads back

  lemma DigitValue(n: nat)
    requires n < 10
    ensures ValueOf(DigitOf(n)) == n
  {
  }

  lemma {:induction false} ValueOfDigits(n: nat)
    ensures Value(Digits(n)) == n
    decreases n
  {
    DigitValue(n % 10);
    if n < 10 {
      assert Digits(n)[..0] == [];
    } else {
      ValueOfDigits(n / 10);
      assert Digits(n)[..|Digits(n)| - 1] == Digits(n / 10);
    }
  }

  lemma {:induction false} ValueOfZeros(k: nat)
    ensures Value(Zeros(k)) == 0
    decreases k
  {
    if k == 0 {
    } else {
      ValueOfZeros(k - 1);
      assert Zeros(k)[..k - 1] == Zeros(k - 1);
    }
  }

  lemma {:induction false} ValueJoins(a: seq<Digit>, b: seq<Digit>)
    ensures Value(a + b) == Value(a) * Pow10(|b|) + Value(b)
    decreases |b|
  {
    if b == [] {
      assert a + b == a;
    } else {
      var front, last := b[..|b| - 1], b[|b| - 1];
      ValueJoins(a, front);
      assert (a + b)[..|a + b| - 1] == a + front;
      assert (a + b)[|a + b| - 1] == last;
      OneMoreDigit(Value(a), Pow10(|front|), Value(front), ValueOf(last));
    }
  }

  lemma {:induction false} TrimKeepsValue(s: seq<Digit>)
    ensures Value(s) == Value(Trimmed(s)) * Pow10(|s| - |Trimmed(s)|)
    decreases |s|
  {
    if s == [] || s[|s| - 1] != '0' {
    } else {
      var front := s[..|s| - 1];
      TrimKeepsValue(front);
      Swap(Value(Trimmed(front)), Pow10(|front| - |Trimmed(front)|));
    }
  }

  lemma {:induction false} PointAfterDigits(a: seq<Digit>, rest: string)
    requires rest == [] || rest[0] == '.'
    ensures Point(a + rest) == |a|
    decreases |a|
  {
    if a == [] {
      assert a + rest == rest;
    } else {
      assert (a + rest)[1..] == a[1..] + rest && (a + rest)[0] == a[0];
      PointAfterDigits(a[1..], rest);
    }
  }

  lemma CutAtPoint(whole: seq<Digit>, fraction: seq<Digit>)
    ensures var s := Joined(whole, fraction);
            var k := Point(s);
            k == |whole| && s[..k] == whole && (if k < |s| then s[k + 1..] else "") == fraction
  {
    var rest := if fraction == [] then "" else "." + fraction;
    assert Joined(whole, fraction) == whole + rest;
    PointAfterDigits(whole, rest);
  }

  lemma PrintedIsRead(whole: seq<Digit>, fraction: seq<Digit>)
    requires whole != []
    ensures Parse(Joined(whole, fraction)) == Some(Decimal(false, Value(whole + fraction), |fraction|))
  {
    var s := Joined(whole, fraction);
    CutAtPoint(whole, fraction);
    assert s[0] == whole[0];
    var all: string := whole + fraction;
    assert AllDigits(all);
    assert AsDigits(all) == whole + fraction;
  }

  lemma Fits(whole: nat, t: nat, p: nat, q: nat, fraction: nat)
    requires fraction == t * q
    ensures (whole * p + t) * q == whole * (p * q) + fraction
  {
  }

  predicate ReadsAs(s: string, places: nat, n: nat) {
    Parse(s).Some? && !Parse(s).value.negative && Shifted(Parse(s).value, places) == Some(n)
  }

  lemma PartsReadBack(n: nat, places: nat, whole: seq<Digit>, fraction: seq<Digit>)
    requires whole != [] && |fraction| == places
    requires n == Value(whole) * Pow10(places) + Value(fraction)
    ensures ReadsAs(Joined(whole, Trimmed(fraction)), places, n)
  {
    PrintedIsRead(whole, Trimmed(fraction));
    TrimKeepsValue(fraction);
    PartsAreExact(n, Pow10(places), places, Value(whole), Value(fraction), whole, Trimmed(fraction));
  }

  lemma PartsAreExact(
    n: nat, unit: nat, places: nat, w: nat, f: nat, whole: seq<Digit>, fraction: seq<Digit>)
    requires unit == Pow10(places) && n == w * unit + f
    requires |fraction| <= places && Value(whole) == w && f == Value(fraction) * Pow10(places - |fraction|)
    ensures Shifted(Decimal(false, Value(whole + fraction), |fraction|), places) == Some(n)
  {
    var p, q := Pow10(|fraction|), Pow10(places - |fraction|);
    ValueJoins(whole, fraction);
    Pow10Adds(|fraction|, places - |fraction|);
    Fits(w, Value(fraction), p, q, f);
  }

  /** Whatever number of base units is printed, it is read back as that number. */
  lemma PrintReadsBack(n: nat, places: nat)
    ensures ReadsAs(Print(n, places), places, n)
  {
    var all := Digits(n);
    ValueOfDigits(n);
    if |all| > places {
      var whole, fraction := all[..|all| - places], all[|all| - places..];
      assert whole + fraction == all;
      ValueJoins(whole, fraction);
      PartsReadBack(n, places, whole, fraction);
    } else {
      var zeros := Zeros(places - |all|);
      ValueOfZeros(|zeros|);
      ValueOfZeros(1);
      ValueJoins(zeros, all);
      PartsReadBack(n, places, Zeros(1), zeros + all);
    }
  }

  lemma ZeroIsZero(d: Decimal, places: nat)
    requires Shifted(d, places) == Some(0)
    ensures d.mantissa == 0
  {
    ShiftedIsExact(d, places, 0);
    if d.mantissa > 0 { Larger(0, d.mantissa, Pow10(places)); }
  }

  lemma NonzeroIsNonzero(d: Decimal, places: nat, n: nat)
    requires Shifted(d, places) == Some(n) && n > 0
    ensures d.mantissa > 0
  {
    ShiftedIsExact(d, places, n);
    Larger(0, n, Pow10(d.scale));
    PositiveFactor(d.mantissa, Pow10(places));
  }

  lemma PositiveFactor(m: nat, p: nat)
    requires m * p > 0
    ensures m > 0
  {
  }

  /** For every amount of lamports there is. */
  lemma SolReadsBack(n: u64)
    ensures Lamports(Sol(n)) == Some(n)
  {
    PrintReadsBack(n, 9);
  }

  /** For every amount of a token that may be sent. */
  lemma UnitsReadBack(n: u64, places: nat)
    ensures Units(Print(n, places), places) == if n == 0 then None else Some(n)
  {
    PrintReadsBack(n, places);
    var d := Parse(Print(n, places)).value;
    if n == 0 { ZeroIsZero(d, places); } else { NonzeroIsNonzero(d, places, n); }
  }
}
