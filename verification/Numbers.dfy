// Integers as they are spelled and as JSON carries them: machine integers, their
// decimal spelling, the float64 a whole number decodes to and the digits that float
// prints as (fmt.Sprint, strconv.FormatFloat, encoding/json).
module Numbers {
  import opened Wrappers

  predicate Digit(c: char) {
    '0' <= c <= '9'
  }

  // ---- Integers -------------------------------------------------------

  const MIN_INT := -0x8000_0000_0000_0000
  const MAX_INT := 0x7FFF_FFFF_FFFF_FFFF

  function Digits(n: nat): (s: string)
    ensures s != ""
  {
    var last := [('0' as int + n % 10) as char];
    if n < 10 then last else Digits(n / 10) + last
  }

  /** fmt.Sprint of an integer. */
  function Decimal(n: int): string {
    if n < 0 then "-" + Digits(-n) else Digits(n)
  }

  function NatOf(s: string): Option<nat> {
    if s == "" then Some(0)
    else
      var c := s[|s| - 1];
      var rest := NatOf(s[..|s| - 1]);
      if !Digit(c) || rest.None? then None else Some(10 * rest.value + (c as int - '0' as int))
  }

  lemma {:induction false} NatOfDigits(n: nat)
    ensures NatOf(Digits(n)) == Some(n)
  {
    var s := Digits(n);
    if n >= 10 {
      NatOfDigits(n / 10);
      assert s[..|s| - 1] == Digits(n / 10);
    } else {
      assert s[..|s| - 1] == "";
    }
  }

  lemma {:induction false} DigitsAreDigits(n: nat)
    ensures Digit(Digits(n)[0])
  {
    if n >= 10 {
      DigitsAreDigits(n / 10);
    }
  }

  /** Reads an integer that spells back as it was written: no spaces, plus sign or
      leading zeros, and within 64 bits. */
  function IntOf(s: string): Option<int> {
    var negative := s != "" && s[0] == '-';
    var n := NatOf(if negative then s[1..] else s);
    if n.None? then None
    else
      var v: int := if negative then 0 - n.value else n.value;
      if MIN_INT <= v <= MAX_INT && Decimal(v) == s then Some(v) else None
  }

  lemma IntOfDecimal(n: int)
    ensures IntOf(Decimal(n)) == if MIN_INT <= n <= MAX_INT then Some(n) else None
    ensures forall s :: IntOf(s).Some? ==> s == Decimal(IntOf(s).value)
  {
    var m := if n < 0 then -n else n;
    NatOfDigits(m);
    DigitsAreDigits(m);
    if n < 0 {
      assert Decimal(n)[1..] == Digits(m);
    }
  }

  lemma {:induction false} DigitsHaveNoPoint(n: nat)
    ensures '.' !in Digits(n)
  {
    if n >= 10 {
      DigitsHaveNoPoint(n / 10);
    }
  }

  lemma PointIsNoInteger(spelling: string)
    requires '.' in spelling
    ensures IntOf(spelling).None?
  {
    IntOfDecimal(0);
    if IntOf(spelling).Some? {
      var v := IntOf(spelling).value;
      DigitsHaveNoPoint(if v < 0 then -v else v);
    }
  }

  // ---- Numbers as JSON decodes them -----------------------------------

  const TWO_52: int := 0x10_0000_0000_0000
  const TWO_53: int := 0x20_0000_0000_0000

  /** The distance between neighbouring float64 values at n. */
  function Ulp(n: nat): (u: nat)
    ensures u > 0
  {
    if n < TWO_53 then 1 else 2 * Ulp(n / 2)
  }

  /** A multiple of u, half a step rounded to the even multiple. */
  function Rounded(n: nat, u: nat): nat
    requires u > 0
  {
    var q, r := n / u, n % u;
    if 2 * r < u || (2 * r == u && q % 2 == 0) then q * u else q * u + u
  }

  /** The float64 nearest to a whole number, ties to the even significand. */
  function NearestDouble(n: nat): nat {
    Rounded(n, Ulp(n))
  }

  function Pow10(k: nat): (p: nat)
    ensures p > 0
  {
    if k == 0 then 1 else 10 * Pow10(k - 1)
  }

  /** The multiple of p that reads back as x, the closer of two. */
  function ReadsBack(x: nat, p: nat): Option<nat>
    requires p > 0
  {
    hide Closer, FloorTo;
    Closer(x, FloorTo(x, p), FloorTo(x, p) + p)
  }

  /** The multiple of p at or below x. */
  function FloorTo(x: nat, p: nat): nat
    requires p > 0
  {
    x - x % p
  }

  function Closer(x: nat, lo: nat, hi: nat): Option<nat> {
    hide NearestDouble;
    if NearestDouble(lo) == x && (NearestDouble(hi) != x || x - lo <= hi - x) then Some(lo)
    else if NearestDouble(hi) == x then Some(hi)
    else None
  }

  /** The shortest digits that read back as the float x: a multiple of the highest
      power of ten that has one. */
  function Shortest(x: nat, k: nat): nat {
    hide ReadsBack;
    if k == 0 then x
    else
      var found := ReadsBack(x, Pow10(k));
      if found.Some? then found.value else Shortest(x, k - 1)
  }

  /** strconv.FormatFloat(t, 'f', -1, 64) of the float64 a JSON whole number decodes
      to, as the number those digits spell. */
  function Printed(n: int): int {
    hide PrintedNat;
    if n < 0 then 0 - PrintedNat(-n) else PrintedNat(n)
  }

  function PrintedNat(n: nat): nat {
    hide NearestDouble, Digits, Shortest;
    var x := NearestDouble(n);
    Shortest(x, |Digits(x)|)
  }

  lemma Halves(n: nat, u: nat)
    requires u > 0
    ensures n / (2 * u) == n / 2 / u
  {
    var a := n / 2 / u;
    assert n == 2 * (n / 2) + n % 2;
    assert n / 2 == a * u + n / 2 % u;
    assert n == a * (2 * u) + (2 * (n / 2 % u) + n % 2);
    DivisionIs(n, 2 * u, a, 2 * (n / 2 % u) + n % 2);
  }

  lemma Multiples(a: int, d: int)
    requires a >= 1 && d >= 0
    ensures a * d >= d
  {
  }

  lemma DivisionIs(n: nat, d: nat, q: nat, r: nat)
    requires d > 0 && n == q * d + r && r < d
    ensures n / d == q
  {
    var q', r' := n / d, n % d;
    assert (q' - q) * d == q' * d - q * d == r - r';
    assert (q - q') * d == r' - r;
    if q' > q {
      Multiples(q' - q, d);
    } else if q' < q {
      Multiples(q - q', d);
    }
  }

  lemma {:induction false} SignificandFits(n: nat)
    requires n >= TWO_53
    ensures Ulp(n) >= 2 && TWO_52 <= n / Ulp(n) < TWO_53
  {
    Halves(n, Ulp(n / 2));
    if n / 2 >= TWO_53 {
      SignificandFits(n / 2);
    }
  }

  lemma AtLeast(a: int, b: int, u: int)
    requires a <= b && u >= 0
    ensures a * u <= b * u
  {
  }

  lemma RoundedBounds(n: nat, u: nat)
    requires u > 0
    ensures n / u * u <= n && n / u * u <= Rounded(n, u)
    ensures u == 1 ==> Rounded(n, u) == n
  {
    assert n == n / u * u + n % u;
  }

  lemma RoundedByTwo(n: nat)
    requires n >= TWO_53
    ensures Rounded(n, 2) == TWO_53 <==> n == TWO_53 || n == TWO_53 + 1
  {
  }

  lemma BigDoubles(n: nat)
    requires n >= TWO_53
    ensures NearestDouble(n) >= TWO_53
    ensures NearestDouble(n) == TWO_53 ==> n == TWO_53 || n == TWO_53 + 1
  {
    hide Ulp, Rounded;
    SignificandFits(n);
    UlpIsEven(n);
    var u := Ulp(n);
    RoundedBounds(n, u);
    AtLeast(TWO_52, n / u, u);
    if u == 2 {
      RoundedByTwo(n);
    }
  }

  /** Up to 2^53 every whole number is a float64; nothing above rounds below it. */
  lemma SmallDoubles(n: nat)
    ensures n <= TWO_53 ==> NearestDouble(n) == n
    ensures n >= TWO_53 ==> NearestDouble(n) >= TWO_53
    ensures n > TWO_53 && NearestDouble(n) == TWO_53 ==> n == TWO_53 + 1
  {
    hide Rounded;
    if n < TWO_53 {
      RoundedBounds(n, 1);
    } else {
      BigDoubles(n);
      if n == TWO_53 {
        RoundedByTwo(n);
        assert Ulp(n) == 2;
      }
    }
  }

  lemma {:induction false} UlpIsEven(n: nat)
    requires n >= TWO_53
    ensures Ulp(n) % 2 == 0 && (Ulp(n) != 2 ==> Ulp(n) >= 4)
  {
    if n / 2 >= TWO_53 {
      UlpIsEven(n / 2);
    }
  }

  lemma {:induction false} TenDivides(k: nat)
    requires k > 0
    ensures Pow10(k) % 10 == 0
  {
    Tens(Pow10(k - 1));
  }

  lemma Tens(p: nat)
    ensures (10 * p) % 10 == 0
  {
    assert 10 * p == p * 10 + 0;
  }

  lemma MultipleOfTen(x: nat, p: nat)
    requires p > 0 && p % 10 == 0
    ensures FloorTo(x, p) % 10 == 0
  {
    var q, t := x / p, p / 10;
    assert x - x % p == q * p && p == 10 * t;
    assert q * p == 10 * (q * t);
  }

  lemma OnlyItself(x: nat, c: nat)
    requires x <= TWO_53 && c % 10 == 0 && NearestDouble(c) == x
    ensures c == x
  {
    hide NearestDouble;
    SmallDoubles(c);
    assert (TWO_53 + 1) % 10 == 3;
  }

  lemma SumOfTens(a: nat, b: nat)
    requires a % 10 == 0 && b % 10 == 0
    ensures (a + b) % 10 == 0
  {
  }

  lemma SmallCloser(x: nat, lo: nat, hi: nat)
    requires x <= TWO_53 && lo % 10 == 0 && hi % 10 == 0
    ensures Closer(x, lo, hi).None? || Closer(x, lo, hi) == Some(x)
  {
    hide NearestDouble;
    if NearestDouble(lo) == x { OnlyItself(x, lo); }
    if NearestDouble(hi) == x { OnlyItself(x, hi); }
  }

  lemma SmallReadsBack(x: nat, p: nat)
    requires x <= TWO_53 && p > 0 && p % 10 == 0
    ensures ReadsBack(x, p).None? || ReadsBack(x, p) == Some(x)
  {
    hide Closer, FloorTo;
    MultipleOfTen(x, p);
    SumOfTens(FloorTo(x, p), p);
    SmallCloser(x, FloorTo(x, p), FloorTo(x, p) + p);
  }

  lemma {:induction false} SmallShortest(x: nat, k: nat)
    requires x <= TWO_53
    ensures Shortest(x, k) == x
  {
    hide ReadsBack;
    if k > 0 {
      TenDivides(k);
      SmallReadsBack(x, Pow10(k));
      SmallShortest(x, k - 1);
    }
  }

  /** Whole numbers up to 2^53 print as written. */
  lemma SmallNumbersPrint(n: int)
    requires -TWO_53 <= n <= TWO_53
    ensures Printed(n) == n
  {
    var m: nat := if n < 0 then -n else n;
    SmallDoubles(m);
    SmallShortest(m, |Digits(m)|);
  }
}
