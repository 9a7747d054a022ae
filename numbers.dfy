/**
 * Exact arithmetic standing in for the tensor library's floating point:
 * powers of two, round-half-to-even, clamping, and a two-valued view of a
 * float (a finite real, or an infinity/NaN).
 */
module Numbers {

  /** A float as the model sees it: a finite real, or an infinity or NaN. */
  datatype Num = Finite(r: real) | NonFinite

  /** Two to a non-negative integer power. */
  function Pow2(k: nat): (p: nat)
    ensures p >= 1
  {
    if k == 0 then 1 else 2 * Pow2(k - 1)
  }

  /** Python's 2 ** k for an integer k: exact, and a fraction when k < 0. */
  function Pow2Real(k: int): (p: real)
    ensures p > 0.0
  {
    if k >= 0 then Pow2(k) as real else 1.0 / (Pow2(-k) as real)
  }

  lemma {:induction false} Pow2RealStep(k: int)
    ensures Pow2Real(k + 1) == 2.0 * Pow2Real(k)
  {
    if k >= 0 {
      assert Pow2(k + 1) == 2 * Pow2(k);
    } else if k == -1 {
      assert Pow2(1) == 2;
    } else {
      var a := Pow2(-k - 1) as real;
      assert Pow2(-k) == 2 * Pow2(-k - 1);
      assert Pow2Real(k + 1) == 1.0 / a;
      assert Pow2Real(k) == 1.0 / (2.0 * a);
    }
  }

  lemma {:induction false} Pow2RealMonotone(a: int, b: int)
    requires a <= b
    ensures Pow2Real(a) <= Pow2Real(b)
    decreases b - a
  {
    if a < b {
      Pow2RealMonotone(a + 1, b);
      Pow2RealStep(a);
    }
  }

  /** torch.round on a finite value: nearest integer, ties to the even one. */
  function RoundHalfEven(x: real): (n: int)
    ensures x - 0.5 <= n as real <= x + 0.5
    ensures (n as real - x == 0.5 || x - n as real == 0.5) ==> n % 2 == 0
  {
    var f := x.Floor;
    var d := x - f as real;
    if d < 0.5 then f
    else if d > 0.5 then f + 1
    else if f % 2 == 0 then f
    else f + 1
  }

  /** torch.clamp(x, lo, hi) on a finite value; when lo > hi every value becomes hi. */
  function Clamp(x: real, lo: real, hi: real): (r: real)
    ensures lo <= hi ==> lo <= r <= hi
    ensures lo <= x <= hi ==> r == x
    ensures x < lo <= hi ==> r == lo
    ensures lo <= hi < x ==> r == hi
    ensures lo > hi ==> r == hi
  {
    var m := if x < lo then lo else x;
    if m > hi then hi else m
  }

  /** Integer floor of log2 of a positive natural number. */
  function ILog2(n: nat): (k: nat)
    requires n >= 1
    ensures Pow2(k) <= n < Pow2(k + 1)
  {
    if n == 1 then 0 else 1 + ILog2(n / 2)
  }

  lemma ReciprocalOrder(a: real, b: real)
    requires 0.0 < a <= b
    ensures 1.0 / b <= 1.0 / a
  {
    assert 1.0 / a - 1.0 / b == (b - a) / (a * b);
  }

  lemma ReciprocalStrict(a: real, b: real)
    requires 0.0 < a < b
    ensures 1.0 / b < 1.0 / a
  {
    assert 1.0 / a - 1.0 / b == (b - a) / (a * b);
  }

  /** For 0 < x < 1: the c with 2^(c-1) < 1/x <= 2^c. */
  function RecipExp(x: real): (c: int)
    requires 0.0 < x < 1.0
  {
    var y := 1.0 / x;
    var n: int := if y == y.Floor as real then y.Floor else y.Floor + 1;
    if n <= 1 then 0 else ILog2(n - 1) + 1
  }

  /** The smallest power of two at least y, for y > 1: 2^(c-1) < y <= 2^c. */
  lemma CeilPow2Bracket(y: real, n: int, c: int)
    requires y > 1.0
    requires n == if y == y.Floor as real then y.Floor else y.Floor + 1
    requires n >= 2 && c == ILog2(n - 1) + 1
    ensures Pow2(c - 1) as real < y <= Pow2(c) as real
  {
  }

  /** Bracketing 1/x between 2^(c-1) and 2^c brackets x between 2^-c and 2^(1-c). */
  lemma ReciprocalBracket(x: real, c: int)
    requires x > 0.0 && c >= 1
    requires Pow2(c - 1) as real < 1.0 / x <= Pow2(c) as real
    ensures Pow2Real(-c) <= x < Pow2Real(-c + 1)
  {
    var y := 1.0 / x;
    ReciprocalOrder(y, Pow2(c) as real);
    ReciprocalStrict(Pow2(c - 1) as real, y);
    assert 1.0 / y == x;
    assert Pow2Real(-c + 1) == 1.0 / (Pow2(c - 1) as real) by {
      if c == 1 { assert Pow2(0) == 1; }
    }
  }

  /** RecipExp brackets x from below and above by powers of two. */
  lemma RecipExpBracket(x: real)
    requires 0.0 < x < 1.0
    ensures Pow2Real(-RecipExp(x)) <= x < Pow2Real(-RecipExp(x) + 1)
  {
    var y := 1.0 / x;
    assert y > 1.0 by {
      ReciprocalStrict(x, 1.0);
    }
    var n: int := if y == y.Floor as real then y.Floor else y.Floor + 1;
    assert n >= 2;
    var c := ILog2(n - 1) + 1;
    CeilPow2Bracket(y, n, c);
    ReciprocalBracket(x, c);
  }

  /** floor(log2(x)) for a positive real x: the k with 2^k <= x < 2^(k+1). */
  function FloorLog2(x: real): (k: int)
    requires x > 0.0
    ensures Pow2Real(k) <= x < Pow2Real(k + 1)
  {
    if x >= 1.0 then
      var k := ILog2(x.Floor);
      assert Pow2(k + 1) as real == Pow2Real(k + 1);
      k
    else
      RecipExpBracket(x);
      -RecipExp(x)
  }

  /** floor(log2(x)) is the only k with 2^k <= x < 2^(k+1). */
  lemma FloorLog2Unique(x: real, k: int)
    requires Pow2Real(k) <= x < Pow2Real(k + 1)
    ensures x > 0.0 && FloorLog2(x) == k
  {
    var j := FloorLog2(x);
    if j < k {
      Pow2RealMonotone(j + 1, k);
    } else if j > k {
      Pow2RealMonotone(k + 1, j);
    }
  }

  /** Snapping a power of two leaves it alone. */
  lemma SnapPow2OfPow2(k: int)
    ensures SnapPow2(Finite(Pow2Real(k))) == Finite(Pow2Real(k))
  {
    Pow2RealStep(k);
    FloorLog2Unique(Pow2Real(k), k);
  }

  /** The largest of two floats; an infinity or NaN on either side wins, as in torch.amax. */
  function MaxNum(a: Num, b: Num): (m: Num)
    ensures m.NonFinite? <==> a.NonFinite? || b.NonFinite?
    ensures m.Finite? ==> m.r >= a.r && m.r >= b.r && (m.r == a.r || m.r == b.r)
  {
    match (a, b)
    case (Finite(x), Finite(y)) => Finite(if x >= y then x else y)
    case _ => NonFinite
  }

  /** Float division: a finite quotient unless the divisor is zero or an operand is not finite. */
  function DivNum(a: Num, b: Num): (q: Num)
    ensures q.Finite? <==> a.Finite? && b.Finite? && b.r != 0.0
    ensures q.Finite? ==> q.r * b.r == a.r
  {
    if a.Finite? && b.Finite? && b.r != 0.0 then Finite(a.r / b.r) else NonFinite
  }

  /** Float multiplication: finite exactly when both operands are. */
  function MulNum(a: Num, b: Num): (p: Num)
    ensures p.Finite? <==> a.Finite? && b.Finite?
  {
    if a.Finite? && b.Finite? then Finite(a.r * b.r) else NonFinite
  }

  /** Magnitude, as torch.abs. */
  function AbsNum(a: Num): (m: Num)
    ensures m.Finite? <==> a.Finite?
    ensures m.Finite? ==> m.r >= 0.0 && (m.r == a.r || m.r == -a.r)
  {
    if a.Finite? then Finite(if a.r >= 0.0 then a.r else -a.r) else NonFinite
  }

  /**
   * torch.pow(2, torch.floor(torch.log2(s))): the largest power of two not
   * above a positive s; log2(0) is -inf, so 0 stays 0; a negative s gives NaN.
   */
  function SnapPow2(s: Num): (p: Num)
    ensures s.Finite? && s.r > 0.0 ==>
      p.Finite? && 0.0 < p.r <= s.r < 2.0 * p.r && exists k :: p.r == Pow2Real(k)
    ensures s.Finite? && s.r == 0.0 ==> p == Finite(0.0)
    ensures s.NonFinite? || s.r < 0.0 ==> p.NonFinite?
  {
    match s
    case NonFinite => NonFinite
    case Finite(r) =>
      if r > 0.0 then
        var k := FloorLog2(r);
        Pow2RealStep(k);
        Finite(Pow2Real(k))
      else if r == 0.0 then Finite(0.0)
      else NonFinite
  }
}
