/**
  Exact-rational stand-ins for the float64 arithmetic of settlement.

  The quorum and the dispensation percentage are fractions `num/den` with a
  positive denominator. A float64 result converted back with `int64(...)` is
  truncated toward zero; `TruncDiv` is that truncation on an exact quotient.
  Rounding of the float64 intermediates themselves is not modelled.
 */
module Numeric {

  datatype Ratio = Ratio(num: int, den: int)

  type Fraction = r: Ratio | r.den > 0 witness Ratio(0, 1)

  function AsReal(q: Fraction): real
  {
    q.num as real / q.den as real
  }

  /** Rounds toward zero, as Go's conversion from float64 to int64 does. */
  function TruncReal(x: real): int
  {
    if x >= 0.0 then x.Floor else -((-x).Floor)
  }

  /** Euclidean division of non-negative integers is the floor of the real quotient. */
  lemma {:induction false} FloorOfQuotient(a: int, b: int)
    requires a >= 0 && b > 0
    ensures (a as real / b as real).Floor == a / b
  {
    var m, rem := a / b, a % b;
    assert a == m * b + rem && 0 <= rem < b;
    assert a as real == m as real * b as real + rem as real;
    var x := a as real / b as real;
    assert x == m as real + rem as real / b as real;
    assert 0.0 <= rem as real / b as real < 1.0;
    assert m as real <= x < m as real + 1.0;
  }

  /** Integer quotient rounded toward zero. */
  function TruncDiv(n: int, d: int): int
    requires d != 0
  {
    var an, ad := if n < 0 then -n else n, if d < 0 then -d else d;
    if (n < 0) == (d < 0) then an / ad else -(an / ad)
  }

  /** `TruncDiv` is the real quotient truncated toward zero. */
  lemma TruncDivTruncates(n: int, d: int)
    requires d != 0
    ensures TruncDiv(n, d) == TruncReal(n as real / d as real)
  {
    var an, ad := if n < 0 then -n else n, if d < 0 then -d else d;
    var q := an as real / ad as real;
    FloorOfQuotient(an, ad);
    NonNegQuotient(an as real, ad as real);
    SignedQuotient(n as real, d as real);
    if (n < 0) == (d < 0) {
      assert n as real / d as real == q;
    } else {
      assert n as real / d as real == -q;
    }
  }

  /** Negating the dividend or the divisor negates a real quotient. */
  lemma SignedQuotient(a: real, b: real)
    requires b != 0.0
    ensures (-a) / b == -(a / b) && a / (-b) == -(a / b) && (-a) / (-b) == a / b
  {
  }

  /** For a non-negative dividend and positive divisor, `TruncDiv` is the largest multiple below. */
  lemma TruncDivBounds(n: int, d: int)
    requires n >= 0 && d > 0
    ensures 0 <= TruncDiv(n, d) && TruncDiv(n, d) * d <= n < (TruncDiv(n, d) + 1) * d
  {
    var r, m := n / d, n % d;
    assert TruncDiv(n, d) == r;
    assert n == r * d + m && 0 <= m < d;
    assert (r + 1) * d == r * d + d;
    assert 0 <= r by { QuotientNotNegative(r, d); }
  }

  lemma QuotientNotNegative(r: int, d: int)
    requires d > 0 && r * d > -d
    ensures 0 <= r
  {
  }

  /**
    The float comparison `float64(a) / float64(t) > q`. A positive divisor
    keeps the order, a negative one flips it; `a / 0` is +Inf (which exceeds
    every quorum) when `a > 0`, and -Inf or NaN (which exceed nothing) otherwise.
   */
  predicate QuotientExceeds(a: int, t: int, q: Fraction)
  {
    if t > 0 then a * q.den > q.num * t
    else if t < 0 then a * q.den < q.num * t
    else a > 0
  }

  /** With a non-zero divisor the comparison is the exact comparison of reals. */
  lemma QuotientExceedsReal(a: int, t: int, q: Fraction)
    requires t != 0
    ensures QuotientExceeds(a, t, q) <==> a as real / t as real > AsReal(q)
  {
    var x := a as real / t as real;
    assert a as real == x * t as real;
    var y := AsReal(q);
    assert q.num as real == y * q.den as real;
    // a * den > num * t  <==>  x * t * den > y * den * t
    assert (a * q.den) as real == x * (t as real) * (q.den as real);
    assert (q.num * t) as real == y * (t as real) * (q.den as real);
    if t > 0 {
      assert (t as real) * (q.den as real) > 0.0;
    } else {
      assert (t as real) * (q.den as real) < 0.0;
    }
  }

  /** "Approve wins": `approve / (approve + deny) > quorum`. */
  predicate ApproveWins(approve: int, deny: int, quorum: Fraction)
  {
    QuotientExceeds(approve, approve + deny, quorum)
  }

  /**
    With non-negative tallies, approve wins exactly when some vote was cast and
    the approve share is strictly above the quorum; a share equal to the quorum,
    and a round with no votes at all, go to deny.
   */
  lemma QuorumBoundary(approve: int, deny: int, quorum: Fraction)
    requires approve >= 0 && deny >= 0
    ensures ApproveWins(approve, deny, quorum)
        <==> approve + deny > 0 && approve * quorum.den > quorum.num * (approve + deny)
    ensures approve * quorum.den == quorum.num * (approve + deny) ==> !ApproveWins(approve, deny, quorum)
    ensures approve + deny == 0 ==> !ApproveWins(approve, deny, quorum)
  {
  }

  /** `int64(float64(bond) * dispensationPct)`. */
  function BondDividend(bond: int, pct: Fraction): int
  {
    TruncReal(bond as real * AsReal(pct))
  }

  /**
    The bond dividend is the integer quotient `bond * num / den` rounded toward
    zero; for non-negative inputs it is the largest non-negative integer whose
    multiple of `den` does not exceed `bond * num`.
   */
  lemma BondDividendTruncatesProduct(bond: int, pct: Fraction)
    ensures BondDividend(bond, pct) == TruncDiv(bond * pct.num, pct.den)
    ensures bond >= 0 && pct.num >= 0 ==>
      var r := BondDividend(bond, pct);
      0 <= r && r * pct.den <= bond * pct.num < (r + 1) * pct.den
  {
    var n := bond * pct.num;
    var x := bond as real * AsReal(pct);
    CastProduct(bond, pct.num);
    BondDividendAsQuotient(bond, pct, x, n);
    if bond >= 0 && pct.num >= 0 {
      assert n >= 0 by { NonNegIntProduct(bond, pct.num); }
      TruncDivBounds(n, pct.den);
    }
  }

  /** The truncation step, with the real product named `x` and the integer product `n`. */
  lemma BondDividendAsQuotient(bond: int, pct: Fraction, x: real, n: int)
    requires x == bond as real * AsReal(pct)
    requires x == n as real / pct.den as real
    ensures BondDividend(bond, pct) == TruncDiv(n, pct.den)
  {
    TruncOfQuotient(x, n, pct.den);
  }

  /**
    `int64(float64(power) / pool * float64(bond) * dispensationPct)`. A zero
    pool makes the float quotient infinite or NaN, whose conversion Go leaves
    to the platform; the model pays no dividend then.
   */
  function VoterDividend(power: int, pool: int, bond: int, pct: Fraction): int
  {
    if pool == 0 then 0 else TruncReal(power as real / pool as real * bond as real * AsReal(pct))
  }

  /**
    With a non-zero pool, the voter dividend is the integer quotient
    `power * bond * num / (pool * den)` rounded toward zero.
   */
  lemma VoterDividendTruncatesShare(power: int, pool: int, bond: int, pct: Fraction)
    ensures pool != 0 ==> VoterDividend(power, pool, bond, pct)
                          == TruncDiv(power * bond * pct.num, pool * pct.den)
  {
    if pool != 0 {
      var n, d := power * bond * pct.num, pool * pct.den;
      assert d != 0 by { NonZeroProduct(pool, pct.den); }
      var x := power as real / pool as real * bond as real * AsReal(pct);
      ShareAsQuotient(power, pool, bond, pct, n, d);
      VoterDividendOfShare(power, pool, bond, pct, x);
      TruncOfQuotient(x, n, d);
    }
  }

  /** The unfolding step, with the real share named `x`. */
  lemma VoterDividendOfShare(power: int, pool: int, bond: int, pct: Fraction, x: real)
    requires pool != 0
    requires x == power as real / pool as real * bond as real * AsReal(pct)
    ensures VoterDividend(power, pool, bond, pct) == TruncReal(x)
  {
  }

  /** Non-negative inputs and a positive pool give a non-negative voter dividend. */
  lemma VoterDividendNonNegative(power: int, pool: int, bond: int, pct: Fraction)
    requires power >= 0 && pool > 0 && bond >= 0 && pct.num >= 0
    ensures VoterDividend(power, pool, bond, pct) >= 0
  {
    ShareNonNegative(power, pool, bond, pct);
  }

  /** The voter's real share of the dividend is the quotient of two integer products. */
  lemma ShareAsQuotient(power: int, pool: int, bond: int, pct: Fraction, n: int, d: int)
    requires pool != 0 && d != 0
    requires n == power * bond * pct.num && d == pool * pct.den
    ensures power as real / pool as real * bond as real * AsReal(pct) == n as real / d as real
  {
    CastProduct(power * bond, pct.num);
    CastProduct(power, bond);
    CastProduct(pool, pct.den);
    Rearrange(power as real, pool as real, bond as real, pct.num as real, pct.den as real);
  }

  /** The voter's real share is non-negative for non-negative inputs. */
  lemma ShareNonNegative(power: int, pool: int, bond: int, pct: Fraction)
    requires power >= 0 && pool > 0 && bond >= 0 && pct.num >= 0
    ensures power as real / pool as real * bond as real * AsReal(pct) >= 0.0
  {
    NonNegQuotient(power as real, pool as real);
    NonNegQuotient(pct.num as real, pct.den as real);
    NonNegProduct(power as real / pool as real, bond as real);
    NonNegProduct(power as real / pool as real * bond as real, AsReal(pct));
  }

  /** A winning voter's dividend never exceeds the whole bond dividend when the voter holds at most the pool. */
  lemma VoterDividendAtMostBondDividend(power: int, pool: int, bond: int, pct: Fraction)
    requires 0 <= power <= pool && pool > 0
    requires bond >= 0 && pct.num >= 0
    ensures VoterDividend(power, pool, bond, pct) <= BondDividend(bond, pct)
  {
    var p, q, b, c := power as real, pool as real, bond as real, AsReal(pct);
    assert VoterDividend(power, pool, bond, pct) == TruncReal(p / q * b * c);
    assert BondDividend(bond, pct) == TruncReal(b * c);
    assert TruncReal(p / q * b * c) <= TruncReal(b * c) by {
      NonNegQuotient(pct.num as real, pct.den as real);
      ShareOfAmount(p, q, b, c);
    }
  }

  /** A share `p / q <= 1` of a non-negative amount `b * c` truncates to no more than the amount. */
  lemma ShareOfAmount(p: real, q: real, b: real, c: real)
    requires 0.0 <= p <= q && q > 0.0
    requires 0.0 <= b && 0.0 <= c
    ensures TruncReal(p / q * b * c) <= TruncReal(b * c)
  {
    UnitQuotient(p, q);
    NonNegProduct(b, c);
    Associate(p / q, b, c);
    TruncScaledDown(p / q, b * c);
  }

  /** Scaling a non-negative amount by a factor in [0, 1] cannot raise its truncation. */
  lemma TruncScaledDown(f: real, y: real)
    requires 0.0 <= f <= 1.0 && 0.0 <= y
    ensures TruncReal(f * y) <= TruncReal(y)
  {
    ScaleDown(f, y);
    var z := f * y;
    assert z <= y;
    FloorMonotone(z, y);
  }

  /** `TruncDivTruncates` for a real already known to be the quotient `n / d`. */
  lemma TruncOfQuotient(x: real, n: int, d: int)
    requires d != 0 && x == n as real / d as real
    ensures TruncReal(x) == TruncDiv(n, d)
  {
    TruncDivTruncates(n, d);
  }

  lemma NonZeroProduct(a: int, b: int)
    requires a != 0 && b != 0
    ensures a * b != 0
  {
  }

  lemma NonNegIntProduct(a: int, b: int)
    requires a >= 0 && b >= 0
    ensures a * b >= 0
  {
  }

  lemma CastProduct(a: int, b: int)
    ensures (a * b) as real == a as real * b as real
  {
  }

  lemma Rearrange(p: real, q: real, b: real, n: real, d: real)
    requires q != 0.0 && d != 0.0
    ensures p / q * b * (n / d) == (p * b * n) / (q * d)
  {
  }

  lemma Associate(a: real, b: real, c: real)
    ensures a * b * c == a * (b * c)
  {
  }

  lemma FloorMonotone(x: real, y: real)
    requires x <= y
    ensures x.Floor <= y.Floor
  {
    assert x.Floor as real <= x && y < y.Floor as real + 1.0;
  }

  lemma UnitQuotient(p: real, q: real)
    requires 0.0 <= p <= q && q > 0.0
    ensures 0.0 <= p / q <= 1.0
  {
    assert p / q * q == p;
  }

  lemma NonNegQuotient(p: real, q: real)
    requires 0.0 <= p && q > 0.0
    ensures 0.0 <= p / q
  {
    assert p / q * q == p;
  }

  lemma NonNegProduct(p: real, q: real)
    requires 0.0 <= p && 0.0 <= q
    ensures 0.0 <= p * q
  {
  }

  lemma ScaleDown(f: real, y: real)
    requires 0.0 <= f <= 1.0 && 0.0 <= y
    ensures 0.0 <= f * y <= y
  {
    assert y - f * y == (1.0 - f) * y;
  }
}
