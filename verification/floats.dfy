/** An abstract IEEE-754 value, the rounding operations `floor`, `ceil`,
    `trunc` and `round` on it, and the per-format limits the conversions
    rely on. Finite values are exact reals: the bit-level representation and
    the rounding of `as` casts into a float format are not modelled, and
    where a conversion needs that rounding it is taken as a parameter. */
module Floats {
  import opened NumTypes
  import opened Schemes

  datatype Float = NaN | NegInf | PosInf | Finite(r: real)

  /** Rounding of a real to a nearby value of a float format, as an `as`
      cast does; the model leaves it abstract. */
  type RoundFn = (FloatTy, real) -> real

  /** 2^(significand bits): every integer of magnitude at most this is
      exactly representable in the format (2^24 for f32, 2^53 for f64). */
  function ExactIntLimit(ft: FloatTy): int {
    match ft
    case F32 => 16_777_216
    case F64 => 9_007_199_254_740_992
  }

  /** `f32::MAX`, (2 - 2^-23) * 2^127. */
  const F32Max: real := 340282346638528859811704183484516925440.0

  /** `x as f32` / `x as f64` for an integer `x`: exact inside the
      contiguous range of exactly representable integers, the abstract
      rounding outside it. */
  function CastIntToFloat(round: RoundFn, ft: FloatTy, x: int): (r: real)
    ensures -ExactIntLimit(ft) <= x <= ExactIntLimit(ft) ==> r == x as real
  {
    if -ExactIntLimit(ft) <= x <= ExactIntLimit(ft) then x as real
    else round(ft, x as real)
  }

  predicate IsIntegral(x: real) {
    x == x.Floor as real
  }

  /** `f.floor()`: the greatest integer not above `x`. */
  function Floor(x: real): (n: int)
    ensures n as real <= x < n as real + 1.0
  {
    x.Floor
  }

  /** `f.ceil()`: the least integer not below `x`. */
  function Ceil(x: real): (n: int)
    ensures n as real - 1.0 < x <= n as real
  {
    -Floor(-x)
  }

  /** `f.trunc()` and `to_int_unchecked`: the integer part, rounding
      toward zero. */
  function Trunc(x: real): (n: int)
    ensures 0.0 <= x ==> 0 <= n && n as real <= x < n as real + 1.0
    ensures x < 0.0 ==> n <= 0 && n as real - 1.0 < x <= n as real
  {
    if 0.0 <= x then Floor(x) else Ceil(x)
  }

  /** `f.round()`: the nearest integer, halfway cases away from zero. */
  function RoundHalfAway(x: real): (n: int)
    ensures n as real - 0.5 <= x <= n as real + 0.5
    ensures x == n as real - 0.5 ==> 0.0 <= x
    ensures x == n as real + 0.5 ==> x < 0.0
  {
    if 0.0 <= x then Floor(x + 0.5) else -Floor(-x + 0.5)
  }

  /** `floor` is monotone, and so are `ceil`, `trunc` and `round`, which
      are built from it. */
  lemma FloorMonotone(x: real, y: real)
    requires x <= y
    ensures Floor(x) <= Floor(y)
  {
  }

  lemma RoundHalfAwayMonotone(x: real, y: real)
    requires x <= y
    ensures RoundHalfAway(x) <= RoundHalfAway(y)
  {
    if 0.0 <= x {
      FloorMonotone(x + 0.5, y + 0.5);
    } else if y < 0.0 {
      FloorMonotone(-y + 0.5, -x + 0.5);
    }
  }

  lemma TruncMonotone(x: real, y: real)
    requires x <= y
    ensures Trunc(x) <= Trunc(y)
  {
    if 0.0 <= x {
      FloorMonotone(x, y);
    } else if y < 0.0 {
      FloorMonotone(-y, -x);
    }
  }

  /** The approximation step of a float-to-integer conversion under a
      rounding scheme: `DefaultApprox` leaves the value as it is, the others
      round it to an integer the way their names say. NaN and infinities
      are left alone, as the float operations leave them. */
  function Approximate(s: Scheme, f: Float): (a: Float)
    requires IsRounding(s)
    ensures !f.Finite? ==> a == f
    ensures f.Finite? ==> a.Finite?
    ensures s == DefaultApprox ==> a == f
    ensures f.Finite? && s != DefaultApprox ==> IsIntegral(a.r)
    ensures f.Finite? ==> f.r - 1.0 < a.r < f.r + 1.0
    ensures f.Finite? && s == RoundToNegInf ==> a.r <= f.r
    ensures f.Finite? && s == RoundToPosInf ==> f.r <= a.r
    ensures f.Finite? && s == RoundToZero ==>
      (0.0 <= f.r ==> 0.0 <= a.r <= f.r) && (f.r < 0.0 ==> f.r <= a.r <= 0.0)
    ensures f.Finite? && s == RoundToNearest ==> f.r - 0.5 <= a.r <= f.r + 0.5
    ensures f.Finite? && s == RoundToNearest && a.r == f.r + 0.5 ==> 0.0 <= f.r
    ensures f.Finite? && s == RoundToNearest && a.r == f.r - 0.5 ==> f.r < 0.0
  {
    match f
    case Finite(x) =>
      (match s
       case DefaultApprox => f
       case RoundToNearest => Finite(RoundHalfAway(x) as real)
       case RoundToNegInf => Finite(Floor(x) as real)
       case RoundToPosInf => Finite(Ceil(x) as real)
       case RoundToZero => Finite(Trunc(x) as real))
    case _ => f
  }

  /** `lo <= f` under IEEE comparison (false for NaN). */
  predicate NotBelow(lo: real, f: Float) {
    match f
    case NaN => false
    case NegInf => false
    case PosInf => true
    case Finite(x) => lo <= x
  }

  /** `f <= hi` under IEEE comparison (false for NaN). */
  predicate NotAbove(f: Float, hi: real) {
    match f
    case NaN => false
    case NegInf => true
    case PosInf => false
    case Finite(x) => x <= hi
  }
}
