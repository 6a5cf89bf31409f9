/** Float-to-integer conversions: the `fan` rows, offered under every
    scheme but `Wrapping`. NaN is rejected first; then the scheme's
    approximation of the input is checked against the row's bounds, and a
    value inside them is truncated to the integer. Errors carry the
    original input, not its approximation. */
module FloatIntConv {
  import opened Wrappers
  import opened NumTypes
  import opened Schemes
  import opened Floats
  import opened Errors
  import opened Rules
  import opened Saturation

  /** `approx_range_no_nan` with bounds `[lo, hi]` and the approximation
      of scheme `s`. */
  function RangeNoNaN(s: Scheme, lo: int, hi: int, f: Float): (r: Result<int, FloatError<Float>>)
    requires IsRounding(s)
    ensures r.Err? ==> r.error.IntoInner() == f
    ensures (r.Err? && r.error.NotANumber?) <==> f.NaN?
    ensures (r.Err? && r.error.NegOverflow?) <==>
      f.NegInf? || (f.Finite? && Approximate(s, f).r < lo as real)
    ensures r.Ok? <==> f.Finite? && lo as real <= Approximate(s, f).r <= hi as real
    ensures r.Ok? ==> lo <= r.value <= hi
    ensures r.Ok? ==> f.r - 1.0 < r.value as real < f.r + 1.0
    ensures r.Ok? ==> r.value == Trunc(Approximate(s, f).r)
    ensures r.Ok? && s == DefaultApprox ==> r.value == Trunc(f.r)
    ensures r.Ok? && s == RoundToNearest ==> r.value == RoundHalfAway(f.r)
    ensures r.Ok? && s == RoundToNegInf ==> r.value == Floor(f.r)
    ensures r.Ok? && s == RoundToPosInf ==> r.value == Ceil(f.r)
    ensures r.Ok? && s == RoundToZero ==> r.value == Trunc(f.r)
  {
    if f.NaN? then Err(FloatError.NotANumber(f))
    else
      var approx := Approximate(s, f);
      if !NotBelow(lo as real, approx) then Err(FloatError.NegOverflow(f))
      else if !NotAbove(approx, hi as real) then Err(FloatError.PosOverflow(f))
      else
        TruncWithin(approx.r, lo, hi);
        Ok(Trunc(approx.r))
  }

  /** Truncation keeps a value inside integer bounds it already lies
      within: the `to_int_unchecked` step cannot leave `[lo, hi]`. */
  lemma TruncWithin(x: real, lo: int, hi: int)
    requires lo as real <= x <= hi as real
    ensures lo <= Trunc(x) <= hi
  {
  }

  /** `<dst as ApproxFrom<src, s>>::approx_from(f)` from a float type to an
      integer type. The result of a success is always a value of the
      destination type, which is what makes the unchecked cast safe. */
  function FloatToIntApproxFrom(s: Scheme, src: FloatTy, dst: IntTy, pw: PtrWidth, f: Float)
    : (r: Result<int, FloatError<Float>>)
    requires ApproxOffered(FloatToIntRule(src, dst, pw), s)
    ensures r.Ok? <==> f.Finite? && FloatToIntRule(src, dst, pw).lo as real <= Approximate(s, f).r
                                  <= FloatToIntRule(src, dst, pw).hi as real
    ensures r.Ok? ==> r.value == Trunc(Approximate(s, f).r) && InRange(dst, pw, r.value)
    ensures r.Err? ==> r.error.IntoInner() == f
    ensures (r.Err? && r.error.NotANumber?) <==> f.NaN?
    ensures (r.Err? && r.error.NegOverflow?) <==>
      f.NegInf? || (f.Finite? && Approximate(s, f).r < FloatToIntRule(src, dst, pw).lo as real)
    ensures f == NegInf ==> r == Err(FloatError.NegOverflow(f))
    ensures f == PosInf ==> r == Err(FloatError.PosOverflow(f))
  {
    var st := FloatToIntRule(src, dst, pw);
    FloatToIntRuleSound(src, dst, pw);
    RangeNoNaN(s, st.lo, st.hi, f)
  }

  /** Whatever `DefaultApprox` accepts, `RoundToZero` accepts with the same
      result: the two truncate alike, and the bounds contain zero, so a
      value inside them still is once truncated. */
  lemma DefaultAcceptedByRoundToZero(src: FloatTy, dst: IntTy, pw: PtrWidth, f: Float)
    requires FloatToIntApproxFrom(DefaultApprox, src, dst, pw, f).Ok?
    ensures FloatToIntApproxFrom(RoundToZero, src, dst, pw, f) == FloatToIntApproxFrom(DefaultApprox, src, dst, pw, f)
  {
    FloatToIntRuleSound(src, dst, pw);
  }

  /** Saturating a float-to-integer conversion leaves only NaN as an error;
      every other input gives a value of the destination type, and an
      input the conversion accepts keeps its value. */
  lemma SaturatedConversionTotal(s: Scheme, src: FloatTy, dst: IntTy, pw: PtrWidth, f: Float)
    requires ApproxOffered(FloatToIntRule(src, dst, pw), s)
    ensures var r := FloatToIntApproxFrom(s, src, dst, pw, f);
      var sat := SaturateFloat(r, Min(dst, pw), Max(dst, pw));
      && (sat.Ok? <==> !f.NaN?)
      && (sat.Ok? ==> InRange(dst, pw, sat.value))
      && (r.Ok? ==> sat == Ok(r.value))
  {
    var r := FloatToIntApproxFrom(s, src, dst, pw, f);
    RangeIsTwosComplement(dst, pw);
  }

  /** The order of floats as IEEE comparison sees it, with NaN left out. */
  predicate FloatLe(a: Float, b: Float) {
    match (a, b)
    case (NegInf, _) => !b.NaN?
    case (_, PosInf) => !a.NaN?
    case (Finite(x), Finite(y)) => x <= y
    case _ => false
  }

  /** Each scheme's approximation is monotone. */
  lemma ApproximateMonotone(s: Scheme, x: real, y: real)
    requires IsRounding(s)
    requires x <= y
    ensures Approximate(s, Finite(x)).r <= Approximate(s, Finite(y)).r
  {
    match s
    case DefaultApprox =>
    case RoundToNearest => RoundHalfAwayMonotone(x, y);
    case RoundToNegInf => FloorMonotone(x, y);
    case RoundToPosInf => FloorMonotone(-y, -x);
    case RoundToZero => TruncMonotone(x, y);
  }

  /** Saturated float-to-integer conversion is monotone: a larger input
      never saturates to a smaller integer. */
  lemma SaturatedConversionMonotone(s: Scheme, src: FloatTy, dst: IntTy, pw: PtrWidth, f: Float, g: Float)
    requires ApproxOffered(FloatToIntRule(src, dst, pw), s)
    requires FloatLe(f, g)
    ensures var a := SaturateFloat(FloatToIntApproxFrom(s, src, dst, pw, f), Min(dst, pw), Max(dst, pw));
      var b := SaturateFloat(FloatToIntApproxFrom(s, src, dst, pw, g), Min(dst, pw), Max(dst, pw));
      a.Ok? && b.Ok? && a.value <= b.value
  {
    SaturatedConversionTotal(s, src, dst, pw, f);
    SaturatedConversionTotal(s, src, dst, pw, g);
    FloatToIntRuleSound(src, dst, pw);
    if f.Finite? && g.Finite? {
      ApproximateMonotone(s, f.r, g.r);
      TruncMonotone(Approximate(s, f).r, Approximate(s, g).r);
    }
  }
}
