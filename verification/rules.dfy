/** The conversion rule table: for every (source, destination) pair of
    primitive types, the checking strategy its conversions use, which
    schemes are offered, and the error type each conversion declares.
    The strategies are the tags of the library's rule rows (`e`, `w`, `w+`,
    `n-`, `n+`, `n`, `nf`, `fan`), plus the blanket identity conversion and
    the two float-to-float conversions. */
module Rules {
  import opened NumTypes
  import opened Floats
  import opened Schemes
  import opened Errors

  datatype Strategy =
    | Identity                        // a type to itself
    | Exact                           // `e`: same range under another name
    | Widen                           // `w`: destination range contains the source range
    | WidenSignedToUnsigned           // `w+`: fails only on negative input
    | NarrowFromUnsigned              // `n-`: fails only above the destination maximum
    | NarrowSignedToUnsigned          // `n+`: fails below zero or above the destination maximum
    | Narrow                          // `n`: checks both destination bounds
    | NarrowToFloat(bound: int)       // `nf [+- bound]`: integer to float, exact within +-bound
    | NarrowToFloatUnsigned(max: int) // `nf [, max]`: unsigned integer to float, exact up to max
    | FloatToInt(lo: int, hi: int)    // `fan`: float to integer, rounded value checked against [lo, hi]
    | FloatWiden                      // f32 to f64
    | FloatNarrow                     // f64 to f32

  /** Picks the row of a `#[32]` / `#[64]` pair. */
  function ByWidth(pw: PtrWidth, on32: Strategy, on64: Strategy): Strategy {
    if pw == W32 then on32 else on64
  }

  /** The strategy checks that the input is not below the destination's
      range, and can report `NegOverflow`. */
  predicate ChecksBelow(st: Strategy) {
    st.WidenSignedToUnsigned? || st.NarrowSignedToUnsigned? || st.Narrow? || st.NarrowToFloat?
  }

  /** The strategy checks that the input is not above the destination's
      range, and can report `PosOverflow`. */
  predicate ChecksAbove(st: Strategy) {
    st.NarrowFromUnsigned? || st.NarrowSignedToUnsigned? || st.Narrow?
    || st.NarrowToFloat? || st.NarrowToFloatUnsigned?
  }

  /** The rows of the integer-to-integer table. Every pair has `value_from`
      and both integer schemes, only a type to itself is the identity, an
      unsigned source is never checked from below and a signed source into
      an unsigned type always is. */
  function IntRule(src: IntTy, dst: IntTy, pw: PtrWidth): (st: Strategy)
    ensures ValueOffered(st) && ApproxOffered(st, DefaultApprox) && ApproxOffered(st, Wrapping)
    ensures st.Identity? <==> src == dst
    ensures !Signed(src) ==> !ChecksBelow(st)
    ensures Signed(src) && !Signed(dst) ==> ChecksBelow(st)
  {
    match src
    case I8 =>
      (match dst
       case I8 => Identity
       case I16 | I32 | I64 | ISize => Widen
       case U8 | U16 | U32 | U64 | USize => WidenSignedToUnsigned)
    case I16 =>
      (match dst
       case I8 => Narrow
       case I16 => Identity
       case I32 | I64 | ISize => Widen
       case U8 => NarrowSignedToUnsigned
       case U16 | U32 | U64 | USize => WidenSignedToUnsigned)
    case I32 =>
      (match dst
       case I8 | I16 => Narrow
       case I32 => Identity
       case I64 => Widen
       case ISize => ByWidth(pw, Exact, Widen)
       case U8 | U16 => NarrowSignedToUnsigned
       case U32 | U64 | USize => WidenSignedToUnsigned)
    case I64 =>
      (match dst
       case I8 | I16 | I32 => Narrow
       case I64 => Identity
       case ISize => ByWidth(pw, Narrow, Exact)
       case U8 | U16 | U32 => NarrowSignedToUnsigned
       case U64 => WidenSignedToUnsigned
       case USize => ByWidth(pw, NarrowSignedToUnsigned, WidenSignedToUnsigned))
    case U8 =>
      (match dst
       case I8 => NarrowFromUnsigned
       case U8 => Identity
       case I16 | I32 | I64 | ISize | U16 | U32 | U64 | USize => Widen)
    case U16 =>
      (match dst
       case I8 | I16 | U8 => NarrowFromUnsigned
       case U16 => Identity
       case I32 | I64 | ISize | U32 | U64 | USize => Widen)
    case U32 =>
      (match dst
       case I8 | I16 | I32 | U8 | U16 => NarrowFromUnsigned
       case U32 => Identity
       case I64 | U64 => Widen
       case ISize => ByWidth(pw, NarrowFromUnsigned, Widen)
       case USize => ByWidth(pw, Exact, Widen))
    case U64 =>
      (match dst
       case I8 | I16 | I32 | I64 | ISize | U8 | U16 | U32 => NarrowFromUnsigned
       case U64 => Identity
       case USize => ByWidth(pw, NarrowFromUnsigned, Exact))
    case ISize =>
      (match dst
       case I8 | I16 => Narrow
       case I32 => ByWidth(pw, Exact, Narrow)
       case I64 => ByWidth(pw, Widen, Exact)
       case ISize => Identity
       case U8 | U16 => NarrowSignedToUnsigned
       case U32 => ByWidth(pw, WidenSignedToUnsigned, NarrowSignedToUnsigned)
       case U64 | USize => WidenSignedToUnsigned)
    case USize =>
      (match dst
       case I8 | I16 | I32 | ISize | U8 | U16 => NarrowFromUnsigned
       case I64 => ByWidth(pw, Widen, NarrowFromUnsigned)
       case U32 => ByWidth(pw, Exact, NarrowFromUnsigned)
       case U64 => ByWidth(pw, Widen, Exact)
       case USize => Identity)
  }

  /** The rows of the integer-to-float table. A pair widens exactly when
      the source maximum is exactly representable; otherwise the row's
      bound is the format's limit of exact integers, two-sided for signed
      sources and an upper bound for unsigned ones. */
  function IntToFloatRule(src: IntTy, dst: FloatTy, pw: PtrWidth): (st: Strategy)
    ensures st.Widen? || st.NarrowToFloat? || st.NarrowToFloatUnsigned?
    ensures st.Widen? <==> Max(src, pw) <= ExactIntLimit(dst)
    ensures st.NarrowToFloat? ==> Signed(src) && st.bound == ExactIntLimit(dst)
    ensures st.NarrowToFloatUnsigned? ==> !Signed(src) && st.max == ExactIntLimit(dst)
  {
    match src
    case I8 | I16 | U8 | U16 => Widen
    case I32 => if dst == F32 then NarrowToFloat(16_777_216) else Widen
    case I64 => if dst == F32 then NarrowToFloat(16_777_216) else NarrowToFloat(9_007_199_254_740_992)
    case U32 => if dst == F32 then NarrowToFloatUnsigned(16_777_216) else Widen
    case U64 =>
      if dst == F32 then NarrowToFloatUnsigned(16_777_216)
      else NarrowToFloatUnsigned(9_007_199_254_740_992)
    case ISize =>
      if dst == F32 then NarrowToFloat(16_777_216)
      else ByWidth(pw, Widen, NarrowToFloat(9_007_199_254_740_992))
    case USize =>
      if dst == F32 then NarrowToFloatUnsigned(16_777_216)
      else ByWidth(pw, Widen, NarrowToFloatUnsigned(9_007_199_254_740_992))
  }

  /** `fan` without explicit bounds: the destination's own `MIN as f` and
      `MAX as f`, which the table only uses where both are exact. */
  function FanDst(dst: IntTy, pw: PtrWidth): Strategy {
    FloatToInt(Min(dst, pw), Max(dst, pw))
  }

  /** The rows of the float-to-integer table. The explicit bounds are the
      exact values of the float literals of the rows: the widest float of
      the source format that still converts back from the integer type. */
  function FloatToIntRule(src: FloatTy, dst: IntTy, pw: PtrWidth): (st: Strategy)
    ensures st.FloatToInt?
    ensures st.lo == Min(dst, pw) && st.hi <= Max(dst, pw)
    ensures Max(dst, pw) <= ExactIntLimit(src) ==> st.hi == Max(dst, pw)
  {
    match src
    case F32 =>
      (match dst
       case I8 | I16 | U8 | U16 => FanDst(dst, pw)
       case I32 => FloatToInt(-2_147_483_648, 2_147_483_520)
       case I64 => FloatToInt(-9_223_372_036_854_775_808, 9_223_371_487_098_961_920)
       case U32 => FloatToInt(0, 4_294_967_040)
       case U64 => FloatToInt(0, 18_446_742_974_197_923_840)
       case ISize =>
         ByWidth(pw, FloatToInt(-2_147_483_648, 2_147_483_520),
                     FloatToInt(-9_223_372_036_854_775_808, 9_223_371_487_098_961_920))
       case USize => ByWidth(pw, FloatToInt(0, 4_294_967_040), FloatToInt(0, 18_446_742_974_197_923_840)))
    case F64 =>
      (match dst
       case I8 | I16 | I32 | U8 | U16 | U32 => FanDst(dst, pw)
       case I64 => FloatToInt(-9_223_372_036_854_775_808, 9_223_372_036_854_774_784)
       case U64 => FloatToInt(0, 18_446_744_073_709_549_568)
       case ISize => ByWidth(pw, FanDst(dst, pw), FloatToInt(-9_223_372_036_854_775_808, 9_223_372_036_854_774_784))
       case USize => ByWidth(pw, FanDst(dst, pw), FloatToInt(0, 18_446_744_073_709_549_568)))
  }

  function FloatRule(src: FloatTy, dst: FloatTy): Strategy {
    match (src, dst)
    case (F32, F64) => FloatWiden
    case (F64, F32) => FloatNarrow
    case _ => Identity
  }

  /** The strategy of any pair of primitive types. */
  function RuleFor(src: NumTy, dst: NumTy, pw: PtrWidth): Strategy {
    match (src, dst)
    case (Int(s), Int(d)) => IntRule(s, d, pw)
    case (Int(s), Float(d)) => IntToFloatRule(s, d, pw)
    case (Float(s), Int(d)) => FloatToIntRule(s, d, pw)
    case (Float(s), Float(d)) => FloatRule(s, d)
  }

  /** A `ValueFrom` impl exists: for every pair except float to integer and
      f64 to f32. */
  predicate ValueOffered(st: Strategy) {
    !st.FloatToInt? && !st.FloatNarrow?
  }

  /** An `ApproxFrom<_, s>` impl exists. The integer rows are offered under
      `DefaultApprox` and `Wrapping` (`nf` rows only under the former),
      float to integer under every scheme but `Wrapping`, f64 to f32 only
      under `DefaultApprox`, and the identity and f32 to f64 under every
      scheme. */
  predicate ApproxOffered(st: Strategy, s: Scheme) {
    match st
    case Identity | FloatWiden => true
    case FloatToInt(_, _) => IsRounding(s)
    case FloatNarrow | NarrowToFloat(_) | NarrowToFloatUnsigned(_) => s == DefaultApprox
    case _ => s == DefaultApprox || s == Wrapping
  }

  /** The error type a `ValueFrom` impl declares: one that can express
      exactly the overflow directions the strategy checks. */
  function ValueErrorType(st: Strategy): (e: ErrorType)
    requires ValueOffered(st)
    ensures e == NegOverflowType || e == RangeErrorType <==> ChecksBelow(st)
    ensures e == PosOverflowType || e == RangeErrorType <==> ChecksAbove(st)
    ensures e != FloatErrorType
  {
    match st
    case WidenSignedToUnsigned => NegOverflowType
    case NarrowFromUnsigned | NarrowToFloatUnsigned(_) => PosOverflowType
    case NarrowSignedToUnsigned | Narrow | NarrowToFloat(_) => RangeErrorType
    case _ => NoErrorType
  }

  /** The error type an `ApproxFrom` impl declares. The `Wrapping` and the
      integer-to-float `DefaultApprox` impls cast blindly and cannot fail. */
  function ApproxErrorType(st: Strategy, s: Scheme): (e: ErrorType)
    requires ApproxOffered(st, s)
    ensures s == Wrapping ==> e == NoErrorType
    ensures ValueOffered(st) && !st.NarrowToFloat? && !st.NarrowToFloatUnsigned? ==>
      e == (if s == Wrapping then NoErrorType else ValueErrorType(st))
    ensures st.FloatToInt? <==> e == FloatErrorType
  {
    match st
    case FloatToInt(_, _) => FloatErrorType
    case FloatNarrow => RangeErrorType
    case WidenSignedToUnsigned | NarrowFromUnsigned | NarrowSignedToUnsigned | Narrow =>
      if s == Wrapping then NoErrorType else ValueErrorType(st)
    case _ => NoErrorType
  }

  /* ---------------- what each row promises ---------------- */

  /** The range facts that make an integer row's checks sufficient: every
      check it omits can never fail for the pair, every check it makes can,
      and every destination bound it casts to the source type is a value of
      the source type. */
  predicate IntRowSound(st: Strategy, src: IntTy, dst: IntTy, pw: PtrWidth) {
    var (smin, smax, dmin, dmax) := (Min(src, pw), Max(src, pw), Min(dst, pw), Max(dst, pw));
    match st
    case Identity => src == dst
    case Exact => src != dst && smin == dmin && smax == dmax
    case Widen => src != dst && dmin <= smin && smax <= dmax
    case WidenSignedToUnsigned => smin < 0 == dmin && smax <= dmax
    case NarrowFromUnsigned => dmin <= smin == 0 && dmax < smax
    case NarrowSignedToUnsigned => smin < 0 == dmin && dmax < smax
    case Narrow => smin < dmin && dmax < smax
    case _ => false
  }

  /** An integer-to-float row is sound when its bound is the format's limit
      of exactly representable integers, the bound can be exceeded by the
      source type, and an omitted lower check cannot fail; a `w` row needs
      the whole source range to be exactly representable. */
  predicate IntToFloatRowSound(st: Strategy, src: IntTy, dst: FloatTy, pw: PtrWidth) {
    var limit := ExactIntLimit(dst);
    match st
    case Widen => -limit <= Min(src, pw) && Max(src, pw) <= limit
    case NarrowToFloat(b) => b == limit && Min(src, pw) < -b && b < Max(src, pw)
    case NarrowToFloatUnsigned(b) => b == limit && Min(src, pw) == 0 && b < Max(src, pw)
    case _ => false
  }

  /** A float-to-integer row is sound when its bounds lie inside the
      destination range (which is what licenses the unchecked cast) and
      rows without explicit bounds use the destination's own bounds. */
  predicate FloatToIntRowSound(st: Strategy, dst: IntTy, pw: PtrWidth) {
    st.FloatToInt? && Min(dst, pw) <= st.lo <= 0 < st.hi <= Max(dst, pw)
    && (Min(dst, pw) == 0 ==> st.lo == 0)
  }

  lemma IntRuleSoundFromI8(dst: IntTy, pw: PtrWidth)
    ensures IntRowSound(IntRule(I8, dst, pw), I8, dst, pw)
  {
  }

  lemma IntRuleSoundFromI16(dst: IntTy, pw: PtrWidth)
    ensures IntRowSound(IntRule(I16, dst, pw), I16, dst, pw)
  {
  }

  lemma IntRuleSoundFromI32(dst: IntTy, pw: PtrWidth)
    ensures IntRowSound(IntRule(I32, dst, pw), I32, dst, pw)
  {
  }

  lemma IntRuleSoundFromI64(dst: IntTy, pw: PtrWidth)
    ensures IntRowSound(IntRule(I64, dst, pw), I64, dst, pw)
  {
  }

  lemma IntRuleSoundFromISize(dst: IntTy, pw: PtrWidth)
    ensures IntRowSound(IntRule(ISize, dst, pw), ISize, dst, pw)
  {
  }

  lemma IntRuleSoundFromU8(dst: IntTy, pw: PtrWidth)
    ensures IntRowSound(IntRule(U8, dst, pw), U8, dst, pw)
  {
  }

  lemma IntRuleSoundFromU16(dst: IntTy, pw: PtrWidth)
    ensures IntRowSound(IntRule(U16, dst, pw), U16, dst, pw)
  {
  }

  lemma IntRuleSoundFromU32(dst: IntTy, pw: PtrWidth)
    ensures IntRowSound(IntRule(U32, dst, pw), U32, dst, pw)
  {
  }

  lemma IntRuleSoundFromU64(dst: IntTy, pw: PtrWidth)
    ensures IntRowSound(IntRule(U64, dst, pw), U64, dst, pw)
  {
  }

  lemma IntRuleSoundFromUSize(dst: IntTy, pw: PtrWidth)
    ensures IntRowSound(IntRule(USize, dst, pw), USize, dst, pw)
  {
  }

  /** Every row of the integer table is sound: the `e`/`w` rows never need
      a check, `w+` can only fail below zero, `n-` only above the
      destination maximum, and so on. */
  lemma IntRuleSound(src: IntTy, dst: IntTy, pw: PtrWidth)
    ensures IntRowSound(IntRule(src, dst, pw), src, dst, pw)
  {
    match src
    case I8 => IntRuleSoundFromI8(dst, pw);
    case I16 => IntRuleSoundFromI16(dst, pw);
    case I32 => IntRuleSoundFromI32(dst, pw);
    case I64 => IntRuleSoundFromI64(dst, pw);
    case ISize => IntRuleSoundFromISize(dst, pw);
    case U8 => IntRuleSoundFromU8(dst, pw);
    case U16 => IntRuleSoundFromU16(dst, pw);
    case U32 => IntRuleSoundFromU32(dst, pw);
    case U64 => IntRuleSoundFromU64(dst, pw);
    case USize => IntRuleSoundFromUSize(dst, pw);
  }

  lemma IntToFloatRuleSound(src: IntTy, dst: FloatTy, pw: PtrWidth)
    ensures IntToFloatRowSound(IntToFloatRule(src, dst, pw), src, dst, pw)
  {
  }

  lemma FloatToIntRuleSound(src: FloatTy, dst: IntTy, pw: PtrWidth)
    ensures FloatToIntRowSound(FloatToIntRule(src, dst, pw), dst, pw)
  {
  }
}
