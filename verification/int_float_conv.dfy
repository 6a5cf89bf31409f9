/** Integer-to-float conversions: the `w` and `nf` rows of the
    integer-to-float table. `ValueFrom` succeeds only inside the contiguous
    range of integers the format represents exactly; `DefaultApprox` (and
    `Wrapping` on `w` rows) casts blindly with `as`. */
module IntFloatConv {
  import opened Wrappers
  import opened NumTypes
  import opened Schemes
  import opened Floats
  import opened Errors
  import opened Rules

  /** The `nf [+- b]` `value_from` check: below `-b` is a negative
      overflow, then above `b` a positive one. */
  function CheckSymmetric(b: int, x: int): (r: Result<int, RangeError<int>>)
    ensures r.Ok? <==> -b <= x <= b
    ensures r.Ok? ==> r.value == x
    ensures r.Err? ==> r.error.value == x
    ensures r.Err? ==> (r.error.NegOverflow? <==> x < -b)
  {
    if !(-b <= x) then Err(RangeError.NegOverflow(x))
    else if !(x <= b) then Err(RangeError.PosOverflow(x))
    else Ok(x)
  }

  /** The `nf [, max]` `value_from` check: only above `max` can fail. */
  function CheckUpTo(max: int, x: int): (r: Result<int, PosOverflow<int>>)
    ensures r.Ok? <==> x <= max
    ensures r.Ok? ==> r.value == x
    ensures r.Err? ==> r.error.value == x
  {
    if !(x <= max) then Err(PosOverflow.PosOverflow(x))
    else Ok(x)
  }

  /** `ValueFrom` for an integer-to-float pair whose row is `st`: success
      exactly within the format's exactly representable integers, with the
      same number as the result; the error carries the input and is a
      negative overflow exactly below that range. */
  function ValueFromRow(st: Strategy, round: RoundFn, src: IntTy, dst: FloatTy, pw: PtrWidth, x: int)
    : (r: Result<Float, ConvError<int>>)
    requires InRange(src, pw, x)
    requires IntToFloatRowSound(st, src, dst, pw)
    ensures Conforms(r, ValueErrorType(st))
    ensures r.Ok? <==> -ExactIntLimit(dst) <= x <= ExactIntLimit(dst)
    ensures r.Ok? ==> r.value == Finite(x as real)
    ensures r.Err? ==> Payload(r.error) == x
    ensures r.Err? ==> (Kind(r.error) == GeneralErrorKind.NegOverflow <==> x < -ExactIntLimit(dst))
  {
    match st
    case Widen => Ok(Finite(CastIntToFloat(round, dst, x)))
    case NarrowToFloat(b) =>
      (match CheckSymmetric(b, x)
       case Ok(v) => Ok(Finite(CastIntToFloat(round, dst, v)))
       case Err(e) => Err(RangeErr(e)))
    case NarrowToFloatUnsigned(b) =>
      (match CheckUpTo(b, x)
       case Ok(v) => Ok(Finite(CastIntToFloat(round, dst, v)))
       case Err(e) => Err(PosErr(e)))
  }

  /** `approx_blind` from an integer to a float: `Ok(x as dst)`, which may
      round once the exactly representable range is left. It never fails. */
  function ApproxFromRow(s: Scheme, st: Strategy, round: RoundFn, src: IntTy, dst: FloatTy, pw: PtrWidth, x: int)
    : (r: Result<Float, ConvError<int>>)
    requires InRange(src, pw, x)
    requires IntToFloatRowSound(st, src, dst, pw)
    requires ApproxOffered(st, s)
    ensures Conforms(r, ApproxErrorType(st, s))
    ensures r.Ok? && r.value.Finite?
    ensures -ExactIntLimit(dst) <= x <= ExactIntLimit(dst) ==> r.value == Finite(x as real)
  {
    Ok(Finite(CastIntToFloat(round, dst, x)))
  }

  /** `dst::value_from(x)` from an integer type to a float type. */
  function IntToFloatValueFrom(round: RoundFn, src: IntTy, dst: FloatTy, pw: PtrWidth, x: int)
    : (r: Result<Float, ConvError<int>>)
    requires InRange(src, pw, x)
    ensures Conforms(r, ValueErrorType(IntToFloatRule(src, dst, pw)))
    ensures r.Ok? <==> -ExactIntLimit(dst) <= x <= ExactIntLimit(dst)
    ensures r.Ok? ==> r.value == Finite(x as real)
    ensures r.Err? ==> Payload(r.error) == x
    ensures r.Err? ==> (Kind(r.error) == GeneralErrorKind.NegOverflow <==> x < -ExactIntLimit(dst))
  {
    IntToFloatRuleSound(src, dst, pw);
    ValueFromRow(IntToFloatRule(src, dst, pw), round, src, dst, pw, x)
  }

  /** `<dst as ApproxFrom<src, s>>::approx_from(x)` from an integer type to
      a float type. */
  function IntToFloatApproxFrom(s: Scheme, round: RoundFn, src: IntTy, dst: FloatTy, pw: PtrWidth, x: int)
    : (r: Result<Float, ConvError<int>>)
    requires InRange(src, pw, x)
    requires ApproxOffered(IntToFloatRule(src, dst, pw), s)
    ensures Conforms(r, ApproxErrorType(IntToFloatRule(src, dst, pw), s))
    ensures r.Ok?
    ensures -ExactIntLimit(dst) <= x <= ExactIntLimit(dst) ==> r.value == Finite(x as real)
  {
    IntToFloatRuleSound(src, dst, pw);
    ApproxFromRow(s, IntToFloatRule(src, dst, pw), round, src, dst, pw, x)
  }

  /** The blind cast agrees with the exact conversion wherever the latter
      succeeds, whatever the rounding of the cast. */
  lemma ApproxAgreesWithValue(s: Scheme, round: RoundFn, src: IntTy, dst: FloatTy, pw: PtrWidth, x: int)
    requires InRange(src, pw, x)
    requires ApproxOffered(IntToFloatRule(src, dst, pw), s)
    requires IntToFloatValueFrom(round, src, dst, pw, x).Ok?
    ensures IntToFloatApproxFrom(s, round, src, dst, pw, x) == IntToFloatValueFrom(round, src, dst, pw, x)
  {
    IntToFloatRuleSound(src, dst, pw);
  }

  /** An unsigned row reports only positive overflow, and a `w` row never
      fails at all. */
  lemma UnsignedRowsOnlyOverflowUp(round: RoundFn, src: IntTy, dst: FloatTy, pw: PtrWidth, x: int)
    requires InRange(src, pw, x)
    ensures !Signed(src) && IntToFloatValueFrom(round, src, dst, pw, x).Err? ==>
      IntToFloatValueFrom(round, src, dst, pw, x).error.PosErr?
    ensures IntToFloatRule(src, dst, pw) == Widen ==> IntToFloatValueFrom(round, src, dst, pw, x).Ok?
  {
    IntToFloatRuleSound(src, dst, pw);
    RangeIsTwosComplement(src, pw);
  }
}
