/** Conversions between the two float formats: f32 to f64 widens exactly
    under every scheme and as a `ValueFrom`; f64 to f32 is offered only as
    `ApproxFrom<f64, DefaultApprox>`, passes non-finite values through, and
    rejects finite values outside the f32 range. */
module FloatFloatConv {
  import opened Wrappers
  import opened NumTypes
  import opened Floats
  import opened Errors

  /** `src as f64` from f32, as every f32-to-f64 impl does: every f32 value
      is an f64 value, so nothing changes and nothing fails. */
  function F32ToF64(f: Float): (r: Result<Float, NoError>)
    ensures r.Ok? && r.value == f
  {
    Ok(f)
  }

  /** `ApproxFrom<f64> for f32`: NaN and the infinities are cast as they
      are; a finite value below `f32::MIN` is a negative overflow, then one
      above `f32::MAX` a positive overflow; anything else is rounded to the
      nearest f32 by the cast. The error carries the input. */
  function F64ToF32(round: RoundFn, f: Float): (r: Result<Float, RangeError<Float>>)
    ensures !f.Finite? ==> r == Ok(f)
    ensures r.Ok? <==> !f.Finite? || -F32Max <= f.r <= F32Max
    ensures r.Err? ==> r.error.value == f
    ensures r.Err? ==> (r.error.NegOverflow? <==> f.r < -F32Max)
    ensures r.Ok? && f.Finite? ==> r.value == Finite(round(F32, f.r))
  {
    if !f.Finite? then Ok(f)
    else if !(-F32Max <= f.r) then Err(RangeError.NegOverflow(f))
    else if !(f.r <= F32Max) then Err(RangeError.PosOverflow(f))
    else Ok(Finite(round(F32, f.r)))
  }

  /** Widening to f64 and narrowing back returns the input. The lemma only
      unfolds the two conversions: that the narrowing cast leaves an f32
      value alone is a property of IEEE rounding, which is not modelled
      (nor which reals are f32 values), so the requires states it. */
  lemma WidenThenNarrow(round: RoundFn, f: Float)
    requires f.Finite? ==> -F32Max <= f.r <= F32Max && round(F32, f.r) == f.r
    ensures F64ToF32(round, F32ToF64(f).value) == Ok(f)
  {
  }
}
