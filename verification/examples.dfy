/** Concrete scenarios: the worked examples of the library's documentation
    and the boundary cases of its tests, each stated about the model. Float
    literals are taken at their decimal value; none of the scenarios
    depends on how an f32 literal rounds. */
module Scenarios {
  import opened Wrappers
  import opened NumTypes
  import opened Schemes
  import opened Floats
  import opened Errors
  import opened Rules
  import opened Saturation
  import opened IntConv
  import opened FloatIntConv
  import opened FloatFloatConv
  import IntFloatConv
  import Conv

  /** `u8::value_from(0u8)` cannot fail, and from `i8` only negative
      values fail. */
  lemma ValueFromI8ToU8(pw: PtrWidth)
    ensures IntValueFrom(U8, U8, pw, 0) == Ok(0)
    ensures ValueErrorType(IntRule(U8, U8, pw)) == NoErrorType
    ensures IntValueFrom(I8, U8, pw, 0) == Ok(0)
    ensures IntValueFrom(I8, U8, pw, -1) == Err(NegErr(NegOverflow.NegOverflow(-1)))
  {
    assert IntRule(I8, U8, pw) == WidenSignedToUnsigned;
  }

  /** From `i16` to `u8` both directions can overflow. */
  lemma ValueFromI16ToU8(pw: PtrWidth)
    ensures IntValueFrom(I16, U8, pw, -1) == Err(RangeErr(RangeError.NegOverflow(-1)))
    ensures IntValueFrom(I16, U8, pw, 0) == Ok(0)
    ensures IntValueFrom(I16, U8, pw, 256) == Err(RangeErr(RangeError.PosOverflow(256)))
  {
    assert IntRule(I16, U8, pw) == NarrowSignedToUnsigned;
  }

  /** `u8::value_from(x: i16).unwrap_or_saturate()` for -1, 0 and 256. */
  lemma UnwrapOrSaturateI16ToU8(pw: PtrWidth)
    ensures UnwrapOrSaturate(IntValueFrom(I16, U8, pw, -1), RangeKindOf<int>, Min(U8, pw), Max(U8, pw)) == 0
    ensures UnwrapOrSaturate(IntValueFrom(I16, U8, pw, 0), RangeKindOf<int>, Min(U8, pw), Max(U8, pw)) == 0
    ensures UnwrapOrSaturate(IntValueFrom(I16, U8, pw, 256), RangeKindOf<int>, Min(U8, pw), Max(U8, pw)) == 255
  {
    assert IntRule(I16, U8, pw) == NarrowSignedToUnsigned;
  }

  /** 400u16 to u8: a positive overflow by default, 144 when wrapping, and
      the same through the helper methods. */
  lemma U16ToU8DefaultAndWrapping(round: RoundFn, pw: PtrWidth)
    ensures IntApproxFrom(DefaultApprox, U16, U8, pw, 400) == Err(PosErr(PosOverflow.PosOverflow(400)))
    ensures IntApproxFrom(Wrapping, U16, U8, pw, 400) == Ok(144)
    ensures Conv.ApproxAs(round, Conv.IntV(400), Int(U16), Int(U8), pw)
      == Err(PosErr(PosOverflow.PosOverflow(Conv.IntV(400))))
    ensures Conv.ApproxAsBy(Wrapping, round, Conv.IntV(400), Int(U16), Int(U8), pw) == Ok(Conv.IntV(144))
  {
    CastUnique(U8, pw, 400, 144);
  }

  /** Wrapping reinterprets the bits: -1i8 is 255u8 and 128u8 is -128i8. */
  lemma WrappingReinterprets(pw: PtrWidth)
    ensures IntApproxFrom(Wrapping, I8, U8, pw, -1) == Ok(255)
    ensures IntApproxFrom(Wrapping, U8, I8, pw, 128) == Ok(-128)
    ensures IntApproxFrom(Wrapping, I64, U32, pw, -2) == Ok(0xFFFF_FFFE)
  {
    CastUnique(U8, pw, -1, 255);
    CastUnique(I8, pw, 128, -128);
    CastUnique(U32, pw, -2, 0xFFFF_FFFE);
  }

  /** `f32::value_from` of 16_777_216i32 succeeds; one more does not. */
  lemma I32ToF32Limit(round: RoundFn, pw: PtrWidth)
    ensures IntFloatConv.IntToFloatValueFrom(round, I32, F32, pw, 16_777_216) == Ok(Finite(16_777_216.0))
    ensures IntFloatConv.IntToFloatValueFrom(round, I32, F32, pw, 16_777_217)
      == Err(RangeErr(RangeError.PosOverflow(16_777_217)))
    ensures IntFloatConv.IntToFloatValueFrom(round, I32, F32, pw, -16_777_217)
      == Err(RangeErr(RangeError.NegOverflow(-16_777_217)))
    ensures IntFloatConv.IntToFloatValueFrom(round, U64, F64, pw, 9_007_199_254_740_993)
      == Err(PosErr(PosOverflow.PosOverflow(9_007_199_254_740_993)))
  {
  }

  /** `DefaultApprox` from f32 to u8 truncates in-range values and rejects
      256.0. */
  lemma F32ToU8Default(pw: PtrWidth)
    ensures FloatToIntApproxFrom(DefaultApprox, F32, U8, pw, Finite(41.0)) == Ok(41)
    ensures FloatToIntApproxFrom(DefaultApprox, F32, U8, pw, Finite(41.3)) == Ok(41)
    ensures FloatToIntApproxFrom(DefaultApprox, F32, U8, pw, Finite(41.5)) == Ok(41)
    ensures FloatToIntApproxFrom(DefaultApprox, F32, U8, pw, Finite(41.8)) == Ok(41)
    ensures FloatToIntApproxFrom(DefaultApprox, F32, U8, pw, Finite(42.0)) == Ok(42)
    ensures FloatToIntApproxFrom(DefaultApprox, F32, U8, pw, Finite(255.0)) == Ok(255)
    ensures FloatToIntApproxFrom(DefaultApprox, F32, U8, pw, Finite(256.0))
      == Err(FloatError.PosOverflow(Finite(256.0)))
  {
  }

  /** Saturating f32 to u8: below the range is 0, above it 255, and NaN is
      still an error. */
  lemma F32ToU8Saturate(pw: PtrWidth)
    ensures SaturateFloat(FloatToIntApproxFrom(DefaultApprox, F32, U8, pw, Finite(-23.0)), Min(U8, pw), Max(U8, pw)) == Ok(0)
    ensures SaturateFloat(FloatToIntApproxFrom(DefaultApprox, F32, U8, pw, Finite(302.0)), Min(U8, pw), Max(U8, pw)) == Ok(255)
    ensures SaturateFloat(FloatToIntApproxFrom(DefaultApprox, F32, U8, pw, NaN), Min(U8, pw), Max(U8, pw)).Err?
  {
  }

  /** The rounding schemes on 8.5 to u8. */
  lemma RoundingPositiveHalf(pw: PtrWidth)
    ensures FloatToIntApproxFrom(DefaultApprox, F32, U8, pw, Finite(8.5)) == Ok(8)
    ensures FloatToIntApproxFrom(RoundToZero, F32, U8, pw, Finite(8.5)) == Ok(8)
    ensures FloatToIntApproxFrom(RoundToNegInf, F32, U8, pw, Finite(8.5)) == Ok(8)
    ensures FloatToIntApproxFrom(RoundToPosInf, F32, U8, pw, Finite(8.5)) == Ok(9)
    ensures FloatToIntApproxFrom(RoundToNearest, F32, U8, pw, Finite(8.5)) == Ok(9)
  {
  }

  /** The rounding schemes on -8.5 to i8. */
  lemma RoundingNegativeHalf(pw: PtrWidth)
    ensures FloatToIntApproxFrom(DefaultApprox, F32, I8, pw, Finite(-8.5)) == Ok(-8)
    ensures FloatToIntApproxFrom(RoundToZero, F32, I8, pw, Finite(-8.5)) == Ok(-8)
    ensures FloatToIntApproxFrom(RoundToNegInf, F32, I8, pw, Finite(-8.5)) == Ok(-9)
    ensures FloatToIntApproxFrom(RoundToPosInf, F32, I8, pw, Finite(-8.5)) == Ok(-8)
    ensures FloatToIntApproxFrom(RoundToNearest, F32, I8, pw, Finite(-8.5)) == Ok(-9)
  {
  }

  /** 255.5 to u8 overflows when rounded up, and also under `DefaultApprox`,
      whose bounds check sees the unrounded value although the final cast
      truncates; to u16, and under the downward schemes, it is 255. So
      `RoundToZero` accepts strictly more than `DefaultApprox`. */
  lemma RoundingAtTheTop(pw: PtrWidth)
    ensures FloatToIntApproxFrom(DefaultApprox, F32, U16, pw, Finite(255.5)) == Ok(255)
    ensures FloatToIntApproxFrom(RoundToZero, F32, U8, pw, Finite(255.5)) == Ok(255)
    ensures FloatToIntApproxFrom(RoundToNegInf, F32, U8, pw, Finite(255.5)) == Ok(255)
    ensures FloatToIntApproxFrom(RoundToPosInf, F32, U8, pw, Finite(255.5))
      == Err(FloatError.PosOverflow(Finite(255.5)))
    ensures FloatToIntApproxFrom(RoundToNearest, F32, U8, pw, Finite(255.5))
      == Err(FloatError.PosOverflow(Finite(255.5)))
    ensures FloatToIntApproxFrom(DefaultApprox, F32, U8, pw, Finite(255.5))
      == Err(FloatError.PosOverflow(Finite(255.5)))
  {
  }

  /** The explicit bounds of the wide rows are accepted exactly, and values
      just beyond them are rejected in the right direction. */
  lemma WideRowBounds(pw: PtrWidth)
    ensures FloatToIntApproxFrom(DefaultApprox, F32, I32, pw, Finite(-2147483648.0)) == Ok(-2147483648)
    ensures FloatToIntApproxFrom(DefaultApprox, F32, I32, pw, Finite(2147483520.0)) == Ok(2147483520)
    ensures FloatToIntApproxFrom(DefaultApprox, F32, I32, pw, Finite(2147500000.0))
      == Err(FloatError.PosOverflow(Finite(2147500000.0)))
    ensures FloatToIntApproxFrom(DefaultApprox, F32, U64, pw, Finite(18446742974197923840.0)) == Ok(18446742974197923840)
    ensures FloatToIntApproxFrom(DefaultApprox, F64, I64, pw, Finite(9223372036854774784.0)) == Ok(9223372036854774784)
    ensures FloatToIntApproxFrom(DefaultApprox, F64, U64, pw, Finite(-1.0))
      == Err(FloatError.NegOverflow(Finite(-1.0)))
    ensures FloatToIntApproxFrom(DefaultApprox, F64, I32, pw, Finite(2147483648.0))
      == Err(FloatError.PosOverflow(Finite(2147483648.0)))
  {
  }

  /** f64 to f32 rejects values just past the f32 range and lets the
      infinities and NaN through. */
  lemma F64ToF32Edges(round: RoundFn)
    ensures F64ToF32(round, Finite(-F32Max - 1e23)) == Err(RangeError.NegOverflow(Finite(-F32Max - 1e23)))
    ensures F64ToF32(round, Finite(F32Max + 1e23)) == Err(RangeError.PosOverflow(Finite(F32Max + 1e23)))
    ensures F64ToF32(round, PosInf) == Ok(PosInf)
    ensures F64ToF32(round, NaN) == Ok(NaN)
  {
  }
}
