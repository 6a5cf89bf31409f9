# conv2 checked numeric conversions, modelled in Dafny

This project models the conversion engine of the Rust crate `conv2`. The
crate offers two kinds of conversion between the primitive numeric types
(`i8` … `i64`, `isize`, `u8` … `u64`, `usize`, `f32`, `f64`):

- `ValueFrom`: exact conversions, which fail rather than change the number.
- `ApproxFrom<_, Scheme>`: approximate conversions under an approximation
  scheme: `DefaultApprox`, `Wrapping`, `RoundToNearest`, `RoundToNegInf`,
  `RoundToPosInf` or `RoundToZero`.

A table tags every (source, destination) pair with a checking strategy.
The strategies are:

- `e`, `w`: cannot fail;
- `w+`: fails only on negative input;
- `n-`: fails only above the destination maximum;
- `n+`: fails below zero or above the destination maximum;
- `n`: checks both destination bounds;
- `nf`: integer to float, exact only within ±2^24 or ±2^53;
- `fan`: float to integer. NaN is rejected first, then the scheme's
  rounding of the input is checked against the row's bounds.

A failure is a typed error carrying the original input:

- `NegOverflow` and `PosOverflow`;
- `RangeError`, `FloatError` and `GeneralError`;
- the payload-free `RangeErrorKind` and `GeneralErrorKind`.

The errors widen losslessly into one another. Results can be
post-processed by `saturate`, `unwrap_ok`, `unwrap_or_saturate`,
`unwrap_or_inf` and `unwrap_or_invalid`.

Files, one module each:

- `num_types.dfy`: integer types, their bounds and the pointer width.
- `schemes.dfy`: the six scheme tags.
- `twos_complement.dfy`: a bit-level definition of the integer `as` cast,
  proved equal to the arithmetic one.
- `floats.dfy`: an abstract IEEE value `NaN | NegInf | PosInf | Finite(real)`
  and the rounding operations `floor`, `ceil`, `trunc` and `round`.
- `errors.dfy`: the error taxonomy, its widenings, and a tagged union of
  the declared error types.
- `saturation.dfy`: the result post-processors.
- `rules.dfy`: the strategy table for every pair, which schemes each pair
  offers, the declared error types, and the range facts that make each
  row's checks sufficient.
- `int_conv.dfy`, `int_float_conv.dfy`, `float_int_conv.dfy`,
  `float_float_conv.dfy`: the strategies and the conversions they make up.
- `conv.dfy`: conversion between any two primitive types, the blanket
  identity impls, the `*Into` duals and the helper methods.
- `examples.dfy`: the documentation examples and the tests' boundary cases.

Modelling choices:

- Integers are unbounded `int` values constrained by `InRange`.
- An integer `as` cast is two's-complement reinterpretation (`Cast`).
- The pointer width is a parameter, so both `#[32]` and `#[64]` rows are
  modelled.
- Float-to-integer bounds are the values the row literals take in the
  source float type. For example, `2.1474835e9` becomes 2147483520 as an
  f32.
- Rounding a real to a float format, as an `as` cast into f32 or f64
  does, is an abstract parameter `round`.

`DefaultApprox` from float to integer does not round before its bounds
check. Its approximation step is the identity (src/impls.rs:96, 110, 329),
and the final `to_int_unchecked` truncates. So 255.5 to u8 is
`PosOverflow(255.5)`, although truncation would give 255. The crate's
documentation says the default float-to-integer approximation does
"whatever `as` would do" (src/lib.rs:162-163), which is truncation. Its
own test comment calls the bounds check on the unrounded value a bug to
fix (tests/lang_floats.rs:85-90). The model follows the code:

- `FloatIntConv.DefaultAcceptedByRoundToZero` proves that `RoundToZero`
  accepts everything `DefaultApprox` accepts, with the same result.
- `Scenarios.RoundingAtTheTop` shows 255.5 as the input where the two
  differ.

## Model

| member | source | states |
|---|---|---|
| Errors.FloatError.IntoInner | src/errors.rs:232-240 | the result is the payload of whichever variant the error is |
| Errors.GeneralError.IntoInner | src/errors.rs:29-38 | the result is the payload of whichever variant the error is |
| Errors.RangeFromNeg | src/errors.rs:288-292 | a negative overflow widens to `RangeError::NegOverflow` with the same payload |
| Errors.RangeFromPos | src/errors.rs:294-298 | a positive overflow widens to `RangeError::PosOverflow` with the same payload |
| Errors.FloatFromNeg | src/errors.rs:249-253 | a negative overflow widens to `FloatError::NegOverflow`, payload kept |
| Errors.FloatFromPos | src/errors.rs:255-259 | a positive overflow widens to `FloatError::PosOverflow`, payload kept |
| Errors.FloatFromRange | src/errors.rs:261-268 | direction and payload kept; never `NotANumber` |
| Errors.GeneralFromUnrepresentable | src/errors.rs:46-50 | becomes `Unrepresentable` with the same payload |
| Errors.GeneralFromNeg | src/errors.rs:52-56 | becomes `GeneralError::NegOverflow`, payload kept |
| Errors.GeneralFromPos | src/errors.rs:58-62 | becomes `GeneralError::PosOverflow`, payload kept |
| Errors.GeneralFromRange | src/errors.rs:64-71 | direction and payload kept; never `Unrepresentable` |
| Errors.GeneralFromFloat | src/errors.rs:73-83 | overflows keep their direction, `NotANumber` becomes `Unrepresentable`, payload kept |
| Errors.RangeKindFromNeg | src/errors.rs:323-327 | the kind of a negative overflow is `NegOverflow` |
| Errors.RangeKindFromPos | src/errors.rs:329-333 | the kind of a positive overflow is `PosOverflow` |
| Errors.RangeKindFromRange | src/errors.rs:335-342 | the kind is `NegOverflow` exactly for negative overflows |
| Errors.GeneralKindFromUnrepresentable | src/errors.rs:111-115 | the kind is `Unrepresentable` |
| Errors.GeneralKindFromNeg | src/errors.rs:117-121 | the kind is `NegOverflow` |
| Errors.GeneralKindFromPos | src/errors.rs:123-127 | the kind is `PosOverflow` |
| Errors.GeneralKindFromRangeKind | src/errors.rs:129-135 | direction kept, never `Unrepresentable` |
| Errors.GeneralKindFromRange | src/errors.rs:137-143 | direction kept, never `Unrepresentable` |
| Errors.GeneralKindFromGeneral | src/errors.rs:145-153 | each variant maps to its own kind |
| Errors.GeneralKindFromFloat | src/errors.rs:155-165 | overflows keep their direction, `NotANumber` is `Unrepresentable` |
| Errors.WideningCommutes | src/errors.rs:52-83 | widening through `RangeError` or `FloatError` gives the same result as widening directly |
| Errors.KindsAgree | src/errors.rs:111-165 | the kind of a widened error equals the kind the original converts to directly, including via `RangeErrorKind` |
| Errors.WideningsAreInjective | src/errors.rs:64-83 | distinct errors widen to distinct errors: widening is lossless |
| Errors.GeneralErrorDeterminedByKindAndPayload | src/errors.rs:15-38 | a general error is exactly its kind plus the payload `into_inner` returns |
| Errors.Generalize | src/errors.rs:52-83 | only a `FloatError` can widen to `Unrepresentable` |
| Errors.RangeKindOf | src/errors.rs:323-342 | the `RangeErrorKind` of an error agrees with its general kind: the direction of the overflow |
| Saturation.SaturateFloat | src/errors.rs:359-374 | `Ok` passes through; negative and positive overflow become `Ok(min)` and `Ok(max)`; only NaN stays an error, as `Unrepresentable` with the same payload |
| Saturation.SaturateRange | src/errors.rs:376-390 | never an error; overflow picks the bound in its direction |
| Saturation.SaturateRangeKind | src/errors.rs:392-406 | never an error; overflow picks the bound in its direction |
| Saturation.UnwrapOk | src/errors.rs:417-424 | the value of an `Ok` result, which is the only kind a `NoError` result can be |
| Saturation.UnwrapOrSaturate | src/errors.rs:485-499 | the value, or min or max by the overflow direction of the error's `RangeErrorKind` |
| Saturation.UnwrapOrInf | src/errors.rs:456-470 | the value, or minus or plus infinity by the overflow direction |
| Saturation.UnwrapOrInvalid | src/errors.rs:472-483 | the value, or the sentinel for any error |
| Saturation.SaturateAgreesWithUnwrapOrSaturate | src/errors.rs:376-406 | `saturate().unwrap_ok()` equals `unwrap_or_saturate()` on range errors, and saturating the kind-only result agrees |
| Saturation.SaturateFloatOfRange | src/errors.rs:359-390 | widening a range error to a float error before saturating leaves no error |
| Floats.Approximate | src/impls.rs:325-355 | each scheme's approximation: identity for the default; otherwise an integer within 1 of the input, below it for `floor`, above it for `ceil`, between it and zero for `trunc`, within one half for `round` with halfway cases away from zero; non-finite values unchanged |
| Rules.IntRule | src/impls.rs:362-384 | the integer table, per pointer width: every pair has `value_from`, `DefaultApprox` and `Wrapping`; only a type to itself is the identity; unsigned sources are never checked from below, signed sources into unsigned types always are |
| Rules.IntToFloatRule | src/impls.rs:430-445 | the integer-to-float table: `w` exactly when the source maximum is exactly representable, otherwise `nf` with the format's limit of exact integers, two-sided for signed sources and upper for unsigned |
| Rules.FloatToIntRule | src/impls.rs:447-475 | the float-to-integer table: every row is `fan`, its lower bound the destination minimum and its upper bound at most the destination maximum, equal to it when that maximum is exactly representable |
| Rules.ValueErrorType | src/impls.rs:158-323 | the `type Err` of each `value_from` arm: it can express exactly the overflow directions the arm checks, and is never `FloatError` |
| Rules.ApproxErrorType | src/impls.rs:1-135 | the `type Err` of each `approx_from` impl: `NoError` under `Wrapping`, the `value_from` type for integer `DefaultApprox`, and `FloatError` exactly for float to integer |
| Rules.IntRuleSound | src/impls.rs:362-384 | every integer row is sound: `e`/`w` ranges contain the source range; `w+`, `n-`, `n+` can fail only where they check, and every bound they cast into the source type fits in it |
| Rules.IntToFloatRuleSound | src/impls.rs:430-445 | `nf` bounds are 2^24 for f32 and 2^53 for f64; the source can exceed them; `w` rows lie within them; unsigned rows start at 0 |
| Rules.FloatToIntRuleSound | src/impls.rs:447-475 | every `fan` row's bounds lie inside the destination range and contain 0; unsigned rows start at 0 |
| IntConv.Cast | src/impls.rs:1-14 | `as` keeps the value when it fits; otherwise it gives the destination value congruent modulo 2^bits |
| IntConv.CastUnique | src/impls.rs:1-14 | the cast is the only destination value congruent to the input |
| IntConv.CastUniqueBy | src/impls.rs:1-14 | a destination value differing from the input by a multiple of the modulus is the cast |
| TwosComplement.LowBitsSplit | src/impls.rs:1-14 | an integer is its low n bits, read unsigned, plus 2^n times the bits above them |
| TwosComplement.SignedReading | src/impls.rs:1-14 | a cast into a signed type reads the low bits with the top bit weighing -2^(n-1) |
| TwosComplement.CastKeepsLowBits | tests/util/mod.rs:471-488 | `x as T` equals the low `Bits(T)` bits of x read back in T's signedness: truncation, sign or zero extension, and same-width reinterpretation |
| IntConv.CheckZeroUp | src/impls.rs:76-92 | `w+`: succeeds with the input exactly when it fits; fails only below zero, carrying the input |
| IntConv.CheckToMax | src/impls.rs:36-53 | `n-`: succeeds exactly when the input fits; fails only above the destination maximum |
| IntConv.CheckZeroToMax | src/impls.rs:16-34 | `n+`: succeeds exactly when the input fits; `NegOverflow` exactly below the destination minimum, else `PosOverflow`, with the input as payload |
| IntConv.CheckMinToMax | src/impls.rs:55-74 | `n`: succeeds exactly when the input fits; `NegOverflow` exactly below the destination minimum, else `PosOverflow`, with the input as payload |
| IntConv.ValueFromRow | src/impls.rs:158-281 | for any sound row: `Ok(x)` exactly when x fits the destination; else an error of the declared type carrying x, negative exactly below the minimum |
| IntConv.ApproxFromRow | src/impls.rs:158-281 | the declared error type holds; `Wrapping` always succeeds with the congruent destination value |
| IntConv.IntValueFrom | src/impls.rs:362-384 | integer `value_from` of every pair: exact success or an input-carrying error of the row's declared type |
| IntConv.IntApproxFrom | src/impls.rs:362-384 | integer `approx_from`: declared error type, and `Wrapping` is total and modular |
| IntConv.DefaultApproxIsValueFrom | src/impls.rs:175-263 | between integers `DefaultApprox` gives exactly what `ValueFrom` gives |
| IntConv.WideningNeverFails | src/impls.rs:158-173 | on `e`/`w` rows `ValueFrom`, `DefaultApprox` and `Wrapping` all return `Ok(x)` |
| IntConv.WrappingAgreesWhenInRange | src/impls.rs:1-14 | `Wrapping` is `Ok(x as dst)`, and equals the checked result whenever x fits |
| IntFloatConv.CheckSymmetric | src/impls.rs:283-304 | `nf [+- b]`: `NegOverflow` exactly below -b, else `PosOverflow` above b, else `Ok`, payload the input |
| IntFloatConv.CheckUpTo | src/impls.rs:306-323 | `nf [, b]`: only `PosOverflow`, exactly above b |
| IntFloatConv.ValueFromRow | src/impls.rs:266-323 | for a sound integer-to-float row: `Ok` exactly within ±2^mantissa, with the same number; errors carry the input |
| IntFloatConv.ApproxFromRow | src/impls.rs:1-14 | the blind cast never fails and is exact within the representable range |
| IntFloatConv.IntToFloatValueFrom | src/impls.rs:430-445 | integer-to-float `value_from` for every pair: exact within the contiguous range, else an input-carrying error of the declared type, negative exactly below the range |
| IntFloatConv.IntToFloatApproxFrom | src/impls.rs:430-445 | integer-to-float `approx_from` never fails, and is exact within the contiguous range of the destination format |
| IntFloatConv.ApproxAgreesWithValue | src/impls.rs:283-323 | the blind cast equals the exact conversion wherever the latter succeeds |
| IntFloatConv.UnsignedRowsOnlyOverflowUp | src/impls.rs:306-323 | unsigned sources fail only with `PosOverflow`; `w` rows never fail |
| FloatIntConv.RangeNoNaN | src/impls.rs:108-135 | NaN gives `NotANumber` and nothing else does; `NegOverflow` exactly for -inf or a rounded value below lo; `Ok` exactly when the rounded value is in [lo, hi]; the result is the scheme's rounding (truncation for the default) and lies in [lo, hi]; errors carry the original input |
| FloatIntConv.TruncWithin | src/impls.rs:130 | truncating a value inside integer bounds stays inside them |
| FloatIntConv.FloatToIntApproxFrom | src/impls.rs:447-475 | for every pair and scheme: success exactly when the input is finite and its approximation lies within the row's bounds, with the truncated approximation as the value, which fits the destination type, so the unchecked cast is safe; NaN gives `NotANumber`; `NegOverflow` exactly for -inf or an approximation below the lower bound; errors carry the input |
| FloatIntConv.DefaultAcceptedByRoundToZero | src/impls.rs:325-355 | whatever `DefaultApprox` accepts, `RoundToZero` accepts with the same result |
| FloatIntConv.SaturatedConversionTotal | src/errors.rs:359-374 | after `saturate` only NaN is an error, the value fits the destination, and accepted inputs keep their value |
| FloatIntConv.ApproximateMonotone | src/impls.rs:330-337 | each scheme's rounding is monotone |
| FloatIntConv.SaturatedConversionMonotone | src/errors.rs:359-374 | saturated float-to-integer conversion is monotone in its input |
| FloatFloatConv.F32ToF64 | src/impls.rs:391-409 | f32 to f64 always succeeds with the same value |
| FloatFloatConv.F64ToF32 | src/impls.rs:411-427 | non-finite values pass through; finite values fail exactly outside ±f32::MAX, negative exactly below; errors carry the input |
| FloatFloatConv.WidenThenNarrow | src/impls.rs:386-428 | an f32 value widened to f64 narrows back to itself, given that the narrowing cast leaves it alone |
| Conv.ValueFrom | src/lib.rs:376-389 | any `value_from`: declared error type; a success is the same number in the destination type; errors carry the input; a type to itself is `Ok(v)` |
| Conv.ApproxFrom | src/lib.rs:276-295 | any `approx_from`: declared error type; a success is a destination value; errors carry the input; a type to itself is `Ok(v)` under every scheme |
| Conv.ValueInto | src/lib.rs:403-411 | `value_into` has the declared error type and is exact on success |
| Conv.ApproxInto | src/lib.rs:312-321 | `approx_into` has the declared error type and yields a destination value |
| Conv.ApproxAs | src/lib.rs:427-433 | `approx_as` has the error type of the `DefaultApprox` impl |
| Conv.ApproxAsBy | src/lib.rs:435-441 | `approx_as_by` has the error type of the chosen scheme's impl |
| Conv.ValueAs | src/lib.rs:460-466 | `value_as` has the error type of the `ValueFrom` impl |
| Conv.Approx | src/lib.rs:486-492 | `approx` has the error type of the `DefaultApprox` impl |
| Conv.ApproxBy | src/lib.rs:494-501 | `approx_by` has the error type of the chosen scheme's impl |
| Conv.HelpersDelegate | src/lib.rs:425-501 | every `*Into` and helper returns exactly what the corresponding `*From` returns |
| Conv.IdentityConversions | src/lib.rs:287-295 | a type to itself is offered under `ValueFrom` and every scheme, declares `NoError`, and returns `Ok(v)` |
| Conv.InfallibleConversionsSucceed | src/errors.rs:417-424 | a conversion declaring `NoError` always succeeds, so `unwrap_ok` applies |
| Scenarios.ValueFromI8ToU8 | src/lib.rs:119-123 | 0u8 to u8 cannot fail; 0i8 is `Ok(0)`; -1i8 is `NegOverflow(-1)` |
| Scenarios.ValueFromI16ToU8 | src/lib.rs:125-128 | from i16: -1 is `RangeError::NegOverflow(-1)`, 0 is `Ok(0)`, 256 is `RangeError::PosOverflow(256)` |
| Scenarios.UnwrapOrSaturateI16ToU8 | src/lib.rs:130-133 | `u8::value_from` of -1, 0 and 256 from i16, then `unwrap_or_saturate`, gives 0, 0 and 255 |
| Scenarios.U16ToU8DefaultAndWrapping | src/lib.rs:135-150 | 400u16 to u8 is `PosOverflow(400)` by default and `Ok(144)` wrapping, through `approx_as`/`approx_as_by` too |
| Scenarios.WrappingReinterprets | tests/util/mod.rs:471-488 | wrapping equals `as`: -1i8 is 255u8, 128u8 is -128i8, -2i64 is 0xFFFF_FFFE as u32 |
| Scenarios.I32ToF32Limit | src/lib.rs:152-156 | 16_777_216 converts to f32; 16_777_217 is `PosOverflow`; -16_777_217 is `NegOverflow`; 2^53+1 from u64 to f64 is `PosOverflow` |
| Scenarios.F32ToU8Default | src/lib.rs:164-171 | 41.0, 41.3, 41.5 and 41.8 give 41; 42.0 gives 42; 255.0 gives 255; 256.0 is `PosOverflow(256.0)` |
| Scenarios.F32ToU8Saturate | src/lib.rs:173-178 | saturating: -23.0 gives 0, 302.0 gives 255, NaN stays an error |
| Scenarios.RoundingPositiveHalf | tests/lang_floats.rs:67-74 | 8.5 to u8: 8 by default, toward zero and down; 9 up and to nearest |
| Scenarios.RoundingNegativeHalf | tests/lang_floats.rs:76-80 | -8.5 to i8: -8 by default, toward zero and up; -9 down and to nearest |
| Scenarios.RoundingAtTheTop | tests/lang_floats.rs:82-100 | 255.5: 255 to u16 by default and to u8 toward zero or down; `PosOverflow(255.5)` to u8 up, to nearest, and by default |
| Scenarios.WideRowBounds | tests/lang_floats.rs:16-50 | the explicit row bounds convert exactly; values past them overflow in their direction |
| Scenarios.F64ToF32Edges | tests/lang_floats.rs:53-64 | just past ±f32::MAX overflows in its direction; infinities and NaN pass through |

## Left out

- Bit-level IEEE-754 behaviour. Floats are exact reals, and the rounding
  of an `as` cast into f32 or f64 is an abstract parameter. This covers
  integer-to-float `DefaultApprox` beyond the exact range and f64-to-f32
  rounding. The row bounds are written as the integers their literals
  round to in the source float type.
- IntFloatConv.IntToFloatApproxFrom: states that the blind cast
  succeeds and is exact inside the contiguous range. What it returns
  outside that range depends on IEEE rounding, which is not modelled.
- FloatFloatConv.WidenThenNarrow: assumes, in its requires, that the
  narrowing cast leaves the value alone. Which reals are f32 values is
  not modelled, so this IEEE fact cannot be derived.
- FloatFloatConv.F64ToF32: the value of a successful narrowing is the
  abstract rounding of the input. Nothing is proved about how close it is.
- Float values are not constrained to the values of their format. An
  `f32` input may be any real; no scenario depends on this.
- `NoError` has no values in the library. Dafny has no empty datatypes, so
  it is a one-constructor placeholder that no member builds.
- The `From<NoError>` impls for every error type are left out, because
  they can never be called. `unwrap_ok` requires an `Ok` result instead.
- `Saturated`, `SignedInfinity` and `InvalidSentinel` come from
  src/misc.rs, which is not part of this model. The saturation bounds, the
  infinities and the sentinel are parameters of the post-processors.
- The `E: Into<RangeErrorKind>` bound of `unwrap_or_saturate` and
  `unwrap_or_inf` is a partial function parameter, required to be defined
  on the result's error; `Errors.RangeKindOf` is the crate's instance.
- The macro machinery is replaced by one function per strategy and a
  table lookup. This covers `as_item`, `item_for_each`, the `num_conv`
  dispatch arms and the unused `aW` arm.
- The `Display`/`thiserror` messages and the `std::error::Error` impls are
  left out; they carry no conversion logic.
- `into_as` and `try_as` are left out. They wrap the standard `Into` and
  `TryInto` traits, which are not part of the crate.
- src/limits.rs, the offline bound-search tool and the benchmarks are not
  part of the conversion engine.
- `cfg(target_pointer_width)` is a parameter of every conversion, not a
  build-time choice.
