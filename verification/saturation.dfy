/** The result post-processors: `saturate`, `unwrap_ok`, `unwrap_or_inf`,
    `unwrap_or_invalid` and `unwrap_or_saturate`. The destination type's
    saturation bounds, signed infinities and invalid sentinel come from
    traits this model does not contain, so they are parameters here. An
    `E: Into<RangeErrorKind>` bound becomes a parameter `toKind`, defined
    on the errors of the result. */
module Saturation {
  import opened Wrappers
  import opened Errors

  /** `Saturate` on `Result<T, FloatError<U>>`: overflows become the
      saturation bounds; only not-a-number remains an error, as
      `Unrepresentable` with the same payload. */
  function SaturateFloat<D, U>(r: Result<D, FloatError<U>>, min: D, max: D): (s: Result<D, Unrepresentable<U>>)
    ensures r.Ok? ==> s == Ok(r.value)
    ensures s.Err? <==> r.Err? && r.error.NotANumber?
    ensures s.Err? ==> s.error.value == r.error.IntoInner()
    ensures r.Err? && r.error.NegOverflow? ==> s == Ok(min)
    ensures r.Err? && r.error.PosOverflow? ==> s == Ok(max)
  {
    match r
    case Ok(v) => Ok(v)
    case Err(NegOverflow(_)) => Ok(min)
    case Err(PosOverflow(_)) => Ok(max)
    case Err(NotANumber(v)) => Err(Unrepresentable.Unrepresentable(v))
  }

  /** `Saturate` on `Result<T, RangeError<U>>`: never an error. */
  function SaturateRange<D, U>(r: Result<D, RangeError<U>>, min: D, max: D): (s: Result<D, NoError>)
    ensures s.Ok?
    ensures r.Ok? ==> s.value == r.value
    ensures r.Err? ==> s.value == (if r.error.NegOverflow? then min else max)
  {
    match r
    case Ok(v) => Ok(v)
    case Err(NegOverflow(_)) => Ok(min)
    case Err(PosOverflow(_)) => Ok(max)
  }

  /** `Saturate` on `Result<T, RangeErrorKind>`: never an error. */
  function SaturateRangeKind<D>(r: Result<D, RangeErrorKind>, min: D, max: D): (s: Result<D, NoError>)
    ensures s.Ok?
    ensures r.Ok? ==> s.value == r.value
    ensures r.Err? ==> s.value == (if r.error.NegOverflow? then min else max)
  {
    match r
    case Ok(v) => Ok(v)
    case Err(NegOverflow) => Ok(min)
    case Err(PosOverflow) => Ok(max)
  }

  /** `unwrap_ok` on `Result<T, NoError>`. `NoError` has no values in the
      library, so such a result is always `Ok`; the requires states that. */
  function UnwrapOk<D>(r: Result<D, NoError>): (v: D)
    requires r.Ok?
    ensures r == Ok(v)
  {
    r.value
  }

  /** `unwrap_or_saturate`: the value, or the saturation bound in the
      direction of the overflow. */
  function UnwrapOrSaturate<D, E>(r: Result<D, E>, toKind: E --> RangeErrorKind, min: D, max: D): (v: D)
    requires r.Err? ==> toKind.requires(r.error)
    ensures r.Ok? ==> v == r.value
    ensures r.Err? && toKind(r.error).NegOverflow? ==> v == min
    ensures r.Err? && toKind(r.error).PosOverflow? ==> v == max
  {
    match r.MapErr(toKind)
    case Ok(v) => v
    case Err(k) => if k.NegOverflow? then min else max
  }

  /** `unwrap_or_inf`: the value, or the infinity in the direction of the
      overflow. */
  function UnwrapOrInf<D, E>(r: Result<D, E>, toKind: E --> RangeErrorKind, negInf: D, posInf: D): (v: D)
    requires r.Err? ==> toKind.requires(r.error)
    ensures r.Ok? ==> v == r.value
    ensures r.Err? && toKind(r.error).NegOverflow? ==> v == negInf
    ensures r.Err? && toKind(r.error).PosOverflow? ==> v == posInf
  {
    match r.MapErr(toKind)
    case Ok(v) => v
    case Err(k) => if k.NegOverflow? then negInf else posInf
  }

  /** `unwrap_or_invalid`: the value, or the sentinel for any error. */
  function UnwrapOrInvalid<D, E>(r: Result<D, E>, sentinel: D): (v: D)
    ensures r.Ok? ==> v == r.value
    ensures r.Err? ==> v == sentinel
  {
    match r
    case Ok(v) => v
    case Err(_) => sentinel
  }

  /** On range errors, saturating and then unwrapping is the same as
      `unwrap_or_saturate`, and saturating the payload-free form of the
      result agrees with saturating the result itself. */
  lemma SaturateAgreesWithUnwrapOrSaturate<D, U>(r: Result<D, RangeError<U>>, min: D, max: D)
    ensures UnwrapOk(SaturateRange(r, min, max)) == UnwrapOrSaturate(r, RangeKindFromRange, min, max)
    ensures SaturateRangeKind(r.MapErr(RangeKindFromRange), min, max) == SaturateRange(r, min, max)
  {
  }

  /** Widening a range error to a float error before saturating changes
      nothing: no error is left over. */
  lemma SaturateFloatOfRange<D, U>(r: Result<D, RangeError<U>>, min: D, max: D)
    ensures SaturateFloat(r.MapErr(FloatFromRange), min, max) == Ok(SaturateRange(r, min, max).value)
  {
  }
}
