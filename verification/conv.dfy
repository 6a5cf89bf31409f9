/** The conversion traits over every pair of primitive numeric types:
    `ValueFrom` and `ApproxFrom` dispatched on the pair's rule, the blanket
    identity impls, the `ValueInto`/`ApproxInto` duals, and the
    `ConvUtil`/`ConvAsUtil` helper methods. A value of any primitive type
    is a `Value`; an error carries the input as a `Value`. */
module Conv {
  import opened Wrappers
  import opened NumTypes
  import opened Schemes
  import opened Floats
  import opened Errors
  import opened Rules
  import IntConv
  import IntFloatConv
  import FloatIntConv
  import FloatFloatConv

  datatype Value = IntV(i: int) | FloatV(f: Float)

  /** `v` is a value of the primitive type `t`. */
  predicate ValidFor(t: NumTy, pw: PtrWidth, v: Value) {
    match t
    case Int(it) => v.IntV? && InRange(it, pw, v.i)
    case Float(_) => v.FloatV?
  }

  /** The number a value denotes, as a float value of unbounded precision. */
  function NumberOf(v: Value): Float {
    match v
    case IntV(i) => Finite(i as real)
    case FloatV(f) => f
  }

  function LiftInt(r: Result<int, ConvError<int>>): (l: Result<Value, ConvError<Value>>)
    ensures l.Ok? <==> r.Ok?
    ensures l.Ok? ==> l.value == IntV(r.value)
    ensures l.Err? ==> TypeOf(l.error) == TypeOf(r.error) && Payload(l.error) == IntV(Payload(r.error))
  {
    match r
    case Ok(x) => Ok(IntV(x))
    case Err(e) => Err(MapPayload(e, x => IntV(x)))
  }

  function LiftFloat<T>(r: Result<Float, ConvError<T>>, inject: T -> Value): (l: Result<Value, ConvError<Value>>)
    ensures l.Ok? <==> r.Ok?
    ensures l.Ok? ==> l.value == FloatV(r.value)
    ensures l.Err? ==> TypeOf(l.error) == TypeOf(r.error) && Payload(l.error) == inject(Payload(r.error))
  {
    match r
    case Ok(f) => Ok(FloatV(f))
    case Err(e) => Err(MapPayload(e, inject))
  }

  /** `Dst::value_from(v)` for the pair `(src, dst)`: a success is the same
      number in the destination type, an error carries the input, and the
      error is of the type the impl declares. A type converts to itself
      unchanged. */
  function ValueFrom(round: RoundFn, src: NumTy, dst: NumTy, pw: PtrWidth, v: Value): (r: Result<Value, ConvError<Value>>)
    requires ValidFor(src, pw, v)
    requires ValueOffered(RuleFor(src, dst, pw))
    ensures Conforms(r, ValueErrorType(RuleFor(src, dst, pw)))
    ensures r.Ok? ==> ValidFor(dst, pw, r.value) && NumberOf(r.value) == NumberOf(v)
    ensures r.Err? ==> Payload(r.error) == v
    ensures src == dst ==> r == Ok(v)
  {
    match (src, dst)
    case (Int(s), Int(d)) =>
      IntRuleSound(s, d, pw);
      LiftInt(IntConv.IntValueFrom(s, d, pw, v.i))
    case (Int(s), Float(d)) =>
      LiftFloat(IntFloatConv.IntToFloatValueFrom(round, s, d, pw, v.i), x => IntV(x))
    case (Float(s), Float(d)) =>
      (match FloatRule(s, d)
       case Identity => Ok(v)
       case FloatWiden => Ok(FloatV(FloatFloatConv.F32ToF64(v.f).value)))
  }

  /** `<Dst as ApproxFrom<Src, s>>::approx_from(v)` for the pair
      `(src, dst)`: an error carries the input and is of the declared type,
      a success is a value of the destination type, and a type converts to
      itself unchanged under every scheme. */
  function ApproxFrom(s: Scheme, round: RoundFn, src: NumTy, dst: NumTy, pw: PtrWidth, v: Value)
    : (r: Result<Value, ConvError<Value>>)
    requires ValidFor(src, pw, v)
    requires ApproxOffered(RuleFor(src, dst, pw), s)
    ensures Conforms(r, ApproxErrorType(RuleFor(src, dst, pw), s))
    ensures r.Ok? ==> ValidFor(dst, pw, r.value)
    ensures r.Err? ==> Payload(r.error) == v
    ensures src == dst ==> r == Ok(v)
  {
    match (src, dst)
    case (Int(s'), Int(d)) =>
      IntRuleSound(s', d, pw);
      LiftInt(IntConv.IntApproxFrom(s, s', d, pw, v.i))
    case (Int(s'), Float(d)) =>
      LiftFloat(IntFloatConv.IntToFloatApproxFrom(s, round, s', d, pw, v.i), x => IntV(x))
    case (Float(s'), Int(d)) =>
      (match FloatIntConv.FloatToIntApproxFrom(s, s', d, pw, v.f)
       case Ok(x) => Ok(IntV(x))
       case Err(e) => Err(MapPayload(FloatErr(e), x => FloatV(x))))
    case (Float(s'), Float(d)) =>
      (match FloatRule(s', d)
       case Identity => Ok(v)
       case FloatWiden => Ok(FloatV(FloatFloatConv.F32ToF64(v.f).value))
       case FloatNarrow =>
         LiftFloat(FloatFloatConv.F64ToF32(round, v.f).MapErr(e => RangeErr(e)), x => FloatV(x)))
  }

  /* ---------------- the duals and the helper methods ---------------- */

  /** `v.value_into()`: the `ValueInto` dual, implemented for every pair
      with a `ValueFrom` impl. */
  function ValueInto(round: RoundFn, v: Value, src: NumTy, dst: NumTy, pw: PtrWidth): (r: Result<Value, ConvError<Value>>)
    requires ValidFor(src, pw, v)
    requires ValueOffered(RuleFor(src, dst, pw))
    ensures Conforms(r, ValueErrorType(RuleFor(src, dst, pw)))
    ensures r.Ok? ==> NumberOf(r.value) == NumberOf(v)
  {
    ValueFrom(round, src, dst, pw, v)
  }

  /** `v.approx_into()` under scheme `s`: the `ApproxInto` dual. */
  function ApproxInto(s: Scheme, round: RoundFn, v: Value, src: NumTy, dst: NumTy, pw: PtrWidth)
    : (r: Result<Value, ConvError<Value>>)
    requires ValidFor(src, pw, v)
    requires ApproxOffered(RuleFor(src, dst, pw), s)
    ensures Conforms(r, ApproxErrorType(RuleFor(src, dst, pw), s))
    ensures r.Ok? ==> ValidFor(dst, pw, r.value)
  {
    ApproxFrom(s, round, src, dst, pw, v)
  }

  /** `v.approx_as::<Dst>()`: `approx_into` under `DefaultApprox`. */
  function ApproxAs(round: RoundFn, v: Value, src: NumTy, dst: NumTy, pw: PtrWidth): (r: Result<Value, ConvError<Value>>)
    requires ValidFor(src, pw, v)
    requires ApproxOffered(RuleFor(src, dst, pw), DefaultApprox)
    ensures Conforms(r, ApproxErrorType(RuleFor(src, dst, pw), DefaultApprox))
  {
    ApproxInto(DefaultApprox, round, v, src, dst, pw)
  }

  /** `v.approx_as_by::<Dst, S>()`: `approx_into` under scheme `s`. */
  function ApproxAsBy(s: Scheme, round: RoundFn, v: Value, src: NumTy, dst: NumTy, pw: PtrWidth)
    : (r: Result<Value, ConvError<Value>>)
    requires ValidFor(src, pw, v)
    requires ApproxOffered(RuleFor(src, dst, pw), s)
    ensures Conforms(r, ApproxErrorType(RuleFor(src, dst, pw), s))
  {
    ApproxInto(s, round, v, src, dst, pw)
  }

  /** `v.value_as::<Dst>()`: `value_into`. */
  function ValueAs(round: RoundFn, v: Value, src: NumTy, dst: NumTy, pw: PtrWidth): (r: Result<Value, ConvError<Value>>)
    requires ValidFor(src, pw, v)
    requires ValueOffered(RuleFor(src, dst, pw))
    ensures Conforms(r, ValueErrorType(RuleFor(src, dst, pw)))
  {
    ValueInto(round, v, src, dst, pw)
  }

  /** `v.approx()` with the destination type inferred: `approx_into` under
      `DefaultApprox`. */
  function Approx(round: RoundFn, v: Value, src: NumTy, dst: NumTy, pw: PtrWidth): (r: Result<Value, ConvError<Value>>)
    requires ValidFor(src, pw, v)
    requires ApproxOffered(RuleFor(src, dst, pw), DefaultApprox)
    ensures Conforms(r, ApproxErrorType(RuleFor(src, dst, pw), DefaultApprox))
  {
    ApproxInto(DefaultApprox, round, v, src, dst, pw)
  }

  /** `v.approx_by::<S>()` with the destination type inferred:
      `approx_into` under scheme `s`. */
  function ApproxBy(s: Scheme, round: RoundFn, v: Value, src: NumTy, dst: NumTy, pw: PtrWidth)
    : (r: Result<Value, ConvError<Value>>)
    requires ValidFor(src, pw, v)
    requires ApproxOffered(RuleFor(src, dst, pw), s)
    ensures Conforms(r, ApproxErrorType(RuleFor(src, dst, pw), s))
  {
    ApproxInto(s, round, v, src, dst, pw)
  }

  /* ---------------- what the traits promise ---------------- */

  /** Every helper returns exactly what the corresponding `*From`
      conversion returns. */
  lemma HelpersDelegate(s: Scheme, round: RoundFn, v: Value, src: NumTy, dst: NumTy, pw: PtrWidth)
    requires ValidFor(src, pw, v)
    ensures ValueOffered(RuleFor(src, dst, pw)) ==>
      && ValueInto(round, v, src, dst, pw) == ValueFrom(round, src, dst, pw, v)
      && ValueAs(round, v, src, dst, pw) == ValueFrom(round, src, dst, pw, v)
    ensures ApproxOffered(RuleFor(src, dst, pw), s) ==>
      && ApproxInto(s, round, v, src, dst, pw) == ApproxFrom(s, round, src, dst, pw, v)
      && ApproxAsBy(s, round, v, src, dst, pw) == ApproxFrom(s, round, src, dst, pw, v)
      && ApproxBy(s, round, v, src, dst, pw) == ApproxFrom(s, round, src, dst, pw, v)
    ensures ApproxOffered(RuleFor(src, dst, pw), DefaultApprox) ==>
      && ApproxAs(round, v, src, dst, pw) == ApproxFrom(DefaultApprox, round, src, dst, pw, v)
      && Approx(round, v, src, dst, pw) == ApproxFrom(DefaultApprox, round, src, dst, pw, v)
  {
  }

  /** A type converts to itself with the blanket impls: offered under
      `ValueFrom` and every scheme, declared infallible, and `Ok(v)`. */
  lemma IdentityConversions(s: Scheme, round: RoundFn, t: NumTy, pw: PtrWidth, v: Value)
    requires ValidFor(t, pw, v)
    ensures ValueOffered(RuleFor(t, t, pw)) && ApproxOffered(RuleFor(t, t, pw), s)
    ensures ValueErrorType(RuleFor(t, t, pw)) == NoErrorType
    ensures ApproxErrorType(RuleFor(t, t, pw), s) == NoErrorType
    ensures ValueFrom(round, t, t, pw, v) == Ok(v)
    ensures ApproxFrom(s, round, t, t, pw, v) == Ok(v)
  {
    match t
    case Int(it) => IntRuleSound(it, it, pw);
    case Float(ft) =>
  }

  /** A conversion whose impl declares `NoError` always succeeds, so
      `unwrap_ok` applies to it. */
  lemma InfallibleConversionsSucceed(s: Scheme, round: RoundFn, src: NumTy, dst: NumTy, pw: PtrWidth, v: Value)
    requires ValidFor(src, pw, v)
    ensures ValueOffered(RuleFor(src, dst, pw)) && ValueErrorType(RuleFor(src, dst, pw)) == NoErrorType ==>
      ValueFrom(round, src, dst, pw, v).Ok?
    ensures ApproxOffered(RuleFor(src, dst, pw), s) && ApproxErrorType(RuleFor(src, dst, pw), s) == NoErrorType ==>
      ApproxFrom(s, round, src, dst, pw, v).Ok?
  {
  }
}
