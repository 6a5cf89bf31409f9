/** The error types a conversion can fail with, and the lossless widenings
    between them. Every payload-bearing error carries the input that was
    refused, never a value of the destination type. */
module Errors {
  import opened Wrappers

  /** The error type of conversions that cannot fail. In the library it is
      an enum with no variants; Dafny has no empty datatypes, so this one
      has a placeholder constructor that no member of the model builds. */
  datatype NoError = NoError

  /** Input was not representable in the target type. */
  datatype Unrepresentable<T> = Unrepresentable(value: T)

  /** Input was too negative for the target type. */
  datatype NegOverflow<T> = NegOverflow(value: T)

  /** Input was too positive for the target type. */
  datatype PosOverflow<T> = PosOverflow(value: T)

  /** Input was out of range in one direction or the other. */
  datatype RangeError<T> = NegOverflow(value: T) | PosOverflow(value: T)

  /** A conversion from a floating-point value failed. */
  datatype FloatError<T> = NegOverflow(value: T) | PosOverflow(value: T) | NotANumber(value: T)
  {
    /** `FloatError::into_inner`. */
    function IntoInner(): (v: T)
      ensures this == FloatError.NegOverflow(v) || this == FloatError.PosOverflow(v)
           || this == FloatError.NotANumber(v)
    {
      match this
      case NegOverflow(v) => v
      case PosOverflow(v) => v
      case NotANumber(v) => v
    }
  }

  /** The catch-all error that every other error widens into. */
  datatype GeneralError<T> = NegOverflow(value: T) | PosOverflow(value: T) | Unrepresentable(value: T)
  {
    /** `GeneralError::into_inner`. */
    function IntoInner(): (v: T)
      ensures this == GeneralError.NegOverflow(v) || this == GeneralError.PosOverflow(v)
           || this == GeneralError.Unrepresentable(v)
    {
      match this
      case NegOverflow(v) => v
      case PosOverflow(v) => v
      case Unrepresentable(v) => v
    }
  }

  /** `RangeError` without its payload. */
  datatype RangeErrorKind = NegOverflow | PosOverflow

  /** `GeneralError` without its payload. */
  datatype GeneralErrorKind = NegOverflow | PosOverflow | Unrepresentable

  /* ---------------- widening into RangeError ---------------- */

  function RangeFromNeg<T>(e: NegOverflow<T>): (r: RangeError<T>)
    ensures r.NegOverflow? && r.value == e.value
  {
    RangeError.NegOverflow(e.value)
  }

  function RangeFromPos<T>(e: PosOverflow<T>): (r: RangeError<T>)
    ensures r.PosOverflow? && r.value == e.value
  {
    RangeError.PosOverflow(e.value)
  }

  /* ---------------- widening into FloatError ---------------- */

  function FloatFromNeg<T>(e: NegOverflow<T>): (r: FloatError<T>)
    ensures r.NegOverflow? && r.IntoInner() == e.value
  {
    FloatError.NegOverflow(e.value)
  }

  function FloatFromPos<T>(e: PosOverflow<T>): (r: FloatError<T>)
    ensures r.PosOverflow? && r.IntoInner() == e.value
  {
    FloatError.PosOverflow(e.value)
  }

  /** A range error keeps its direction and payload; `NotANumber` is never
      produced. */
  function FloatFromRange<T>(e: RangeError<T>): (r: FloatError<T>)
    ensures !r.NotANumber?
    ensures r.NegOverflow? <==> e.NegOverflow?
    ensures r.IntoInner() == e.value
  {
    match e
    case NegOverflow(v) => FloatError.NegOverflow(v)
    case PosOverflow(v) => FloatError.PosOverflow(v)
  }

  /* ---------------- widening into GeneralError ---------------- */

  function GeneralFromUnrepresentable<T>(e: Unrepresentable<T>): (r: GeneralError<T>)
    ensures r.Unrepresentable? && r.IntoInner() == e.value
  {
    GeneralError.Unrepresentable(e.value)
  }

  function GeneralFromNeg<T>(e: NegOverflow<T>): (r: GeneralError<T>)
    ensures r.NegOverflow? && r.IntoInner() == e.value
  {
    GeneralError.NegOverflow(e.value)
  }

  function GeneralFromPos<T>(e: PosOverflow<T>): (r: GeneralError<T>)
    ensures r.PosOverflow? && r.IntoInner() == e.value
  {
    GeneralError.PosOverflow(e.value)
  }

  function GeneralFromRange<T>(e: RangeError<T>): (r: GeneralError<T>)
    ensures !r.Unrepresentable?
    ensures r.NegOverflow? <==> e.NegOverflow?
    ensures r.IntoInner() == e.value
  {
    match e
    case NegOverflow(v) => GeneralError.NegOverflow(v)
    case PosOverflow(v) => GeneralError.PosOverflow(v)
  }

  /** Overflows keep their direction; not-a-number becomes unrepresentable. */
  function GeneralFromFloat<T>(e: FloatError<T>): (r: GeneralError<T>)
    ensures r.NegOverflow? <==> e.NegOverflow?
    ensures r.PosOverflow? <==> e.PosOverflow?
    ensures r.Unrepresentable? <==> e.NotANumber?
    ensures r.IntoInner() == e.IntoInner()
  {
    match e
    case NegOverflow(v) => GeneralError.NegOverflow(v)
    case PosOverflow(v) => GeneralError.PosOverflow(v)
    case NotANumber(v) => GeneralError.Unrepresentable(v)
  }

  /* ---------------- payload-free kinds ---------------- */

  function RangeKindFromNeg<T>(e: NegOverflow<T>): (k: RangeErrorKind)
    ensures k.NegOverflow?
  {
    RangeErrorKind.NegOverflow
  }

  function RangeKindFromPos<T>(e: PosOverflow<T>): (k: RangeErrorKind)
    ensures k.PosOverflow?
  {
    RangeErrorKind.PosOverflow
  }

  function RangeKindFromRange<T>(e: RangeError<T>): (k: RangeErrorKind)
    ensures k.NegOverflow? <==> e.NegOverflow?
  {
    match e
    case NegOverflow(_) => RangeErrorKind.NegOverflow
    case PosOverflow(_) => RangeErrorKind.PosOverflow
  }

  function GeneralKindFromUnrepresentable<T>(e: Unrepresentable<T>): (k: GeneralErrorKind)
    ensures k.Unrepresentable?
  {
    GeneralErrorKind.Unrepresentable
  }

  function GeneralKindFromNeg<T>(e: NegOverflow<T>): (k: GeneralErrorKind)
    ensures k.NegOverflow?
  {
    GeneralErrorKind.NegOverflow
  }

  function GeneralKindFromPos<T>(e: PosOverflow<T>): (k: GeneralErrorKind)
    ensures k.PosOverflow?
  {
    GeneralErrorKind.PosOverflow
  }

  function GeneralKindFromRangeKind(e: RangeErrorKind): (k: GeneralErrorKind)
    ensures !k.Unrepresentable?
    ensures k.NegOverflow? <==> e.NegOverflow?
  {
    match e
    case NegOverflow => GeneralErrorKind.NegOverflow
    case PosOverflow => GeneralErrorKind.PosOverflow
  }

  function GeneralKindFromRange<T>(e: RangeError<T>): (k: GeneralErrorKind)
    ensures !k.Unrepresentable?
    ensures k.NegOverflow? <==> e.NegOverflow?
  {
    match e
    case NegOverflow(_) => GeneralErrorKind.NegOverflow
    case PosOverflow(_) => GeneralErrorKind.PosOverflow
  }

  function GeneralKindFromGeneral<T>(e: GeneralError<T>): (k: GeneralErrorKind)
    ensures k.NegOverflow? <==> e.NegOverflow?
    ensures k.PosOverflow? <==> e.PosOverflow?
    ensures k.Unrepresentable? <==> e.Unrepresentable?
  {
    match e
    case NegOverflow(_) => GeneralErrorKind.NegOverflow
    case PosOverflow(_) => GeneralErrorKind.PosOverflow
    case Unrepresentable(_) => GeneralErrorKind.Unrepresentable
  }

  function GeneralKindFromFloat<T>(e: FloatError<T>): (k: GeneralErrorKind)
    ensures k.NegOverflow? <==> e.NegOverflow?
    ensures k.PosOverflow? <==> e.PosOverflow?
    ensures k.Unrepresentable? <==> e.NotANumber?
  {
    match e
    case NegOverflow(_) => GeneralErrorKind.NegOverflow
    case PosOverflow(_) => GeneralErrorKind.PosOverflow
    case NotANumber(_) => GeneralErrorKind.Unrepresentable
  }

  /* ---------------- properties of the widening lattice ---------------- */

  /** Widening a one-sided overflow through `RangeError` gives the same
      `FloatError` and `GeneralError` as widening it directly, and widening
      a range error through `FloatError` gives the same `GeneralError`. */
  lemma WideningCommutes<T>(n: NegOverflow<T>, p: PosOverflow<T>, e: RangeError<T>)
    ensures FloatFromRange(RangeFromNeg(n)) == FloatFromNeg(n)
    ensures FloatFromRange(RangeFromPos(p)) == FloatFromPos(p)
    ensures GeneralFromRange(RangeFromNeg(n)) == GeneralFromNeg(n)
    ensures GeneralFromRange(RangeFromPos(p)) == GeneralFromPos(p)
    ensures GeneralFromFloat(FloatFromRange(e)) == GeneralFromRange(e)
    ensures GeneralFromFloat(FloatFromNeg(n)) == GeneralFromNeg(n)
    ensures GeneralFromFloat(FloatFromPos(p)) == GeneralFromPos(p)
  {
  }

  /** Dropping the payload after widening gives the kind the narrower error
      converts to directly. */
  lemma KindsAgree<T>(u: Unrepresentable<T>, n: NegOverflow<T>, p: PosOverflow<T>,
                      e: RangeError<T>, f: FloatError<T>)
    ensures GeneralKindFromGeneral(GeneralFromUnrepresentable(u)) == GeneralKindFromUnrepresentable(u)
    ensures GeneralKindFromGeneral(GeneralFromNeg(n)) == GeneralKindFromNeg(n)
    ensures GeneralKindFromGeneral(GeneralFromPos(p)) == GeneralKindFromPos(p)
    ensures GeneralKindFromGeneral(GeneralFromRange(e)) == GeneralKindFromRange(e)
    ensures GeneralKindFromGeneral(GeneralFromFloat(f)) == GeneralKindFromFloat(f)
    ensures GeneralKindFromRangeKind(RangeKindFromRange(e)) == GeneralKindFromRange(e)
    ensures GeneralKindFromRangeKind(RangeKindFromNeg(n)) == GeneralKindFromNeg(n)
    ensures GeneralKindFromRangeKind(RangeKindFromPos(p)) == GeneralKindFromPos(p)
    ensures RangeKindFromRange(RangeFromNeg(n)) == RangeKindFromNeg(n)
    ensures RangeKindFromRange(RangeFromPos(p)) == RangeKindFromPos(p)
  {
  }

  /** The widenings are lossless: distinct errors widen to distinct
      errors. */
  lemma WideningsAreInjective<T>(a: RangeError<T>, b: RangeError<T>, f: FloatError<T>, g: FloatError<T>)
    ensures FloatFromRange(a) == FloatFromRange(b) ==> a == b
    ensures GeneralFromRange(a) == GeneralFromRange(b) ==> a == b
    ensures GeneralFromFloat(f) == GeneralFromFloat(g) ==> f == g
  {
  }

  /** Widening loses nothing: a general error and its kind together
      determine it up to its payload, which `into_inner` returns. */
  lemma GeneralErrorDeterminedByKindAndPayload<T>(a: GeneralError<T>, b: GeneralError<T>)
    ensures a == b <==> GeneralKindFromGeneral(a) == GeneralKindFromGeneral(b) && a.IntoInner() == b.IntoInner()
  {
  }

  /* ---------------- typed conversion errors ---------------- */

  /** The associated `Err` type a conversion impl declares, narrowest
      first. `NoErrorType` is the type of conversions that cannot fail. */
  datatype ErrorType = NoErrorType | NegOverflowType | PosOverflowType | RangeErrorType | FloatErrorType

  /** An error value of one of the payload-bearing conversion error types,
      tagged with that type, so that conversions with different declared
      error types share one result type. */
  datatype ConvError<T> =
    | NegErr(neg: NegOverflow<T>)
    | PosErr(pos: PosOverflow<T>)
    | RangeErr(range: RangeError<T>)
    | FloatErr(float: FloatError<T>)

  function TypeOf<T>(e: ConvError<T>): ErrorType {
    match e
    case NegErr(_) => NegOverflowType
    case PosErr(_) => PosOverflowType
    case RangeErr(_) => RangeErrorType
    case FloatErr(_) => FloatErrorType
  }

  /** The result conforms to the declared error type `t`: it is `Ok`, or
      its error has type `t`. With `t == NoErrorType` only `Ok` conforms. */
  predicate Conforms<D, T>(r: Result<D, ConvError<T>>, t: ErrorType) {
    r.Err? ==> TypeOf(r.error) == t
  }

  /** The widening the `?` operator performs into `GeneralError`. */
  function Generalize<T>(e: ConvError<T>): (g: GeneralError<T>)
    ensures TypeOf(e) != FloatErrorType ==> !g.Unrepresentable?
  {
    match e
    case NegErr(n) => GeneralFromNeg(n)
    case PosErr(p) => GeneralFromPos(p)
    case RangeErr(r) => GeneralFromRange(r)
    case FloatErr(f) => GeneralFromFloat(f)
  }

  /** The input a conversion error carries. */
  function Payload<T>(e: ConvError<T>): T {
    Generalize(e).IntoInner()
  }

  /** The kind of a conversion error, as `GeneralErrorKind::from` gives it. */
  function Kind<T>(e: ConvError<T>): GeneralErrorKind {
    GeneralKindFromGeneral(Generalize(e))
  }

  /** `Into<RangeErrorKind>` on the error types that have it: the
      `NegOverflow`, `PosOverflow` and `RangeError` of the integer and
      integer-to-float conversions. `FloatError` has no such conversion. */
  function RangeKindOf<T>(e: ConvError<T>): (k: RangeErrorKind)
    requires !e.FloatErr?
    ensures GeneralKindFromRangeKind(k) == Kind(e)
  {
    match e
    case NegErr(n) => RangeKindFromNeg(n)
    case PosErr(p) => RangeKindFromPos(p)
    case RangeErr(r) => RangeKindFromRange(r)
  }

  /** Renames the payload type of a conversion error, keeping its type and
      kind. */
  function MapPayload<T, U>(e: ConvError<T>, f: T -> U): (r: ConvError<U>)
    ensures TypeOf(r) == TypeOf(e)
    ensures Kind(r) == Kind(e)
    ensures Payload(r) == f(Payload(e))
  {
    match e
    case NegErr(n) => NegErr(NegOverflow.NegOverflow(f(n.value)))
    case PosErr(p) => PosErr(PosOverflow.PosOverflow(f(p.value)))
    case RangeErr(NegOverflow(v)) => RangeErr(RangeError.NegOverflow(f(v)))
    case RangeErr(PosOverflow(v)) => RangeErr(RangeError.PosOverflow(f(v)))
    case FloatErr(NegOverflow(v)) => FloatErr(FloatError.NegOverflow(f(v)))
    case FloatErr(PosOverflow(v)) => FloatErr(FloatError.PosOverflow(f(v)))
    case FloatErr(NotANumber(v)) => FloatErr(FloatError.NotANumber(f(v)))
  }
}
