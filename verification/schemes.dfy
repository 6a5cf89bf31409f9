/** The approximation schemes an `ApproxFrom` conversion can be asked to
    use. In the library each is an uninhabited marker type selected at
    compile time; here each is a tag passed to the conversion. */
module Schemes {

  datatype Scheme =
    | DefaultApprox   // whatever a lossy conversion would generally be expected to do
    | Wrapping        // keep the least significant bits
    | RoundToNearest  // nearest representable value, ties away from zero
    | RoundToNegInf   // toward negative infinity
    | RoundToPosInf   // toward positive infinity
    | RoundToZero     // toward zero

  /** The schemes a float-to-integer conversion is offered under: all but
      `Wrapping`. */
  predicate IsRounding(s: Scheme) {
    s != Wrapping
  }
}
