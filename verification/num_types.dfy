/** The primitive numeric types the library converts between, described by
    their bounds, width and signedness. The pointer-sized types `isize` and
    `usize` take the width selected by the build configuration, which the
    model passes around as a `PtrWidth`. */
module NumTypes {

  /** `target_pointer_width`: the configuration that decides what `isize`
      and `usize` are. */
  datatype PtrWidth = W32 | W64

  datatype IntTy = I8 | I16 | I32 | I64 | ISize | U8 | U16 | U32 | U64 | USize

  datatype FloatTy = F32 | F64

  datatype NumTy = Int(it: IntTy) | Float(ft: FloatTy)

  predicate Signed(t: IntTy) {
    match t
    case I8 | I16 | I32 | I64 | ISize => true
    case U8 | U16 | U32 | U64 | USize => false
  }

  /** Width of an integer type in bits. */
  function Bits(t: IntTy, pw: PtrWidth): (b: nat)
    ensures b in {8, 16, 32, 64}
  {
    match t
    case I8 | U8 => 8
    case I16 | U16 => 16
    case I32 | U32 => 32
    case I64 | U64 => 64
    case ISize | USize => if pw == W32 then 32 else 64
  }

  /** 2^Bits(t, pw), written as a literal for each width. */
  function Modulus(t: IntTy, pw: PtrWidth): (m: int)
    ensures m > 0
  {
    match t
    case I8 | U8 => 0x100
    case I16 | U16 => 0x1_0000
    case I32 | U32 => 0x1_0000_0000
    case I64 | U64 => 0x1_0000_0000_0000_0000
    case ISize | USize => if pw == W32 then 0x1_0000_0000 else 0x1_0000_0000_0000_0000
  }

  /** `T::MIN`. */
  function Min(t: IntTy, pw: PtrWidth): int {
    match t
    case I8 => -0x80
    case I16 => -0x8000
    case I32 => -0x8000_0000
    case I64 => -0x8000_0000_0000_0000
    case ISize => if pw == W32 then -0x8000_0000 else -0x8000_0000_0000_0000
    case U8 | U16 | U32 | U64 | USize => 0
  }

  /** `T::MAX`. */
  function Max(t: IntTy, pw: PtrWidth): int {
    match t
    case I8 => 0x7F
    case I16 => 0x7FFF
    case I32 => 0x7FFF_FFFF
    case I64 => 0x7FFF_FFFF_FFFF_FFFF
    case ISize => if pw == W32 then 0x7FFF_FFFF else 0x7FFF_FFFF_FFFF_FFFF
    case U8 => 0xFF
    case U16 => 0xFFFF
    case U32 => 0xFFFF_FFFF
    case U64 => 0xFFFF_FFFF_FFFF_FFFF
    case USize => if pw == W32 then 0xFFFF_FFFF else 0xFFFF_FFFF_FFFF_FFFF
  }

  /** `x` is a value of the integer type `t`. */
  predicate InRange(t: IntTy, pw: PtrWidth, x: int) {
    Min(t, pw) <= x <= Max(t, pw)
  }

  /** The two's-complement range description of every integer type: its
      bounds span exactly 2^Bits values, starting at 0 or at -2^(Bits-1). */
  lemma RangeIsTwosComplement(t: IntTy, pw: PtrWidth)
    ensures Max(t, pw) - Min(t, pw) + 1 == Modulus(t, pw)
    ensures Signed(t) ==> Min(t, pw) == -(Modulus(t, pw) / 2)
    ensures !Signed(t) ==> Min(t, pw) == 0
  {
  }
}
