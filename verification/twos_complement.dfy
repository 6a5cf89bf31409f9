/** The bit-level reading of an integer `as` cast: keep the low `n` bits
    of the two's-complement representation of the input and read them back
    as the destination type does, unsigned or with the top bit weighing
    -2^(n-1). This is defined independently of `IntConv.Cast`, and
    `CastKeepsLowBits` proves the two agree on every input. */
module TwosComplement {
  import opened NumTypes
  import opened IntConv

  /** 2^n. */
  function Pow2(n: nat): (p: int)
    ensures p > 0
  {
    if n == 0 then 1 else 2 * Pow2(n - 1)
  }

  /** The low `n` bits of `x`, least significant first. Halving rounds
      toward negative infinity, which is the arithmetic shift of the
      two's-complement representation. */
  function LowBits(x: int, n: nat): (bs: seq<bool>)
    ensures |bs| == n
    decreases n
  {
    if n == 0 then [] else [x % 2 == 1] + LowBits(x / 2, n - 1)
  }

  /** What is left of `x` once its low `n` bits are shifted out. */
  function High(x: int, n: nat): int
    decreases n
  {
    if n == 0 then x else High(x / 2, n - 1)
  }

  /** The bits read as an unsigned number. */
  function Unsigned(bs: seq<bool>): int {
    if bs == [] then 0 else (if bs[0] then 1 else 0) + 2 * Unsigned(bs[1..])
  }

  /** The bits read as a two's-complement number: the top bit weighs
      -2^(n-1), the others as in `Unsigned`. */
  function SignedValue(bs: seq<bool>): int
    requires |bs| > 0
  {
    Unsigned(bs[..|bs| - 1]) - (if bs[|bs| - 1] then Pow2(|bs| - 1) else 0)
  }

  /** The bits read back as a value of type `t`. */
  function Reinterpret(t: IntTy, pw: PtrWidth, bs: seq<bool>): int
    requires |bs| == Bits(t, pw)
  {
    if Signed(t) then SignedValue(bs) else Unsigned(bs)
  }

  /** `n` bits read unsigned lie in `[0, 2^n)`. */
  lemma {:induction false} UnsignedBound(bs: seq<bool>)
    ensures 0 <= Unsigned(bs) < Pow2(|bs|)
  {
    if bs != [] {
      UnsignedBound(bs[1..]);
    }
  }

  /** Unsigned reading, split at the top bit, which weighs 2^(n-1). */
  lemma {:induction false} UnsignedSplitTop(bs: seq<bool>)
    requires |bs| > 0
    ensures Unsigned(bs) == Unsigned(bs[..|bs| - 1]) + (if bs[|bs| - 1] then Pow2(|bs| - 1) else 0)
  {
    if |bs| > 1 {
      var tail := bs[1..];
      UnsignedSplitTop(tail);
      assert tail[..|tail| - 1] == bs[..|bs| - 1][1..];
      assert tail[|tail| - 1] == bs[|bs| - 1];
    } else {
      assert bs[..0] == [];
      assert bs[1..] == [];
    }
  }

  /** `x` is its low `n` bits read unsigned plus 2^n times the rest. */
  lemma {:induction false} LowBitsSplit(x: int, n: nat)
    ensures x == Unsigned(LowBits(x, n)) + Pow2(n) * High(x, n)
    decreases n
  {
    if n > 0 {
      LowBitsSplit(x / 2, n - 1);
      assert LowBits(x, n)[1..] == LowBits(x / 2, n - 1);
      assert Pow2(n) * High(x, n) == 2 * (Pow2(n - 1) * High(x / 2, n - 1));
    }
  }

  /** Exponents add. */
  lemma {:induction false} Pow2Add(a: nat, b: nat)
    ensures Pow2(a + b) == Pow2(a) * Pow2(b)
  {
    if a > 0 {
      Pow2Add(a - 1, b);
      assert Pow2(a + b) == 2 * (Pow2(a - 1) * Pow2(b));
    }
  }

  /** A type's bit count gives its modulus. */
  lemma Pow2IsModulus(t: IntTy, pw: PtrWidth)
    ensures Pow2(Bits(t, pw)) == Modulus(t, pw)
  {
    assert Pow2(8) == 0x100;
    assert Pow2(16) == 0x1_0000;
    Pow2Add(16, 16);
    Pow2Add(32, 32);
  }

  /** `x as T` keeps exactly the low bits of `x`: the cast equals reading
      the low `Bits(T)` bits of `x` back in `T`'s signedness. This covers
      truncation to a narrower type, sign or zero extension into a wider
      one, and reinterpretation between types of one width. */
  lemma CastKeepsLowBits(t: IntTy, pw: PtrWidth, x: int)
    ensures Cast(t, pw, x) == Reinterpret(t, pw, LowBits(x, Bits(t, pw)))
  {
    var n := Bits(t, pw);
    LowBitsSplit(x, n);
    Pow2IsModulus(t, pw);
    RangeIsTwosComplement(t, pw);
    if Signed(t) {
      SignedReading(t, pw, x);
    } else {
      UnsignedBound(LowBits(x, n));
      CastUniqueBy(t, pw, x, Unsigned(LowBits(x, n)), High(x, n));
    }
  }

  /** The signed half of `CastKeepsLowBits`: the top bit, when set, moves
      the reading down by one modulus. */
  lemma SignedReading(t: IntTy, pw: PtrWidth, x: int)
    requires Signed(t)
    ensures Cast(t, pw, x) == SignedValue(LowBits(x, Bits(t, pw)))
  {
    var n := Bits(t, pw);
    var bs := LowBits(x, n);
    var m := Modulus(t, pw);
    LowBitsSplit(x, n);
    Pow2IsModulus(t, pw);
    RangeIsTwosComplement(t, pw);
    UnsignedSplitTop(bs);
    UnsignedBound(bs[..n - 1]);
    assert Pow2(n) == 2 * Pow2(n - 1);
    var y := SignedValue(bs);
    var k := if bs[n - 1] then High(x, n) + 1 else High(x, n);
    assert x - y == m * k;
    CastUniqueBy(t, pw, x, y, k);
  }
}
