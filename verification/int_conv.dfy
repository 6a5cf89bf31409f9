/** Integer-to-integer conversions: the `as` cast, the checking strategies
    of the `e`, `w`, `w+`, `n-`, `n+` and `n` rows, and the `ValueFrom` and
    `ApproxFrom` conversions they make up. */
module IntConv {
  import opened Wrappers
  import opened NumTypes
  import opened Schemes
  import opened Errors
  import opened Rules

  /** `x as T` between integer types: two's-complement reinterpretation,
      keeping the low `Bits(t, pw)` bits. */
  function Cast(t: IntTy, pw: PtrWidth, x: int): (r: int)
    ensures InRange(t, pw, r)
    ensures (x - r) % Modulus(t, pw) == 0
    ensures InRange(t, pw, x) ==> r == x
  {
    match Bits(t, pw)
    case 8 => Wrap8(Min(t, pw), x)
    case 16 => Wrap16(Min(t, pw), x)
    case 32 => Wrap32(Min(t, pw), x)
    case 64 => Wrap64(Min(t, pw), x)
  }

  /** The representative of `x` modulo 2^8 in `[lo, lo + 2^8)`. */
  function Wrap8(lo: int, x: int): (r: int)
    ensures lo <= r < lo + 0x100
    ensures (x - r) % 0x100 == 0
  {
    lo + (x - lo) % 0x100
  }

  /** The representative of `x` modulo 2^16 in `[lo, lo + 2^16)`. */
  function Wrap16(lo: int, x: int): (r: int)
    ensures lo <= r < lo + 0x1_0000
    ensures (x - r) % 0x1_0000 == 0
  {
    lo + (x - lo) % 0x1_0000
  }

  /** The representative of `x` modulo 2^32 in `[lo, lo + 2^32)`. */
  function Wrap32(lo: int, x: int): (r: int)
    ensures lo <= r < lo + 0x1_0000_0000
    ensures (x - r) % 0x1_0000_0000 == 0
  {
    lo + (x - lo) % 0x1_0000_0000
  }

  /** The representative of `x` modulo 2^64 in `[lo, lo + 2^64)`. */
  function Wrap64(lo: int, x: int): (r: int)
    ensures lo <= r < lo + 0x1_0000_0000_0000_0000
    ensures (x - r) % 0x1_0000_0000_0000_0000 == 0
  {
    lo + (x - lo) % 0x1_0000_0000_0000_0000
  }

  /** The only multiple of `m` strictly between `-m` and `m` is zero. */
  lemma SmallMultipleIsZero(m: int, k: int)
    requires m > 0
    requires -m < m * k < m
    ensures k == 0
  {
    if k >= 1 {
      MultiplyMonotone(m, 1, k);
    } else if k <= -1 {
      MultiplyMonotone(m, k, -1);
    }
  }

  lemma MultiplyMonotone(m: int, j: int, k: int)
    requires m > 0 && j <= k
    ensures m * j <= m * k
  {
  }

  /** The cast is the only value of the destination type congruent to the
      input: `Cast` is the two's-complement reinterpretation and nothing
      else. */
  lemma CastUnique(t: IntTy, pw: PtrWidth, x: int, y: int)
    requires InRange(t, pw, y)
    requires (x - y) % Modulus(t, pw) == 0
    ensures y == Cast(t, pw, x)
  {
    var r := Cast(t, pw, x);
    RangeIsTwosComplement(t, pw);
    CongruentInWindowEqual(Min(t, pw), Modulus(t, pw), x, r, y);
  }

  /** `CastUnique` with the multiple of the modulus given explicitly. */
  lemma CastUniqueBy(t: IntTy, pw: PtrWidth, x: int, y: int, k: int)
    requires InRange(t, pw, y)
    requires x - y == Modulus(t, pw) * k
    ensures y == Cast(t, pw, x)
  {
    var r := Cast(t, pw, x);
    var m := Modulus(t, pw);
    RangeIsTwosComplement(t, pw);
    var p := (x - r) / m;
    assert x - r == m * p;
    assert r - y == m * (k - p);
    SmallMultipleIsZero(m, k - p);
  }

  /** Within a window of `m` consecutive integers, two values congruent to
      the same `x` modulo `m` are equal. */
  lemma CongruentInWindowEqual(lo: int, m: int, x: int, a: int, b: int)
    requires m > 0
    requires lo <= a < lo + m && lo <= b < lo + m
    requires (x - a) % m == 0 && (x - b) % m == 0
    ensures a == b
  {
    var p, q := (x - a) / m, (x - b) / m;
    assert x - a == m * p;
    assert x - b == m * q;
    assert b - a == m * (p - q);
    SmallMultipleIsZero(m, p - q);
  }

  /* ---------------- the checking strategies ---------------- */

  /** `approx_z_up` and the `w+` `value_from`: only a negative input can
      fail. */
  function CheckZeroUp(src: IntTy, dst: IntTy, pw: PtrWidth, x: int): (r: Result<int, NegOverflow<int>>)
    requires InRange(src, pw, x)
    requires IntRowSound(WidenSignedToUnsigned, src, dst, pw)
    ensures r.Ok? <==> InRange(dst, pw, x)
    ensures r.Ok? ==> r.value == x
    ensures r.Err? ==> r.error.value == x && x < 0
  {
    if !(0 <= x) then Err(NegOverflow.NegOverflow(x))
    else Ok(Cast(dst, pw, x))
  }

  /** `approx_to_dmax` and the `n-` `value_from`: only an input above the
      destination maximum can fail. The bound is `dst::MAX as src`. */
  function CheckToMax(src: IntTy, dst: IntTy, pw: PtrWidth, x: int): (r: Result<int, PosOverflow<int>>)
    requires InRange(src, pw, x)
    requires IntRowSound(NarrowFromUnsigned, src, dst, pw)
    ensures r.Ok? <==> InRange(dst, pw, x)
    ensures r.Ok? ==> r.value == x
    ensures r.Err? ==> r.error.value == x && Max(dst, pw) < x
  {
    if !(x <= Cast(src, pw, Max(dst, pw))) then Err(PosOverflow.PosOverflow(x))
    else Ok(Cast(dst, pw, x))
  }

  /** `approx_z_to_dmax` and the `n+` `value_from`: below zero is a
      negative overflow, then above `dst::MAX as src` a positive one. */
  function CheckZeroToMax(src: IntTy, dst: IntTy, pw: PtrWidth, x: int): (r: Result<int, RangeError<int>>)
    requires InRange(src, pw, x)
    requires IntRowSound(NarrowSignedToUnsigned, src, dst, pw)
    ensures r.Ok? <==> InRange(dst, pw, x)
    ensures r.Ok? ==> r.value == x
    ensures r.Err? ==> r.error.value == x
    ensures r.Err? ==> (r.error.NegOverflow? <==> x < Min(dst, pw))
  {
    if !(0 <= x) then Err(RangeError.NegOverflow(x))
    else if !(x <= Cast(src, pw, Max(dst, pw))) then Err(RangeError.PosOverflow(x))
    else Ok(Cast(dst, pw, x))
  }

  /** `approx_dmin_to_dmax` and the `n` `value_from`: below
      `dst::MIN as src` is a negative overflow, then above
      `dst::MAX as src` a positive one. */
  function CheckMinToMax(src: IntTy, dst: IntTy, pw: PtrWidth, x: int): (r: Result<int, RangeError<int>>)
    requires InRange(src, pw, x)
    requires IntRowSound(Narrow, src, dst, pw)
    ensures r.Ok? <==> InRange(dst, pw, x)
    ensures r.Ok? ==> r.value == x
    ensures r.Err? ==> r.error.value == x
    ensures r.Err? ==> (r.error.NegOverflow? <==> x < Min(dst, pw))
  {
    if !(Cast(src, pw, Min(dst, pw)) <= x) then Err(RangeError.NegOverflow(x))
    else if !(x <= Cast(src, pw, Max(dst, pw))) then Err(RangeError.PosOverflow(x))
    else Ok(Cast(dst, pw, x))
  }

  /* ---------------- the conversions ---------------- */

  /** `ValueFrom` for a pair whose row is `st`. The identity is the blanket
      `impl ValueFrom<T> for T`; `e` and `w` rows cast without a check. The
      result is the reference meaning of an exact conversion: success
      exactly when the input is a value of the destination type, and then
      the input itself; otherwise an error carrying the input, which is a
      negative overflow exactly when the input is below the destination
      minimum. */
  function ValueFromRow(st: Strategy, src: IntTy, dst: IntTy, pw: PtrWidth, x: int): (r: Result<int, ConvError<int>>)
    requires InRange(src, pw, x)
    requires IntRowSound(st, src, dst, pw)
    ensures Conforms(r, ValueErrorType(st))
    ensures r.Ok? <==> InRange(dst, pw, x)
    ensures r.Ok? ==> r.value == x
    ensures r.Err? ==> Payload(r.error) == x
    ensures r.Err? ==> (Kind(r.error) == GeneralErrorKind.NegOverflow <==> x < Min(dst, pw))
  {
    match st
    case Identity => Ok(x)
    case Exact | Widen => Ok(Cast(dst, pw, x))
    case WidenSignedToUnsigned => CheckZeroUp(src, dst, pw, x).MapErr(e => NegErr(e))
    case NarrowFromUnsigned => CheckToMax(src, dst, pw, x).MapErr(e => PosErr(e))
    case NarrowSignedToUnsigned => CheckZeroToMax(src, dst, pw, x).MapErr(e => RangeErr(e))
    case Narrow => CheckMinToMax(src, dst, pw, x).MapErr(e => RangeErr(e))
  }

  /** `ApproxFrom<_, s>` for a pair whose row is `st`, under
      `DefaultApprox` or `Wrapping` (the identity is offered under every
      scheme). `Wrapping` casts blindly and so always succeeds with the
      destination value congruent to the input modulo 2^Bits(dst);
      `DefaultApprox` runs the same checks as `ValueFrom`. */
  function ApproxFromRow(s: Scheme, st: Strategy, src: IntTy, dst: IntTy, pw: PtrWidth, x: int): (r: Result<int, ConvError<int>>)
    requires InRange(src, pw, x)
    requires IntRowSound(st, src, dst, pw)
    requires ApproxOffered(st, s)
    ensures Conforms(r, ApproxErrorType(st, s))
    ensures s == Wrapping ==> r.Ok? && InRange(dst, pw, r.value) && (x - r.value) % Modulus(dst, pw) == 0
  {
    match st
    case Identity => Ok(x)
    case Exact | Widen => Ok(Cast(dst, pw, x))
    case WidenSignedToUnsigned =>
      if s == Wrapping then Ok(Cast(dst, pw, x)) else CheckZeroUp(src, dst, pw, x).MapErr(e => NegErr(e))
    case NarrowFromUnsigned =>
      if s == Wrapping then Ok(Cast(dst, pw, x)) else CheckToMax(src, dst, pw, x).MapErr(e => PosErr(e))
    case NarrowSignedToUnsigned =>
      if s == Wrapping then Ok(Cast(dst, pw, x)) else CheckZeroToMax(src, dst, pw, x).MapErr(e => RangeErr(e))
    case Narrow =>
      if s == Wrapping then Ok(Cast(dst, pw, x)) else CheckMinToMax(src, dst, pw, x).MapErr(e => RangeErr(e))
  }

  /** `dst::value_from(x)` for integer types `src` and `dst`. */
  function IntValueFrom(src: IntTy, dst: IntTy, pw: PtrWidth, x: int): (r: Result<int, ConvError<int>>)
    requires InRange(src, pw, x)
    ensures Conforms(r, ValueErrorType(IntRule(src, dst, pw)))
    ensures r.Ok? <==> InRange(dst, pw, x)
    ensures r.Ok? ==> r.value == x
    ensures r.Err? ==> Payload(r.error) == x
    ensures r.Err? ==> (Kind(r.error) == GeneralErrorKind.NegOverflow <==> x < Min(dst, pw))
  {
    IntRuleSound(src, dst, pw);
    ValueFromRow(IntRule(src, dst, pw), src, dst, pw, x)
  }

  /** `<dst as ApproxFrom<src, s>>::approx_from(x)` for integer types. */
  function IntApproxFrom(s: Scheme, src: IntTy, dst: IntTy, pw: PtrWidth, x: int): (r: Result<int, ConvError<int>>)
    requires InRange(src, pw, x)
    requires ApproxOffered(IntRule(src, dst, pw), s)
    ensures Conforms(r, ApproxErrorType(IntRule(src, dst, pw), s))
    ensures s == Wrapping ==> r.Ok? && InRange(dst, pw, r.value) && (x - r.value) % Modulus(dst, pw) == 0
  {
    IntRuleSound(src, dst, pw);
    ApproxFromRow(s, IntRule(src, dst, pw), src, dst, pw, x)
  }

  /* ---------------- what the conversions promise ---------------- */

  /** `DefaultApprox` between integers is exactly `ValueFrom`. */
  lemma DefaultApproxIsValueFrom(src: IntTy, dst: IntTy, pw: PtrWidth, x: int)
    requires InRange(src, pw, x)
    requires ApproxOffered(IntRule(src, dst, pw), DefaultApprox)
    ensures IntApproxFrom(DefaultApprox, src, dst, pw, x) == IntValueFrom(src, dst, pw, x)
  {
    IntRuleSound(src, dst, pw);
  }

  /** The `e` and `w` rows cannot fail: `ValueFrom`, `DefaultApprox` and
      `Wrapping` all return the input unchanged. */
  lemma WideningNeverFails(src: IntTy, dst: IntTy, pw: PtrWidth, x: int)
    requires InRange(src, pw, x)
    requires IntRule(src, dst, pw) == Exact || IntRule(src, dst, pw) == Widen
    ensures IntValueFrom(src, dst, pw, x) == Ok(x)
    ensures IntApproxFrom(DefaultApprox, src, dst, pw, x) == Ok(x)
    ensures IntApproxFrom(Wrapping, src, dst, pw, x) == Ok(x)
  {
    IntRuleSound(src, dst, pw);
  }

  /** `Wrapping` agrees with the checked conversion whenever the latter
      succeeds: the two differ only on inputs outside the destination
      range, and there `Wrapping` gives the one congruent value. */
  lemma WrappingAgreesWhenInRange(src: IntTy, dst: IntTy, pw: PtrWidth, x: int)
    requires InRange(src, pw, x)
    requires ApproxOffered(IntRule(src, dst, pw), Wrapping)
    ensures var w := IntApproxFrom(Wrapping, src, dst, pw, x);
      && (InRange(dst, pw, x) ==> w == IntValueFrom(src, dst, pw, x))
      && w == Ok(Cast(dst, pw, x))
  {
    var w := IntApproxFrom(Wrapping, src, dst, pw, x);
    CastUnique(dst, pw, x, w.value);
  }
}
