/** `wire::integer::convert_to`: an overflow-checked conversion between C++
    integer types that compares in the types' common type, as C++ does. */
module WireInteger {
  import opened Wrappers
  import opened WireError

  datatype Width = W8 | W16 | W32 | W64

  /** A C++ integer type: its width in bits and its signedness. */
  datatype IntType = IntType(width: Width, signed: bool)

  /** `std::intmax_t` and `std::uintmax_t` are 64 bits wide (the writer checks
      this with `static_assert`); `unsigned` is 32 bits and `unsigned long`
      64 bits, as on LP64 targets. */
  const Intmax := IntType(W64, true)
  const Uintmax := IntType(W64, false)
  const Unsigned := IntType(W32, false)
  const UnsignedLong := IntType(W64, false)

  function Bits(w: Width): nat {
    match w
    case W8 => 8
    case W16 => 16
    case W32 => 32
    case W64 => 64
  }

  /** 2^bits of the width. */
  function Modulus(w: Width): nat {
    match w
    case W8 => 0x100
    case W16 => 0x1_0000
    case W32 => 0x1_0000_0000
    case W64 => 0x1_0000_0000_0000_0000
  }

  /** `std::numeric_limits<T>::min()` */
  function Min(t: IntType): int {
    if t.signed then -(Modulus(t.width) / 2) else 0
  }

  /** `std::numeric_limits<T>::max()` */
  function Max(t: IntType): int {
    if t.signed then Modulus(t.width) / 2 - 1 else Modulus(t.width) - 1
  }

  predicate InRange(t: IntType, v: int) {
    Min(t) <= v <= Max(t)
  }

  /** Integer promotion: types narrower than `int` become `int`. */
  function Promote(t: IntType): IntType {
    if Bits(t.width) < 32 then IntType(W32, true) else t
  }

  /** `std::common_type<A, B>::type` for integer types (the usual arithmetic
      conversions): after promotion, equal signedness picks the wider type; a
      signed type wins only when it is strictly wider than the unsigned one. */
  function Common(a: IntType, b: IntType): (c: IntType)
    ensures Bits(c.width) >= Bits(Promote(a).width) && Bits(c.width) >= Bits(Promote(b).width)
    ensures c.signed <==> (Promote(a).signed && Promote(b).signed)
                          || (Promote(a).signed && Bits(Promote(a).width) > Bits(Promote(b).width))
                          || (Promote(b).signed && Bits(Promote(b).width) > Bits(Promote(a).width))
  {
    var pa, pb := Promote(a), Promote(b);
    if pa.signed == pb.signed then
      (if Bits(pa.width) >= Bits(pb.width) then pa else pb)
    else
      var (u, s) := if pa.signed then (pb, pa) else (pa, pb);
      if Bits(u.width) >= Bits(s.width) then u else s
  }

  /** The value `T(v)`: `v` reduced modulo 2^bits into the range of `t`. */
  function Cast(t: IntType, v: int): (r: int)
    ensures InRange(t, r)
    ensures InRange(t, v) ==> r == v
  {
    var m := Modulus(t.width);
    var u := v % m;
    if t.signed && u > Max(t) then u - m else u
  }

  /** `convert_to<Target>(source)` for a `source` of type `from`. The checks
      run in this order, each comparison taken in `Common(target, from)`:
      an unsigned target rejects a negative source, then a source below the
      target's minimum is rejected as `larger_integer`, a source above its
      maximum as `smaller_integer`. */
  function ConvertTo(target: IntType, from: IntType, source: int): (r: Outcome<int>)
    requires InRange(from, source)
    ensures r.Ok? ==> r.value == source && InRange(target, source)
    ensures r.Err? ==> r.error == Fail(LargerInteger) || r.error == Fail(SmallerInteger)
  {
    var common := Common(target, from);
    if !target.signed && source < 0 then
      Err(Fail(LargerInteger))
    else if Cast(common, source) < Cast(common, Min(target)) then
      Err(Fail(LargerInteger))
    else if Cast(common, Max(target)) < Cast(common, source) then
      Err(Fail(SmallerInteger))
    else
      Ok(source)
  }

  /** For every unsigned target: a negative source fails with
      `larger_integer`, a source above the target maximum with
      `smaller_integer`, and any other source comes back unchanged. */
  lemma ConvertToUnsigned(target: IntType, from: IntType, source: int)
    requires !target.signed && InRange(from, source)
    ensures source < 0 ==> ConvertTo(target, from, source) == Err(Fail(LargerInteger))
    ensures source > Max(target) ==> ConvertTo(target, from, source) == Err(Fail(SmallerInteger))
    ensures 0 <= source <= Max(target) ==> ConvertTo(target, from, source) == Ok(source)
  {
    var c := Common(target, from);
    if 0 <= source {
      assert InRange(c, source) by {
        assert Bits(c.width) >= Bits(Promote(from).width);
      }
      assert InRange(c, Max(target)) by {
        assert Bits(c.width) >= Bits(Promote(target).width);
      }
    }
  }

  /** The conversion used by `json_reader::integer`: a `uintmax_t` into an
      `intmax_t`. The common type is `uintmax_t`, in which INTMAX_MIN reads as
      2^63, so every source below 2^63 fails as `larger_integer` and every
      other source as `smaller_integer`: nothing succeeds. */
  lemma IntmaxFromUintmaxAlwaysFails(source: int)
    requires InRange(Uintmax, source)
    ensures source < 0x8000_0000_0000_0000 ==> ConvertTo(Intmax, Uintmax, source) == Err(Fail(LargerInteger))
    ensures source >= 0x8000_0000_0000_0000 ==> ConvertTo(Intmax, Uintmax, source) == Err(Fail(SmallerInteger))
  {
    assert Common(Intmax, Uintmax) == Uintmax;
    assert Cast(Uintmax, Min(Intmax)) == 0x8000_0000_0000_0000;
  }

  /** What the range check evidently intends: succeed exactly when the source
      fits the target, otherwise report on which side it falls. */
  function IntendedConvertTo(target: IntType, from: IntType, source: int): (r: Outcome<int>)
    requires InRange(from, source)
    ensures r.Ok? <==> InRange(target, source)
    ensures r.Ok? ==> r.value == source
    ensures source < Min(target) ==> r == Err(Fail(LargerInteger))
    ensures source > Max(target) ==> r == Err(Fail(SmallerInteger))
  {
    if source < Min(target) then Err(Fail(LargerInteger))
    else if Max(target) < source then Err(Fail(SmallerInteger))
    else Ok(source)
  }

  /** The two agree whenever the target is unsigned or the comparisons are
      taken in a signed common type. */
  lemma ConvertToMatchesIntended(target: IntType, from: IntType, source: int)
    requires InRange(from, source)
    requires !target.signed || Common(target, from).signed
    ensures ConvertTo(target, from, source) == IntendedConvertTo(target, from, source)
  {
    var c := Common(target, from);
    CommonHoldsBoth(target, from);
    if !c.signed && source >= 0 {
      assert !target.signed;
    }
  }

  /** The common type holds every value of both types when it is signed,
      and every non-negative one of both when it is not. */
  lemma CommonHoldsBoth(a: IntType, b: IntType)
    ensures var c := Common(a, b);
      && (c.signed ==> forall v :: InRange(a, v) || InRange(b, v) ==> Cast(c, v) == v)
      && (forall v :: 0 <= v && (InRange(a, v) || InRange(b, v)) ==> Cast(c, v) == v)
  {
    var c := Common(a, b);
    assert Bits(c.width) >= Bits(Promote(a).width);
    assert Bits(c.width) >= Bits(Promote(b).width);
  }

  /** The two disagree on 42 read as a `uintmax_t` and converted to
      `intmax_t`, whose common type is unsigned. */
  lemma ConvertToRejectsFortyTwo()
    ensures ConvertTo(Intmax, Uintmax, 42) == Err(Fail(LargerInteger))
    ensures IntendedConvertTo(Intmax, Uintmax, 42) == Ok(42)
  {
    IntmaxFromUintmaxAlwaysFails(42);
  }
}
