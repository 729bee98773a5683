/** Numeric helpers shared by the thumb model: Java's 32-bit `int`, its
    narrowing cast from `float`, and the density-independent-pixel
    conversion of the host display. Java `float` arithmetic is modelled by
    `real`, without rounding. */
module Units {

  const IntMin: int := -0x8000_0000
  const IntMax: int := 0x7fff_ffff

  /** A Java `int`. */
  newtype Int32 = x: int | -0x8000_0000 <= x < 0x8000_0000

  /** The Java `int` whose 32-bit two's-complement pattern is `bits`, as a
      hexadecimal literal such as `0xff33b5e5` denotes it. */
  function FromBits(bits: int): (r: Int32)
    requires 0 <= bits < 0x1_0000_0000
    ensures (r as int - bits) % 0x1_0000_0000 == 0
    ensures 0 <= r as int <==> bits < 0x8000_0000
  {
    if bits < 0x8000_0000 then bits as Int32 else (bits - 0x1_0000_0000) as Int32
  }

  /** Java's `(int)` narrowing of a floating-point value: it truncates toward
      zero and saturates at the bounds of `int`. */
  function FloatToInt(v: real): (r: Int32)
    ensures 0.0 <= v ==> 0 <= r as int && r as real <= v
    ensures 0.0 <= v < IntMax as real + 1.0 ==> v < r as real + 1.0
    ensures v <= 0.0 ==> r as int <= 0 && v <= r as real
    ensures IntMin as real - 1.0 < v <= 0.0 ==> r as real - 1.0 < v
    ensures IntMax as real <= v ==> r as int == IntMax
    ensures v <= IntMin as real ==> r as int == IntMin
  {
    if 0.0 <= v then
      (if v.Floor > IntMax then IntMax else v.Floor) as Int32
    else
      var t := -((-v).Floor);
      (if t < IntMin then IntMin else t) as Int32
  }

  /** Density-independent pixels to device pixels: `TypedValue.applyDimension`
      with `COMPLEX_UNIT_DIP` multiplies by the display's density. */
  function Dip(value: real, density: real): real
  {
    value * density
  }

  /** Scaling by a positive density keeps the order of two lengths. */
  lemma DipMonotone(a: real, b: real, density: real)
    requires a <= b && 0.0 < density
    ensures Dip(a, density) <= Dip(b, density)
  {
    assert Dip(b, density) - Dip(a, density) == (b - a) * density;
  }

  lemma DipStrictlyMonotone(a: real, b: real, density: real)
    requires 0.0 < density
    ensures a < b ==> Dip(a, density) < Dip(b, density)
  {
    assert Dip(b, density) - Dip(a, density) == (b - a) * density;
  }

  function Abs(v: real): real
  {
    if v < 0.0 then -v else v
  }

  function Min(a: real, b: real): real
  {
    if a <= b then a else b
  }

  function Max(a: real, b: real): real
  {
    if a <= b then b else a
  }

  /** `v` lies on the closed segment between `a` and `b`, in either order. */
  predicate Between(v: real, a: real, b: real)
  {
    Min(a, b) <= v <= Max(a, b)
  }
}
