/** 32-bit and 64-bit signed words, as the fixed-point library casts to them, and vectors of them. */
module FxWords {
  const TWO_31 := 0x8000_0000
  const TWO_32 := 0x1_0000_0000
  const TWO_63 := 0x8000_0000_0000_0000
  const TWO_64 := 0x1_0000_0000_0000_0000

  function Abs(x: int): nat {
    if x < 0 then -x else x
  }

  /** A cast to s32 (fx32). */
  function S32(x: int): (r: int)
    ensures -TWO_31 <= r < TWO_31
    ensures -TWO_31 <= x < TWO_31 ==> r == x
  {
    (x + TWO_31) % TWO_32 - TWO_31
  }

  /** A cast to s64 (fx64). */
  function S64(x: int): (r: int)
    ensures -TWO_63 <= r < TWO_63
    ensures -TWO_63 <= x < TWO_63 ==> r == x
  {
    (x + TWO_63) % TWO_64 - TWO_63
  }

  predicate IsS32(x: int) {
    -TWO_31 <= x < TWO_31
  }

  predicate IsS64(x: int) {
    -TWO_63 <= x < TWO_63
  }

  // ---- vectors -----------------------------------------------------------------------

  datatype Triple = Triple(x: int, y: int, z: int)

  predicate IsVec(v: Triple) {
    IsS32(v.x) && IsS32(v.y) && IsS32(v.z)
  }

  /** VecFx32 */
  class Vec {
    var x: int
    var y: int
    var z: int

    constructor (x: int, y: int, z: int)
      ensures Value() == Triple(x, y, z)
    {
      this.x, this.y, this.z := x, y, z;
    }

    function Value(): Triple
      reads this
    {
      Triple(x, y, z)
    }
  }
}
