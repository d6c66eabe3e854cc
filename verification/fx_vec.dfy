/** Vector magnitude and distance of fx_vec.c, with the 64-bit and 32-bit words of the source. */
module FxVec {
  import opened FxWords
  import Bytes

  function Minus(a: Triple, b: Triple): (r: Triple)
    ensures IsVec(r)
  {
    Triple(S32(a.x - b.x), S32(a.y - b.y), S32(a.z - b.z))
  }

  /** VEC_Subtract; `ab` may be `a`, `b` or both. */
  method Subtract(a: Vec, b: Vec, ab: Vec)
    modifies ab
    ensures ab.Value() == Minus(old(a.Value()), old(b.Value()))
  {
    ab.x := S32(a.x - b.x);
    ab.y := S32(a.y - b.y);
    ab.z := S32(a.z - b.z);
  }

  /** `d` + `b` is `a`, modulo 2^32. */
  predicate AddsUp(d: int, b: int, a: int) {
    (d + b - a) % TWO_32 == 0
  }

  /** The difference and the second operand add up to the first one, in 32-bit words. */
  lemma DifferenceAddsUp(a: Triple, b: Triple)
    ensures var d := Minus(a, b);
      IsVec(d) && AddsUp(d.x, b.x, a.x) && AddsUp(d.y, b.y, a.y) && AddsUp(d.z, b.z, a.z)
  {
    WordAddsUp(a.x, b.x);
    WordAddsUp(a.y, b.y);
    WordAddsUp(a.z, b.z);
  }

  lemma WordAddsUp(a: int, b: int)
    ensures AddsUp(S32(a - b), b, a)
  {
    assert S32(a - b) + b - a == -((a - b + TWO_31) / TWO_32) * TWO_32;
  }

  // ---- the square root unit ----------------------------------------------------------

  /** `r` is the square root of `n`, rounded down. */
  ghost predicate IsRoot(n: nat, r: nat) {
    r * r <= n < (r + 1) * (r + 1)
  }

  /** The root below `hi`, found by bisection. */
  function RootBelow(n: nat, lo: nat, hi: nat): (r: nat)
    requires lo < hi && lo * lo <= n < hi * hi
    ensures IsRoot(n, r) && lo <= r < hi
    decreases hi - lo
  {
    if lo + 1 == hi then lo
    else
      var mid := (lo + hi) / 2;
      if mid * mid <= n then RootBelow(n, mid, hi) else RootBelow(n, lo, mid)
  }

  /** CP_SetSqrt64 and CP_GetSqrtResult32 */
  function Sqrt64(n: nat): (r: nat)
    requires n < TWO_64
    ensures IsRoot(n, r) && r < TWO_32
  {
    RootBelow(n, 0, TWO_32)
  }

  // ---- magnitude ---------------------------------------------------------------------

  /** The sum of squares, unbounded. */
  function Squares(v: Triple): nat {
    Square(v.x) + Square(v.y) + Square(v.z)
  }

  /** x * x, which is never negative. */
  function Square(x: int): nat {
    if x < 0 then -x * -x else x * x
  }

  const LIMIT := 0x7FFF_FFFF   // 2^31 - 1

  /** The end of VEC_Mag and of VEC_Distance: half the root of four times the sum of squares, rounded. */
  function HalfRoot(t: nat): int {
    WordRoot(t * 4)
  }

  /** The sum of squares in 64-bit words, shifted by two, and its root: what VEC_Mag and VEC_Distance do. */
  function WordLength(x: int, y: int, z: int): int {
    WordRoot(S64(S64(S64(Square(x) + Square(y)) + Square(z)) * 4))
  }

  /** The square-root unit reads a 64-bit word. */
  function WordRoot(word: int): int {
    HalfOf(Sqrt64(word % TWO_64))
  }

  function HalfOf(s: int): (r: int)
    ensures 2 * r + 1 <= LIMIT
    ensures 0 <= s < LIMIT ==> r == (s + 1) / 2
  {
    S32(S32(s) + 1) / 2
  }

  /** A 64-bit word is only known modulo 2^64. */
  lemma SameWord(x: int, y: int, z: int)
    requires x % TWO_64 == y % TWO_64
    ensures S64(x + z) % TWO_64 == (y + z) % TWO_64 && S64(x * 4) % TWO_64 == y * 4 % TWO_64
  {
    var k := (x - y) / TWO_64;
    assert x == y + k * TWO_64;
    Shifted(x + z, (x + z + TWO_63) / TWO_64);
    Shifted(y + z, k);
    Shifted(x * 4, (x * 4 + TWO_63) / TWO_64);
    Shifted(y * 4, 4 * k);
  }

  lemma Shifted(x: int, k: int)
    ensures (x + k * TWO_64) % TWO_64 == x % TWO_64 && (x - k * TWO_64) % TWO_64 == x % TWO_64
  {
    Bytes.DivUnique(x + k * TWO_64, TWO_64, x / TWO_64 + k, x % TWO_64);
    Bytes.DivUnique(x - k * TWO_64, TWO_64, x / TWO_64 - k, x % TWO_64);
  }

  /** Adding the squares in 64-bit words, and shifting them by two, is exact modulo 2^64. */
  lemma FourSquares(x: int, y: int, z: int)
    requires IsS32(x) && IsS32(y) && IsS32(z)
    ensures WordLength(x, y, z) == HalfRoot(Squares(Triple(x, y, z)))
  {
    hide Square, S64, Sqrt64, HalfOf;
    var xx, yy, zz := Square(x), Square(y), Square(z);
    SameWord(xx, xx, yy);
    SameWord(S64(xx + yy), xx + yy, zz);
    SameWord(S64(S64(xx + yy) + zz), xx + yy + zz, 0);
  }

  /** VEC_Mag */
  method Mag(v: Vec) returns (r: int)
    requires IsVec(v.Value())
    ensures r == HalfRoot(Squares(v.Value()))
  {
    FourSquares(v.x, v.y, v.z);
    hide WordLength, HalfRoot;
    r := WordLength(v.x, v.y, v.z);
  }

  /** VEC_Distance */
  method Distance(a: Vec, b: Vec) returns (r: int)
    ensures r == HalfRoot(Squares(Minus(a.Value(), b.Value())))
  {
    var d := Minus(a.Value(), b.Value());
    FourSquares(d.x, d.y, d.z);
    hide WordLength, HalfRoot, Minus;
    r := WordLength(d.x, d.y, d.z);
  }

  /** `r` is the square root of `t` rounded to the nearest integer. */
  ghost predicate Nearest(t: nat, r: int) {
    && r >= 0 && 4 * t < (2 * r + 1) * (2 * r + 1)
    && (r >= 1 ==> (2 * r - 1) * (2 * r - 1) <= 4 * t)
  }

  lemma SmallRoot(n: nat, s: nat)
    requires IsRoot(n, s) && n < LIMIT * LIMIT
    ensures s < LIMIT
  {
    if s >= LIMIT { MulMono(LIMIT, s); }
  }

  lemma MulMono(a: nat, b: nat)
    requires a <= b
    ensures a * a <= b * b
  {
    assert a * a <= a * b <= b * b;
  }

  lemma HalfIsNearest(t: nat, s: nat)
    requires IsRoot(4 * t, s)
    ensures Nearest(t, (s + 1) / 2)
  {
    var r := (s + 1) / 2;
    if s % 2 == 0 {
      assert s == 2 * r;
      if r >= 1 { MulMono(2 * r - 1, s); }
    } else {
      assert s == 2 * r - 1;
      MulMono(s + 1, 2 * r + 1);
    }
  }

  lemma RightBelow(t: nat)
    requires 4 * t < LIMIT * LIMIT
    ensures Nearest(t, HalfRoot(t))
  {
    hide HalfOf, IsRoot, Nearest, RootBelow;
    assert LIMIT * LIMIT < TWO_64 && t * 4 % TWO_64 == 4 * t;
    var s := Sqrt64(4 * t);
    SmallRoot(4 * t, s);
    HalfIsNearest(t, s);
  }

  lemma WrongAbove(t: nat, r: int)
    requires 4 * t >= LIMIT * LIMIT && 2 * r + 1 <= LIMIT
    ensures !Nearest(t, r)
  {
    if r >= 0 { MulMono(2 * r + 1, LIMIT); }
  }

  /** The magnitude is rounded exactly if and only if 4t is below (2^31 - 1) squared: above, the root or the
      word does not fit. */
  lemma MagExact(t: nat)
    ensures Nearest(t, HalfRoot(t)) <==> 4 * t < LIMIT * LIMIT
  {
    if 4 * t < LIMIT * LIMIT {
      RightBelow(t);
    } else {
      WrongAbove(t, HalfRoot(t));
    }
  }

  /** A vector whose magnitude is not the nearest one. */
  lemma MagFails()
    ensures var t := Squares(Triple(0x4000_0000, 0, 0)); !Nearest(t, HalfRoot(t))
  {
    MagExact(Squares(Triple(0x4000_0000, 0, 0)));
  }
}
