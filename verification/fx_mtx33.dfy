/** MTX_Concat33 and MTX_MultVec33 of fx_mtx33.c: the result does not depend on aliasing, and transforming
    by a concatenation stays close to transforming twice. */
module FxMtx33 {
  import opened FxWords

  const ONE := 4096   // 1 << FX32_SHIFT

  datatype Matrix = Matrix(r0: Triple, r1: Triple, r2: Triple)

  /** MtxFx33 */
  class Mtx {
    var m00: int
    var m01: int
    var m02: int
    var m10: int
    var m11: int
    var m12: int
    var m20: int
    var m21: int
    var m22: int

    constructor (m: Matrix)
      ensures Value() == m
    {
      m00, m01, m02 := m.r0.x, m.r0.y, m.r0.z;
      m10, m11, m12 := m.r1.x, m.r1.y, m.r1.z;
      m20, m21, m22 := m.r2.x, m.r2.y, m.r2.z;
    }

    function Value(): Matrix
      reads this
    {
      Matrix(Triple(m00, m01, m02), Triple(m10, m11, m12), Triple(m20, m21, m22))
    }
  }

  /** One fixed-point dot product: 64-bit sum of products, shifted and cast to 32 bits. */
  function Dot(x: int, y: int, z: int, a: int, b: int, c: int): int {
    S32(S64(x * a + y * b + z * c) / ONE)
  }

  /** A row times a matrix: MTX_MultVec33. */
  function Times(v: Triple, m: Matrix): Triple {
    Triple(Dot(v.x, v.y, v.z, m.r0.x, m.r1.x, m.r2.x),
        Dot(v.x, v.y, v.z, m.r0.y, m.r1.y, m.r2.y),
        Dot(v.x, v.y, v.z, m.r0.z, m.r1.z, m.r2.z))
  }

  function Concat(a: Matrix, b: Matrix): Matrix {
    Matrix(Times(a.r0, b), Times(a.r1, b), Times(a.r2, b))
  }

  /** MTX_Concat33: right whether `ab` is `a`, `b`, both or neither. A temporary is used only if `ab` is `b`;
      each row of `a` is read before the same row of `ab` is written. */
  method Concat33(a: Mtx, b: Mtx, ab: Mtx)
    modifies ab
    ensures ab.Value() == Concat(old(a.Value()), old(b.Value()))
  {
    hide Dot;
    var p := ab;
    if ab == b { p := new Mtx(b.Value()); }
    var x, y, z := a.m00, a.m01, a.m02;
    p.m00 := Dot(x, y, z, b.m00, b.m10, b.m20);
    p.m01 := Dot(x, y, z, b.m01, b.m11, b.m21);
    var xx, yy, zz := b.m02, b.m12, b.m22;
    p.m02 := Dot(x, y, z, xx, yy, zz);
    x, y, z := a.m10, a.m11, a.m12;
    p.m12 := Dot(x, y, z, xx, yy, zz);
    p.m11 := Dot(x, y, z, b.m01, b.m11, b.m21);
    xx, yy, zz := b.m00, b.m10, b.m20;
    p.m10 := Dot(x, y, z, xx, yy, zz);
    x, y, z := a.m20, a.m21, a.m22;
    p.m20 := Dot(x, y, z, xx, yy, zz);
    p.m21 := Dot(x, y, z, b.m01, b.m11, b.m21);
    p.m22 := Dot(x, y, z, b.m02, b.m12, b.m22);
    if p != ab {
      ab.m00, ab.m01, ab.m02 := p.m00, p.m01, p.m02;
      ab.m10, ab.m11, ab.m12 := p.m10, p.m11, p.m12;
      ab.m20, ab.m21, ab.m22 := p.m20, p.m21, p.m22;
    }
  }

  /** MTX_MultVec33: `dst` may be `vec`. */
  method MultVec33(vec: Vec, m: Mtx, dst: Vec)
    modifies dst
    ensures dst.Value() == Times(old(vec.Value()), m.Value())
  {
    hide Dot;
    var x, y, z := vec.x, vec.y, vec.z;
    dst.x := Dot(x, y, z, m.m00, m.m10, m.m20);
    dst.y := Dot(x, y, z, m.m01, m.m11, m.m21);
    dst.z := Dot(x, y, z, m.m02, m.m12, m.m22);
  }

  // ---- the identity ------------------------------------------------------------------

  const IDENTITY := Matrix(Triple(4096, 0, 0), Triple(0, 4096, 0), Triple(0, 0, 4096))

  predicate IsMatrix(m: Matrix) {
    IsVec(m.r0) && IsVec(m.r1) && IsVec(m.r2)
  }

  lemma DotUnit(a: int, b: int, c: int)
    requires IsS32(a) && IsS32(b) && IsS32(c)
    ensures Dot(a, b, c, 4096, 0, 0) == a && Dot(a, b, c, 0, 4096, 0) == b && Dot(a, b, c, 0, 0, 4096) == c
    ensures Dot(4096, 0, 0, a, b, c) == a && Dot(0, 4096, 0, a, b, c) == b && Dot(0, 0, 4096, a, b, c) == c
  {}

  /** Transforming by the identity changes no vector, and concatenating with it, on either side, no matrix. */
  lemma IdentityKeeps(v: Triple, m: Matrix)
    requires IsVec(v) && IsMatrix(m)
    ensures Times(v, IDENTITY) == v && Concat(m, IDENTITY) == m && Concat(IDENTITY, m) == m
  {
    hide Dot;
    DotUnit(v.x, v.y, v.z);
    DotUnit(m.r0.x, m.r0.y, m.r0.z);
    DotUnit(m.r1.x, m.r1.y, m.r1.z);
    DotUnit(m.r2.x, m.r2.y, m.r2.z);
    DotUnit(m.r0.x, m.r1.x, m.r2.x);
    DotUnit(m.r0.y, m.r1.y, m.r2.y);
    DotUnit(m.r0.z, m.r1.z, m.r2.z);
  }

  // ---- the error of concatenation ----------------------------------------------------

  function Sum(x: int, y: int, z: int, a: int, b: int, c: int): int {
    x * a + y * b + z * c
  }

  /** The 64-bit sum and the shifted result fit. */
  predicate Fits(x: int, y: int, z: int, a: int, b: int, c: int) {
    IsS64(Sum(x, y, z, a, b, c)) && IsS32(Sum(x, y, z, a, b, c) / ONE)
  }

  /** A dot product that fits loses less than one unit. */
  lemma Loss(x: int, y: int, z: int, a: int, b: int, c: int) returns (e: int)
    requires Fits(x, y, z, a, b, c)
    ensures 0 <= e < ONE && ONE * Dot(x, y, z, a, b, c) == Sum(x, y, z, a, b, c) - e
  {
    e := Sum(x, y, z, a, b, c) % ONE;
  }

  lemma Distribute(a: int, b: int, c: int, s: int)
    ensures (a + b + c) * s == a * s + b * s + c * s && (a - b) * s == a * s - b * s
  {}

  lemma Swap(v: int, a: int, b: int)
    ensures (v * a) * b == v * (a * b)
  {}

  lemma Monotone(e: nat, k: nat, a: nat)
    requires e <= k
    ensures 0 <= e * a <= k * a
  {}

  lemma Bounded(e: int, p: int)
    requires 0 <= e < ONE
    ensures -(ONE - 1) * Abs(p) <= e * p <= (ONE - 1) * Abs(p)
  {
    Monotone(e, ONE - 1, Abs(p));
    if p < 0 { Negated(e, p); }
  }

  lemma Negated(e: int, p: int)
    ensures e * -p == -(e * p)
  {}

  /** Transforming by the rows first or by the columns first gives the same exact sum. */
  lemma SameSum(v: Triple, m: Matrix, p: int, q: int, r: int)
    ensures Sum(Sum(v.x, v.y, v.z, m.r0.x, m.r1.x, m.r2.x), Sum(v.x, v.y, v.z, m.r0.y, m.r1.y, m.r2.y),
                Sum(v.x, v.y, v.z, m.r0.z, m.r1.z, m.r2.z), p, q, r)
         == Sum(v.x, v.y, v.z, Sum(m.r0.x, m.r0.y, m.r0.z, p, q, r), Sum(m.r1.x, m.r1.y, m.r1.z, p, q, r),
                Sum(m.r2.x, m.r2.y, m.r2.z, p, q, r))
  {
    Distribute(v.x * m.r0.x, v.y * m.r1.x, v.z * m.r2.x, p);
    Distribute(v.x * m.r0.y, v.y * m.r1.y, v.z * m.r2.y, q);
    Distribute(v.x * m.r0.z, v.y * m.r1.z, v.z * m.r2.z, r);
    Distribute(m.r0.x * p, m.r0.y * q, m.r0.z * r, v.x);
    Distribute(m.r1.x * p, m.r1.y * q, m.r1.z * r, v.y);
    Distribute(m.r2.x * p, m.r2.y * q, m.r2.z * r, v.z);
    SwapRow(v.x, m.r0, p, q, r);
    SwapRow(v.y, m.r1, p, q, r);
    SwapRow(v.z, m.r2, p, q, r);
  }

  lemma SwapRow(v: int, row: Triple, p: int, q: int, r: int)
    ensures (v * row.x) * p == (row.x * p) * v
    ensures (v * row.y) * q == (row.y * q) * v && (v * row.z) * r == (row.z * r) * v
  {
    Swap(v, row.x, p);
    Swap(v, row.y, q);
    Swap(v, row.z, r);
  }

  /** ONE times a sum whose first factors are ONE-th parts. */
  lemma Scaled(x: int, y: int, z: int, a: int, b: int, c: int)
    ensures ONE * Sum(x, y, z, a, b, c) == Sum(ONE * x, ONE * y, ONE * z, a, b, c)
    ensures ONE * Sum(x, y, z, a, b, c) == Sum(x, y, z, ONE * a, ONE * b, ONE * c)
  {
    Swap(ONE, x, a);
    Swap(ONE, y, b);
    Swap(ONE, z, c);
    assert ONE * (x * a) == x * (ONE * a) && ONE * (y * b) == y * (ONE * b) && ONE * (z * c) == z * (ONE * c);
  }

  lemma SumMinus(x: int, y: int, z: int, e: int, f: int, g: int, a: int, b: int, c: int)
    ensures Sum(x - e, y - f, z - g, a, b, c) == Sum(x, y, z, a, b, c) - Sum(e, f, g, a, b, c)
    ensures Sum(a, b, c, x - e, y - f, z - g) == Sum(a, b, c, x, y, z) - Sum(e, f, g, a, b, c)
  {
    Distribute(x, e, 0, a);
    Distribute(y, f, 0, b);
    Distribute(z, g, 0, c);
  }

  lemma SumBounded(e: int, f: int, g: int, a: int, b: int, c: int)
    requires 0 <= e < ONE && 0 <= f < ONE && 0 <= g < ONE
    ensures Abs(Sum(e, f, g, a, b, c)) <= (ONE - 1) * (Abs(a) + Abs(b) + Abs(c))
  {
    Bounded(e, a);
    Bounded(f, b);
    Bounded(g, c);
  }

  /** The exact sum is ONE squared times the twice transformed component, up to the losses. */
  lemma Twice(v: Triple, m: Matrix, p: int, q: int, r: int) returns (loss: int)
    requires Fits(v.x, v.y, v.z, m.r0.x, m.r1.x, m.r2.x) && Fits(v.x, v.y, v.z, m.r0.y, m.r1.y, m.r2.y)
    requires Fits(v.x, v.y, v.z, m.r0.z, m.r1.z, m.r2.z)
    requires var u := Times(v, m); Fits(u.x, u.y, u.z, p, q, r)
    ensures var u := Times(v, m);
      ONE * ONE * Dot(u.x, u.y, u.z, p, q, r)
        == Sum(Sum(v.x, v.y, v.z, m.r0.x, m.r1.x, m.r2.x), Sum(v.x, v.y, v.z, m.r0.y, m.r1.y, m.r2.y),
               Sum(v.x, v.y, v.z, m.r0.z, m.r1.z, m.r2.z), p, q, r) - loss
    ensures -(ONE - 1) * (Abs(p) + Abs(q) + Abs(r)) <= loss <= (ONE - 1) * (Abs(p) + Abs(q) + Abs(r)) + ONE * (ONE - 1)
  {
    var u := Times(v, m);
    var e0 := Loss(v.x, v.y, v.z, m.r0.x, m.r1.x, m.r2.x);
    var e1 := Loss(v.x, v.y, v.z, m.r0.y, m.r1.y, m.r2.y);
    var e2 := Loss(v.x, v.y, v.z, m.r0.z, m.r1.z, m.r2.z);
    var f := Loss(u.x, u.y, u.z, p, q, r);
    var s0, s1, s2 := Sum(v.x, v.y, v.z, m.r0.x, m.r1.x, m.r2.x),
        Sum(v.x, v.y, v.z, m.r0.y, m.r1.y, m.r2.y), Sum(v.x, v.y, v.z, m.r0.z, m.r1.z, m.r2.z);
    Scaled(u.x, u.y, u.z, p, q, r);
    SumMinus(s0, s1, s2, e0, e1, e2, p, q, r);
    SumBounded(e0, e1, e2, p, q, r);
    loss := Sum(e0, e1, e2, p, q, r) + ONE * f;
    hide Sum, Dot;
  }

  /** The same for the concatenation. */
  lemma Once(v: Triple, m: Matrix, p: int, q: int, r: int) returns (loss: int)
    requires Fits(m.r0.x, m.r0.y, m.r0.z, p, q, r)
    requires Fits(m.r1.x, m.r1.y, m.r1.z, p, q, r) && Fits(m.r2.x, m.r2.y, m.r2.z, p, q, r)
    requires Fits(v.x, v.y, v.z, Dot(m.r0.x, m.r0.y, m.r0.z, p, q, r),
                  Dot(m.r1.x, m.r1.y, m.r1.z, p, q, r), Dot(m.r2.x, m.r2.y, m.r2.z, p, q, r))
    ensures ONE * ONE * Dot(v.x, v.y, v.z, Dot(m.r0.x, m.r0.y, m.r0.z, p, q, r),
            Dot(m.r1.x, m.r1.y, m.r1.z, p, q, r), Dot(m.r2.x, m.r2.y, m.r2.z, p, q, r))
        == Sum(v.x, v.y, v.z, Sum(m.r0.x, m.r0.y, m.r0.z, p, q, r), Sum(m.r1.x, m.r1.y, m.r1.z, p, q, r),
               Sum(m.r2.x, m.r2.y, m.r2.z, p, q, r)) - loss
    ensures -(ONE - 1) * (Abs(v.x) + Abs(v.y) + Abs(v.z))
        <= loss <= (ONE - 1) * (Abs(v.x) + Abs(v.y) + Abs(v.z)) + ONE * (ONE - 1)
  {
    var c0, c1, c2 := Dot(m.r0.x, m.r0.y, m.r0.z, p, q, r),
        Dot(m.r1.x, m.r1.y, m.r1.z, p, q, r), Dot(m.r2.x, m.r2.y, m.r2.z, p, q, r);
    var t0, t1, t2 := Sum(m.r0.x, m.r0.y, m.r0.z, p, q, r),
        Sum(m.r1.x, m.r1.y, m.r1.z, p, q, r), Sum(m.r2.x, m.r2.y, m.r2.z, p, q, r);
    var g0 := Loss(m.r0.x, m.r0.y, m.r0.z, p, q, r);
    var g1 := Loss(m.r1.x, m.r1.y, m.r1.z, p, q, r);
    var g2 := Loss(m.r2.x, m.r2.y, m.r2.z, p, q, r);
    var h := Loss(v.x, v.y, v.z, c0, c1, c2);
    Scaled(v.x, v.y, v.z, c0, c1, c2);
    SumMinus(t0, t1, t2, g0, g1, g2, v.x, v.y, v.z);
    SumBounded(g0, g1, g2, v.x, v.y, v.z);
    loss := Sum(g0, g1, g2, v.x, v.y, v.z) + ONE * h;
    hide Sum, Dot;
  }

  /** Component j of transforming by `m` and then by a matrix with column (p, q, r) differs from transforming
      by their concatenation by less than (|p| + |q| + |r| + |v.x| + |v.y| + |v.z|) / 4096 + 1. */
  lemma ConcatError(v: Triple, m: Matrix, p: int, q: int, r: int)
    requires Fits(v.x, v.y, v.z, m.r0.x, m.r1.x, m.r2.x) && Fits(v.x, v.y, v.z, m.r0.y, m.r1.y, m.r2.y)
    requires Fits(v.x, v.y, v.z, m.r0.z, m.r1.z, m.r2.z)
    requires var u := Times(v, m); Fits(u.x, u.y, u.z, p, q, r)
    requires Fits(m.r0.x, m.r0.y, m.r0.z, p, q, r)
    requires Fits(m.r1.x, m.r1.y, m.r1.z, p, q, r) && Fits(m.r2.x, m.r2.y, m.r2.z, p, q, r)
    requires Fits(v.x, v.y, v.z, Dot(m.r0.x, m.r0.y, m.r0.z, p, q, r),
                  Dot(m.r1.x, m.r1.y, m.r1.z, p, q, r), Dot(m.r2.x, m.r2.y, m.r2.z, p, q, r))
    ensures var u := Times(v, m);
      var twice := Dot(u.x, u.y, u.z, p, q, r);
      var once := Dot(v.x, v.y, v.z, Dot(m.r0.x, m.r0.y, m.r0.z, p, q, r),
                      Dot(m.r1.x, m.r1.y, m.r1.z, p, q, r), Dot(m.r2.x, m.r2.y, m.r2.z, p, q, r));
      ONE * Abs(twice - once) < Abs(p) + Abs(q) + Abs(r) + Abs(v.x) + Abs(v.y) + Abs(v.z) + ONE
  {
    hide Sum, Dot;
    SameSum(v, m, p, q, r);
    var l := Twice(v, m, p, q, r);
    var k := Once(v, m, p, q, r);
  }

  predicate FitsTimes(v: Triple, m: Matrix) {
    && Fits(v.x, v.y, v.z, m.r0.x, m.r1.x, m.r2.x) && Fits(v.x, v.y, v.z, m.r0.y, m.r1.y, m.r2.y)
    && Fits(v.x, v.y, v.z, m.r0.z, m.r1.z, m.r2.z)
  }

  /** Nothing overflows on either way. */
  predicate NoOverflow(v: Triple, a: Matrix, b: Matrix) {
    && FitsTimes(v, a) && FitsTimes(Times(v, a), b)
    && FitsTimes(a.r0, b) && FitsTimes(a.r1, b) && FitsTimes(a.r2, b) && FitsTimes(v, Concat(a, b))
  }

  predicate Close(twice: int, once: int, p: int, q: int, r: int, v: Triple) {
    ONE * Abs(twice - once) < Abs(p) + Abs(q) + Abs(r) + Abs(v.x) + Abs(v.y) + Abs(v.z) + ONE
  }

  /** Transforming by `a` and then by `b` against transforming by their concatenation, in every component. */
  lemma ConcatClose(v: Triple, a: Matrix, b: Matrix)
    requires NoOverflow(v, a, b)
    ensures var twice, once := Times(Times(v, a), b), Times(v, Concat(a, b));
      && Close(twice.x, once.x, b.r0.x, b.r1.x, b.r2.x, v)
      && Close(twice.y, once.y, b.r0.y, b.r1.y, b.r2.y, v)
      && Close(twice.z, once.z, b.r0.z, b.r1.z, b.r2.z, v)
  {
    hide Dot, Fits;
    ConcatError(v, a, b.r0.x, b.r1.x, b.r2.x);
    ConcatError(v, a, b.r0.y, b.r1.y, b.r2.y);
    ConcatError(v, a, b.r0.z, b.r1.z, b.r2.z);
  }
}
