/** Bytes, as the archive, card and path modules use them. */
module Bytes {
  type Byte = b: int | 0 <= b < 256

  const WORD := 0x1_0000_0000

  /** The bitwise `&`. */
  function BitAnd(a: nat, b: nat): (r: nat)
    ensures r <= a && r <= b
  {
    if a == 0 || b == 0 then 0
    else 2 * BitAnd(a / 2, b / 2) + if a % 2 == 1 && b % 2 == 1 then 1 else 0
  }

  lemma {:induction false} AndAgain(a: nat, b: nat)
    ensures BitAnd(BitAnd(a, b), b) == BitAnd(a, b)
  {
    if a != 0 && b != 0 {
      AndAgain(a / 2, b / 2);
      var r := BitAnd(a / 2, b / 2);
      var c := BitAnd(a, b);
      assert c / 2 == r && c % 2 == if a % 2 == 1 && b % 2 == 1 then 1 else 0;
    }
  }

  lemma {:induction false} AndOnes(k: nat, b: nat)
    requires k in {0, 1, 3, 7, 15, 31, 63, 127, 255} && b <= k
    ensures BitAnd(k, b) == b
    decreases k
  {
    if k != 0 { AndOnes(k / 2, b / 2); }
  }

  /** Whether bit `i` of a number is set, bit 0 being the lowest. */
  predicate Bit(a: nat, i: nat) {
    if i == 0 then a % 2 == 1 else Bit(a / 2, i - 1)
  }

  /** The eight bits of a byte. */
  lemma {:induction false} ByteBits(b: nat, i: nat)
    requires i < 8
    ensures Bit(b, i) <==> b / [1, 2, 4, 8, 0x10, 0x20, 0x40, 0x80][i] % 2 == 1
  {
    if i > 0 {
      ByteBits(b / 2, i - 1);
      Halved(b, i);
    }
  }

  lemma Halved(b: nat, i: nat)
    requires 0 < i < 8
    ensures b / 2 / [1, 2, 4, 8, 0x10, 0x20, 0x40, 0x80][i - 1] == b / [1, 2, 4, 8, 0x10, 0x20, 0x40, 0x80][i]
  {}

  /** A bit of `a & b` is set exactly if that bit of both is. */
  lemma {:induction false} AndBits(a: nat, b: nat, i: nat)
    ensures Bit(BitAnd(a, b), i) <==> Bit(a, i) && Bit(b, i)
    decreases i
  {
    NoBits(i);
    if a != 0 && b != 0 && i > 0 { AndBits(a / 2, b / 2, i - 1); }
  }

  lemma {:induction false} NoBits(i: nat)
    ensures !Bit(0, i)
  {
    if i > 0 { NoBits(i - 1); }
  }

  /** `a & b` is `b` exactly if every bit of the byte `b` is set in `a`. */
  lemma AndIsSecond(a: Byte, b: Byte)
    ensures BitAnd(a, b) == b <==> forall i :: 0 <= i < 8 && Bit(b, i) ==> Bit(a, i)
  {
    if BitAnd(a, b) == b {
      forall i | 0 <= i < 8 && Bit(b, i) ensures Bit(a, i) { AndBits(a, b, i); }
    } else {
      var i := Difference(BitAnd(a, b), b, 8);
      AndBits(a, b, i);
    }
  }

  /** A bit in which two numbers below 2^n differ. */
  ghost function Difference(a: nat, b: nat, n: nat): (i: nat)
    requires a != b && a <= b && n <= 8 && b < [1, 2, 4, 8, 0x10, 0x20, 0x40, 0x80, 0x100][n]
    ensures i < n && Bit(a, i) != Bit(b, i)
  {
    if a % 2 != b % 2 then 0 else 1 + Difference(a / 2, b / 2, n - 1)
  }

  // ---- memory ------------------------------------------------------------------------

  /** A slice of a slice. */
  lemma SubSlice(s: seq<Byte>, at: nat, n: nat, off: nat, k: nat)
    requires at + n <= |s| && off + k <= n
    ensures s[at..at + n][off..off + k] == s[at + off..at + off + k]
  {
    var a, b := s[at..at + n][off..off + k], s[at + off..at + off + k];
    forall i | 0 <= i < k
      ensures a[i] == b[i]
    {
      assert a[i] == s[at..at + n][off + i] == s[at + (off + i)] && b[i] == s[at + off + i];
    }
  }

  /** `s` with `src` written over what stands at `at`. */
  function Patched(s: seq<Byte>, at: nat, src: seq<Byte>): (r: seq<Byte>)
    requires at + |src| <= |s|
    ensures |r| == |s|
  {
    s[..at] + src + s[at + |src|..]
  }

  lemma PatchedJoins(s: seq<Byte>, at: nat, a: seq<Byte>, b: seq<Byte>)
    requires at + |a| + |b| <= |s|
    ensures Patched(Patched(s, at, a), at + |a|, b) == Patched(s, at, a + b)
  {}

  /** MI_CpuCopy8 */
  method Copy(src: seq<Byte>, dst: array<Byte>, at: nat)
    requires at + |src| <= dst.Length
    modifies dst
    ensures dst[..] == Patched(old(dst[..]), at, src)
  {
    forall i | 0 <= i < |src| { dst[at + i] := src[i]; }
    assert dst[at..at + |src|] == src;
  }

  // ---- division ----------------------------------------------------------------------

  lemma DivUnique(x: int, m: int, q: int, r: int)
    requires m > 0 && x == q * m + r && 0 <= r < m
    ensures x / m == q && x % m == r
  {
    var d, e := x / m, x % m;
    assert x == d * m + e;
    NotBelow(d, q, m, e, r);
    NotBelow(q, d, m, r, e);
  }

  lemma NotBelow(a: int, b: int, m: int, e: int, r: int)
    requires m > 0 && a * m + e == b * m + r && 0 <= r && e < m
    ensures a >= b
  {
    if a < b { NextMultiple(a, b, m); }
  }

  lemma NextMultiple(a: int, b: int, m: int)
    requires m > 0 && a < b
    ensures a * m + m <= b * m
  {
    assert (a + 1) * m <= b * m;
    assert (a + 1) * m == a * m + m;
  }

  lemma ModStep(x: int, m: int)
    requires m > 0
    ensures (x + m) % m == x % m && (x + m) / m == x / m + 1
  {
    assert x == x / m * m + x % m;
    assert (x / m + 1) * m == x / m * m + m;
    DivUnique(x + m, m, x / m + 1, x % m);
  }
}
