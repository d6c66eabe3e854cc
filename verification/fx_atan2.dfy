/** FX_Atan2Idx of fx_atanidx.c with the rounded division of fx_cp.c: turning a vector by a quarter turn
    adds a quarter of the circle, and exactly which vectors make it read outside its table. */
module FxAtan2 {
  import opened FxWords
  import Bytes

  /** FX_AtanIdxTable_ by rows of 16: the angle whose tangent is i / 128; 8192 is an eighth of the circle. */
  function AtanRow(k: nat): (r: seq<int>)
    ensures |r| == if k < 8 then 16 else 1
  {
    match k
    case 0 => [0, 81, 163, 244, 326, 407, 489, 570, 651, 732, 813, 894, 975, 1056, 1136, 1217]
    case 1 => [1297, 1377, 1457, 1537, 1617, 1696, 1775, 1854, 1933, 2012, 2090, 2168, 2246, 2324, 2401, 2478]
    case 2 => [2555, 2632, 2708, 2784, 2860, 2935, 3010, 3085, 3159, 3233, 3307, 3380, 3453, 3526, 3599, 3670]
    case 3 => [3742, 3813, 3884, 3955, 4025, 4095, 4164, 4233, 4302, 4370, 4438, 4505, 4572, 4639, 4705, 4771]
    case 4 => [4836, 4901, 4966, 5030, 5094, 5157, 5220, 5282, 5344, 5406, 5467, 5528, 5589, 5649, 5708, 5768]
    case 5 => [5826, 5885, 5943, 6000, 6058, 6114, 6171, 6227, 6282, 6337, 6392, 6446, 6500, 6554, 6607, 6660]
    case 6 => [6712, 6764, 6815, 6867, 6917, 6968, 7018, 7068, 7117, 7166, 7214, 7262, 7310, 7358, 7405, 7451]
    case 7 => [7498, 7544, 7589, 7635, 7679, 7724, 7768, 7812, 7856, 7899, 7942, 7984, 8026, 8068, 8110, 8151]
    case _ => [8192]
  }

  const ENTRIES := 129

  function TableEntry(i: int): int
    requires 0 <= i < ENTRIES
  {
    AtanRow(i / 16)[i % 16]
  }

  /** The table is strictly increasing. */
  lemma TableRises(i: int, j: int)
    requires 0 <= i < j < ENTRIES
    ensures TableEntry(i) < TableEntry(j)
    decreases j - i
  {
    hide TableEntry;
    EntriesRise(i);
    if i + 1 < j { TableRises(i + 1, j); }
  }

  lemma EntriesRise(i: int)
    requires 0 <= i < ENTRIES - 1
    ensures TableEntry(i) < TableEntry(i + 1)
  {
    var k, j := i / 16, i % 16;
    RowRises(k, j);
    if j < 15 {
      assert (i + 1) / 16 == k && (i + 1) % 16 == j + 1;
    } else {
      assert (i + 1) / 16 == k + 1 && (i + 1) % 16 == 0;
    }
  }

  lemma RowRises(k: nat, j: nat)
    requires k < 8 && j < 16
    ensures AtanRow(k)[j] < if j < 15 then AtanRow(k)[j + 1] else AtanRow(k + 1)[0]
  {
    hide AtanRow;
    if k < 3 { LowRise(k, j); } else if k < 6 { MiddleRise(k, j); } else { HighRise(k, j); }
  }

  lemma LowRise(k: nat, j: nat)
    requires k < 3 && j < 16
    ensures AtanRow(k)[j] < if j < 15 then AtanRow(k)[j + 1] else AtanRow(k + 1)[0]
  {}

  lemma MiddleRise(k: nat, j: nat)
    requires 3 <= k < 6 && j < 16
    ensures AtanRow(k)[j] < if j < 15 then AtanRow(k)[j + 1] else AtanRow(k + 1)[0]
  {}

  lemma HighRise(k: nat, j: nat)
    requires 6 <= k < 8 && j < 16
    ensures AtanRow(k)[j] < if j < 15 then AtanRow(k)[j + 1] else AtanRow(k + 1)[0]
  {}

  const QUARTER := 16384
  const CIRCLE := 65536

  /** The divider: 64 by 32 bits, towards zero. */
  function Quotient(numer: int, denom: int): int
    requires denom != 0
  {
    if (numer >= 0) == (denom > 0) then Abs(numer) / Abs(denom) else -(Abs(numer) / Abs(denom))
  }

  /** FX_Div: FX_DivAsync, then FX_GetDivResult, which rounds the last 20 bits away. */
  function Div(numer: int, denom: int): int
    requires denom != 0
  {
    S32(S64(Quotient(numer * TWO_32, denom) + 0x8_0000) / 0x10_0000)
  }

  /** What the branches of FX_Atan2Idx select: a fixed angle, or `base` plus or minus the table entry for
      the quotient `a` / `b`. */
  datatype Choice = Fixed(angle: int) | Table(a: int, b: int, base: int, plus: bool)

  function Choose(y0: int, x0: int): Choice {
    if y0 > 0 then
      if x0 > 0 then
        if x0 > y0 then Table(y0, x0, 0, true) else if x0 < y0 then Table(x0, y0, 16384, false) else Fixed(8192)
      else if x0 < 0 then
        var x := S32(-x0);
        if x < y0 then Table(x, y0, 16384, true) else if x > y0 then Table(y0, x, 32768, false) else Fixed(24576)
      else Fixed(16384)
    else if y0 < 0 then
      var y := S32(-y0);
      if x0 < 0 then
        var x := S32(-x0);
        if x > y then Table(y, x, -32768, true) else if x < y then Table(x, y, -16384, false) else Fixed(-24576)
      else if x0 > 0 then
        if x0 < y then Table(x0, y, -16384, true) else if x0 > y then Table(y, x0, 0, false) else Fixed(-8192)
      else Fixed(-16384)
    else if x0 >= 0 then Fixed(0) else Fixed(32768)
  }

  function Index(a: int, b: int): int
    requires b != 0
  {
    Div(a, b) / 32
  }

  /** The table is read inside its bounds, if it is read at all. */
  predicate InTable(c: Choice) {
    c.Table? && c.b != 0 ==> 0 <= Index(c.a, c.b) < ENTRIES
  }

  function Angle(c: Choice): nat
    requires InTable(c)
  {
    match c
    case Fixed(angle) => angle % CIRCLE
    case Table(a, b, base, plus) =>
      if b == 0 then 0
      else if plus then (base + TableEntry(Index(a, b))) % CIRCLE
      else (base - TableEntry(Index(a, b))) % CIRCLE
  }

  /** FX_Atan2Idx */
  function Atan2Idx(y: int, x: int): nat
    requires InTable(Choose(y, x))
  {
    Angle(Choose(y, x))
  }

  // ---- the index ---------------------------------------------------------------------

  lemma LessThanOne(a: nat, b: nat, scale: nat)
    requires a < b && scale > 0
    ensures a * scale / b < scale
  {
    var q := a * scale / b;
    assert q * b <= a * scale < b * scale;
  }

  lemma Rounded(q: nat)
    requires q < TWO_32
    ensures 0 <= S32(S64(q + 0x8_0000) / 0x10_0000) / 32 <= 128
  {}

  lemma QuotientOf(a: nat, b: nat)
    requires b > 0
    ensures Quotient(a, b) == a / b
  {}

  /** y / x rounded to nearest, in units of 1 / 4096. */
  function Slope(y: nat, x: nat): nat
    requires x > 0
  {
    (8192 * y + x) / (2 * x)
  }

  /** For a proper quotient FX_Div is a / b in units of 1 / 4096, rounded to nearest. */
  lemma DivNearest(a: nat, b: nat)
    requires a <= b && 0 < b < TWO_31
    ensures Div(a, b) == Slope(a, b)
  {
    hide Quotient, S32, S64;
    var q := a * TWO_32 / b;
    QuotientOf(a * TWO_32, b);
    assert q <= TWO_32 by { Floor(a * TWO_32, b); if q > TWO_32 { Bytes.NextMultiple(TWO_32, q, b); } }
    Unwrapped(q);
    Floor(a * TWO_32, b);
    var n := (q + 0x8_0000) / 0x10_0000;
    assert n * 0x10_0000 <= q + 0x8_0000 < (n + 1) * 0x10_0000;
    NearestOf(a, b, q, n);
  }

  lemma Unwrapped(q: nat)
    requires q <= TWO_32
    ensures S32(S64(q + 0x8_0000) / 0x10_0000) == (q + 0x8_0000) / 0x10_0000
  {}

  lemma NearestOf(a: nat, b: nat, q: nat, n: nat)
    requires b > 0 && q * b <= a * TWO_32 < q * b + b
    requires n * 0x10_0000 <= q + 0x8_0000 < n * 0x10_0000 + 0x10_0000
    ensures n == (8192 * a + b) / (2 * b)
  {
    var m := n * b;
    Scaled(n * 0x10_0000 - 0x8_0000, q, b);
    Scaled(q + 1, n * 0x10_0000 + 0x8_0000, b);
    Expanded(n, q, b);
    Bytes.DivUnique(8192 * a + b, 2 * b, n, 8192 * a + b - 2 * m);
  }

  lemma Scaled(a: int, b: int, m: nat)
    requires a <= b
    ensures a * m <= b * m
  {}

  lemma Expanded(n: nat, q: nat, b: nat)
    ensures (n * 0x10_0000 - 0x8_0000) * b == 0x10_0000 * (n * b) - 0x8_0000 * b
    ensures (n * 0x10_0000 + 0x8_0000) * b == 0x10_0000 * (n * b) + 0x8_0000 * b
    ensures (q + 1) * b == q * b + b && n * (2 * b) == 2 * (n * b)
  {}

  /** A proper quotient is rounded to at most one, which is entry 128. */
  lemma ProperQuotient(a: nat, b: nat)
    requires a < b < TWO_31
    ensures 0 <= Index(a, b) <= 128
  {
    hide Quotient, S32, S64;
    LessThanOne(a, b, TWO_32);
    QuotientOf(a * TWO_32, b);
    Rounded(a * TWO_32 / b);
  }

  /** The table is read inside its bounds for every vector without the component -2^31, whose negation does
      not fit 32 bits. */
  lemma IndexInTable(y: int, x: int)
    requires -TWO_31 < y < TWO_31 && -TWO_31 < x < TWO_31
    ensures InTable(Choose(y, x)) && (Choose(y, x).Table? ==> 0 < Choose(y, x).a < Choose(y, x).b)
  {
    match Choose(y, x)
    case Fixed(_) =>
    case Table(a, b, _, _) => ProperQuotient(a, b);
  }

  /** One component is -2^31, whose negation is itself, and the other is neither that nor zero. */
  predicate Lopsided(y: int, x: int) {
    (y == -TWO_31 && x != -TWO_31 && x != 0) || (x == -TWO_31 && y != -TWO_31 && y != 0)
  }

  /** The component that is not -2^31. */
  function Smaller(y: int, x: int): nat
    requires Lopsided(y, x)
  {
    if y == -TWO_31 then Abs(x) else Abs(y)
  }

  /** The vectors for which the table is read inside its bounds; see IndexExact. */
  predicate Readable(y: int, x: int) {
    Lopsided(y, x) ==> 2048 % Smaller(y, x) == 0
  }

  /** -2^31 * 2^32 / b, split into its multiple of 2^52, which the cast to 32 bits drops, and the rest. */
  lemma SplitQuotient(b: nat)
    requires 0 < b < TWO_31
    ensures TWO_63 / b == 0x10_0000_0000_0000 * (2048 / b) + 0x10_0000_0000_0000 * (2048 % b) / b
  {
    var d, m, big := 2048 / b, 2048 % b, 0x10_0000_0000_0000;
    assert TWO_63 == big * (d * b + m);
    assert big * (d * b + m) == (big * d) * b + big * m;
    DivSplits(big * d, big * m, b);
  }

  lemma DivSplits(k: int, n: int, b: int)
    requires b > 0
    ensures (k * b + n) / b == k + n / b
  {
    assert (k + n / b) * b == k * b + n / b * b;
    Bytes.DivUnique(k * b + n, b, k + n / b, n % b);
  }

  /** What the rounding and the casts leave of the quotient -(2^52 * d + p). */
  lemma WrappedQuotient(d: nat, p: nat)
    requires p < 0x10_0000_0000_0000 && d <= 2048 && 0x10_0000_0000_0000 * d + p <= TWO_63
    ensures S32(S64(-(0x10_0000_0000_0000 * d + p) + 0x8_0000) / 0x10_0000) == S32((0x8_0000 - p) / 0x10_0000)
  {
    assert S64(-(0x10_0000_0000_0000 * d + p) + 0x8_0000) == 0x8_0000 - p - 0x10_0000_0000_0000 * d;
    assert (0x8_0000 - p - 0x10_0000_0000_0000 * d) / 0x10_0000 == (0x8_0000 - p) / 0x10_0000 - TWO_32 * d;
    assert ((0x8_0000 - p) / 0x10_0000 - TWO_32 * d + TWO_31) % TWO_32
        == ((0x8_0000 - p) / 0x10_0000 + TWO_31) % TWO_32;
  }

  /** A remainder m of 2048 leaves a rest that is neither small nor next to 2^52. */
  lemma RestBetween(b: nat, m: nat, p: nat)
    requires 0 < m < b < TWO_31 && m <= 2048
    requires p * b <= 0x10_0000_0000_0000 * m < p * b + b
    ensures 0x20_0000 <= p < 0x10_0000_0000_0000
    ensures p >= 0x8_0000_0000_0000 ==> p <= 0x10_0000_0000_0000 - 0x100_0000_0000
  {
    if p < 0x20_0000 { Bytes.NextMultiple(p, 0x20_0000, b); }
    if p >= 0x10_0000_0000_0000 { Bytes.NextMultiple(0x10_0000_0000_0000 - 1, p, b); }
    if p >= 0x8_0000_0000_0000 {
      Bytes.NextMultiple(0x8_0000_0000_0000 - 1, p, b);
      if p > 0x10_0000_0000_0000 - 0x100_0000_0000 {
        Bytes.NextMultiple(0x10_0000_0000_0000 - 0x100_0000_0000, p, b);
      }
    }
  }

  lemma RestIndex(p: nat)
    requires 0x20_0000 <= p < 0x10_0000_0000_0000
    requires p >= 0x8_0000_0000_0000 ==> p <= 0x10_0000_0000_0000 - 0x100_0000_0000
    ensures var i := S32((0x8_0000 - p) / 0x10_0000) / 32; i < 0 || i > 128
  {}

  lemma MinimumQuotient(b: nat)
    requires 0 < b < TWO_31
    ensures Quotient(-TWO_31 * TWO_32, b) == -(TWO_63 / b)
  {}

  /** The index that the rest of the quotient selects. */
  lemma IndexOfRest(b: nat, p: nat)
    requires 0 < b < TWO_31 && p == 0x10_0000_0000_0000 * (2048 % b) / b
    ensures Index(-TWO_31, b) == S32((0x8_0000 - p) / 0x10_0000) / 32
  {
    hide Quotient, S32, S64;
    SplitQuotient(b);
    MinimumQuotient(b);
    RestBelow(2048 / b, 2048 % b, b, p);
    WrappedQuotient(2048 / b, p);
  }

  lemma Floor(n: nat, b: nat)
    requires b > 0
    ensures n / b * b <= n < n / b * b + b
  {}

  /** -2^31 over a divisor of 2048: the index is that of a vanishing quotient. */
  lemma DivisorIndex(b: nat)
    requires 0 < b < TWO_31 && 2048 % b == 0
    ensures Index(-TWO_31, b) == 0
  {
    hide Index;
    IndexOfRest(b, 0);
  }

  lemma RestOf(b: nat, m: nat, p: nat)
    requires 0 < m < b < TWO_31 && m <= 2048 && p == 0x10_0000_0000_0000 * m / b
    ensures var i := S32((0x8_0000 - p) / 0x10_0000) / 32; i < 0 || i > 128
  {
    hide S32;
    Floor(0x10_0000_0000_0000 * m, b);
    RestBetween(b, m, p);
    RestIndex(p);
  }

  lemma Remainder(b: nat)
    requires b > 0
    ensures 2048 % b < b && 2048 % b <= 2048
  {}

  /** -2^31 over any other number: the index is outside the table. */
  lemma OtherIndex(b: nat, m: nat)
    requires 0 < b < TWO_31 && m == 2048 % b && m > 0
    ensures Index(-TWO_31, b) < 0 || Index(-TWO_31, b) > 128
  {
    hide Index, S32;
    var p := 0x10_0000_0000_0000 * m / b;
    Remainder(b);
    IndexOfRest(b, p);
    RestOf(b, m, p);
  }

  lemma RestBelow(d: nat, m: nat, b: nat, p: nat)
    requires 0 < b && d == 2048 / b && m == 2048 % b && p == 0x10_0000_0000_0000 * m / b
    ensures p < 0x10_0000_0000_0000 && d <= 2048 && 0x10_0000_0000_0000 * d + p <= TWO_63
  {
    LessThanOne(m, b, 0x10_0000_0000_0000);
  }

  lemma LopsidedChoice(y: int, x: int)
    requires IsS32(y) && IsS32(x) && Lopsided(y, x)
    ensures var c := Choose(y, x); c.Table? && c.a == -TWO_31 && c.b == Smaller(y, x)
  {}

  /** For all 32-bit vectors: the table is read inside its bounds, or not at all, exactly unless one component
      is -2^31 and the other is neither that, nor zero, nor (up to sign) a divisor of 2048. */
  lemma IndexExact(y: int, x: int)
    requires IsS32(y) && IsS32(x)
    ensures InTable(Choose(y, x)) <==> Readable(y, x)
  {
    if Lopsided(y, x) {
      LopsidedChoice(y, x);
      var b := Smaller(y, x);
      if 2048 % b == 0 { DivisorIndex(b); } else { OtherIndex(b, 2048 % b); }
    } else if -TWO_31 < y && -TWO_31 < x {
      IndexInTable(y, x);
    }
  }

  /** One such vector. */
  lemma IndexEscapes()
    ensures !InTable(Choose(0x7FFF_FFFF, -TWO_31))
  {
    IndexExact(0x7FFF_FFFF, -TWO_31);
  }

  // ---- the angle between the axis and the diagonal -----------------------------------

  /** In the first octant the angle is the table entry for that slope, cut to units of 1 / 128. */
  lemma FirstOctant(y: nat, x: nat)
    requires y < x < TWO_31
    ensures InTable(Choose(y, x)) && Slope(y, x) / 32 < ENTRIES
    ensures Atan2Idx(y, x) == TableEntry(Slope(y, x) / 32) <= 8192
  {
    IndexInTable(y, x);
    DivNearest(y, x);
    ProperQuotient(y, x);
    var i := Index(y, x);
    hide TableEntry, Div;
    AtMostEighth(i);
    if y == 0 { FirstEntry(x); }
  }

  lemma FirstEntry(x: nat)
    requires x > 0
    ensures Slope(0, x) / 32 == 0 && TableEntry(0) == 0
  {
    Bytes.DivUnique(x, 2 * x, 0, x);
  }

  lemma AtMostEighth(i: int)
    requires 0 <= i < ENTRIES
    ensures 0 <= TableEntry(i) <= 8192
  {
    assert TableEntry(0) == 0 && TableEntry(128) == 8192;
    hide TableEntry;
    if i > 0 { TableRises(0, i); }
    if i < 128 { TableRises(i, 128); }
  }

  /** A steeper vector has no smaller angle. */
  lemma SteeperIsGreater(y: nat, x: nat, y2: nat, x2: nat)
    requires y < x < TWO_31 && y2 < x2 < TWO_31 && y * x2 <= y2 * x
    ensures InTable(Choose(y, x)) && InTable(Choose(y2, x2)) && Atan2Idx(y, x) <= Atan2Idx(y2, x2)
  {
    hide TableEntry, Choose, Angle, Slope;
    FirstOctant(y, x);
    FirstOctant(y2, x2);
    var q, q2 := Slope(y, x), Slope(y2, x2);
    QuotientsRise(y, x, y2, x2, q, q2);
    if q / 32 < q2 / 32 { TableRises(q / 32, q2 / 32); }
  }

  lemma QuotientsRise(y: nat, x: nat, y2: nat, x2: nat, q: nat, q2: nat)
    requires x > 0 && x2 > 0 && y * x2 <= y2 * x
    requires q == Slope(y, x) && q2 == Slope(y2, x2)
    ensures q <= q2
  {
    Floor(8192 * y + x, 2 * x);
    Floor(8192 * y2 + x2, 2 * x2);
    if q > q2 {
      // q * 2 x <= 8192 y + x and 8192 y2 + x2 < q * 2 x2, each times the other x
      var a, b := q * (2 * x), q * (2 * x2);
      Bytes.NextMultiple(q2, q, 2 * x2);
      assert a <= 8192 * y + x && 8192 * y2 + x2 < b;
      Scaled(a, 8192 * y + x, x2);
      Scaled(8192 * y2 + x2 + 1, b, x);
      Crossed(q, x, x2, y, y2);
    }
  }

  lemma Crossed(q: nat, x: nat, x2: nat, y: nat, y2: nat)
    ensures q * (2 * x) * x2 == q * (2 * x2) * x
    ensures (8192 * y + x) * x2 == 8192 * (y * x2) + x * x2
    ensures (8192 * y2 + x2 + 1) * x == 8192 * (y2 * x) + x * x2 + x
  {
    assert q * (2 * x) * x2 == 2 * (q * (x * x2));
    assert q * (2 * x2) * x == 2 * (q * (x2 * x));
  }

  // ---- quarter turns -----------------------------------------------------------------

  /** A quarter turn selects the same table entry and the next base. */
  lemma ChooseTurned(y: int, x: int)
    requires -TWO_31 < y < TWO_31 && IsS32(x) && !Lopsided(y, x) && !(y == 0 && x == 0)
    ensures var c, d := Choose(y, x), Choose(x, -y);
      if c.Table? then c.b != 0 && d.Table? && d.a == c.a && d.b == c.b
           && d.plus == c.plus && d.base - c.base in {QUARTER, QUARTER - CIRCLE}
      else d.Fixed? && d.angle - c.angle in {QUARTER, QUARTER - CIRCLE}
  {}

  lemma TurnedAngle(c: Choice, d: Choice)
    requires InTable(c) && (c.Table? ==> c.b != 0)
    requires if c.Table? then d.Table? && d.a == c.a && d.b == c.b
                  && d.plus == c.plus && d.base - c.base in {QUARTER, QUARTER - CIRCLE}
             else d.Fixed? && d.angle - c.angle in {QUARTER, QUARTER - CIRCLE}
    ensures InTable(d) && Angle(d) == (Angle(c) + QUARTER) % CIRCLE
  {
    hide Index, TableEntry;
    match c
    case Fixed(angle) => TurnedBase(angle, d.angle, 0);
    case Table(a, b, base, plus) =>
      var t := TableEntry(Index(a, b));
      TurnedBase(base, d.base, if plus then t else -t);
  }

  /** The angle with a component -2^31 is a multiple of the quarter, if the table can be read. */
  lemma LopsidedAngle(y: int, x: int)
    requires IsS32(y) && IsS32(x) && Lopsided(y, x) && Readable(y, x)
    ensures InTable(Choose(y, x))
    ensures Atan2Idx(y, x) == if y == -TWO_31 then (if x > 0 then 0 else 32768) else if y > 0 then QUARTER else 49152
  {
    hide Index;
    LopsidedChoice(y, x);
    DivisorIndex(Smaller(y, x));
    assert TableEntry(0) == 0;
  }

  /** Of all vectors whose table entry exists (IndexExact), a quarter turn, (x, y) to (-y, x), adds exactly
      16384 modulo 65536 to all but three: zero, and the two with y = -2^31, whose negation is itself, and
      x = 0 or x = y. */
  lemma QuarterTurn(y: int, x: int)
    requires IsS32(y) && IsS32(x) && Readable(y, x)
    ensures InTable(Choose(y, x)) && InTable(Choose(x, S32(-y)))
    ensures Atan2Idx(x, S32(-y)) == (Atan2Idx(y, x) + QUARTER) % CIRCLE
       <==> !(y == 0 && x == 0) && !(y == -TWO_31 && x == 0) && !(y == -TWO_31 && x == -TWO_31)
  {
    hide Index, TableEntry, Choose, S32;
    IndexExact(y, x);
    if Lopsided(y, x) {
      LopsidedTurn(y, x);
    } else if y == -TWO_31 || (y == 0 && x == 0) {
      NoTurn(y, x);
    } else {
      WholeTurn(y, x);
    }
  }

  lemma LopsidedTurn(y: int, x: int)
    requires IsS32(y) && IsS32(x) && Lopsided(y, x) && Readable(y, x)
    ensures InTable(Choose(y, x)) && InTable(Choose(x, S32(-y)))
    ensures Atan2Idx(x, S32(-y)) == (Atan2Idx(y, x) + QUARTER) % CIRCLE
  {
    hide Index, TableEntry, Choose;
    LopsidedAngle(y, x);
    LopsidedAngle(x, S32(-y));
  }

  lemma WholeTurn(y: int, x: int)
    requires -TWO_31 < y && y < TWO_31 && IsS32(x) && !Lopsided(y, x) && !(y == 0 && x == 0)
    ensures InTable(Choose(y, x)) && InTable(Choose(x, S32(-y)))
    ensures Atan2Idx(x, S32(-y)) == (Atan2Idx(y, x) + QUARTER) % CIRCLE
  {
    hide Index, TableEntry;
    IndexExact(y, x);
    ChooseTurned(y, x);
    TurnedAngle(Choose(y, x), Choose(x, -y));
  }

  /** A vector whose angle does not depend on the table, and -y, as 32 bits, is y. */
  lemma NoTurn(y: int, x: int)
    requires (y == -TWO_31 && (x == -TWO_31 || x == 0)) || (y == 0 && x == 0)
    ensures InTable(Choose(y, x)) && InTable(Choose(x, S32(-y)))
    ensures Atan2Idx(x, S32(-y)) != (Atan2Idx(y, x) + QUARTER) % CIRCLE
  {}

  lemma TurnedBase(base: int, turned: int, t: int)
    requires turned == base + QUARTER || turned == base + QUARTER - CIRCLE
    ensures (turned + t) % CIRCLE == ((base + t) % CIRCLE + QUARTER) % CIRCLE
  {}

  /** Swapping the components mirrors the angle at the diagonal, for all vectors whose table entry exists
      but zero. */
  lemma SwapMirrors(y: int, x: int)
    requires IsS32(y) && IsS32(x) && Readable(y, x)
    ensures InTable(Choose(y, x)) && InTable(Choose(x, y))
    ensures Atan2Idx(x, y) == (QUARTER - Atan2Idx(y, x)) % CIRCLE <==> !(y == 0 && x == 0)
  {
    hide Index, TableEntry;
    IndexExact(y, x);
    IndexExact(x, y);
    if Lopsided(y, x) {
      LopsidedAngle(y, x);
      LopsidedAngle(x, y);
    } else if !(y == 0 && x == 0) {
      ChooseSwapped(y, x);
      SwappedAngle(Choose(y, x), Choose(x, y));
    }
  }

  lemma ChooseSwapped(y: int, x: int)
    requires IsS32(y) && IsS32(x) && !Lopsided(y, x) && !(y == 0 && x == 0)
    ensures var c, d := Choose(y, x), Choose(x, y);
      if c.Table? then c.b != 0 && d.Table? && d.a == c.a && d.b == c.b
           && d.plus != c.plus && c.base + d.base in {QUARTER, QUARTER - CIRCLE}
      else d.Fixed? && c.angle + d.angle in {QUARTER, QUARTER - CIRCLE, QUARTER + CIRCLE}
  {}

  lemma SwappedAngle(c: Choice, d: Choice)
    requires InTable(c) && (c.Table? ==> c.b != 0)
    requires if c.Table? then d.Table? && d.a == c.a && d.b == c.b
                  && d.plus != c.plus && c.base + d.base in {QUARTER, QUARTER - CIRCLE}
             else d.Fixed? && c.angle + d.angle in {QUARTER, QUARTER - CIRCLE, QUARTER + CIRCLE}
    ensures InTable(d) && Angle(d) == (QUARTER - Angle(c)) % CIRCLE
  {
    hide Index, TableEntry;
    match c
    case Fixed(angle) => SwappedBase(angle, d.angle, 0);
    case Table(a, b, base, plus) =>
      var t := TableEntry(Index(a, b));
      SwappedBase(base, d.base, if plus then t else -t);
  }

  lemma SwappedBase(base: int, other: int, t: int)
    requires base + other in {QUARTER, QUARTER - CIRCLE, QUARTER + CIRCLE}
    ensures (other - t) % CIRCLE == (QUARTER - (base + t) % CIRCLE) % CIRCLE
  {}
}
