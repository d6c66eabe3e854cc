/** The table of fx_atanidx.c holds the arc tangents of i / 128, in units of an eighth of the circle over 8192: every
    entry is less than one unit off. */
module FxArctan {
  import opened FxAtan2

  // ---- arc tangents ------------------------------------------------------------------

  /** The tangent of the angle between the slopes i / 128 and (i + 1) / 128. */
  ghost function Between(i: nat): real {
    128.0 / (16384 + i * (i + 1)) as real
  }

  /** What holds for the angle between these slopes: below an eighth of the circle, an angle with the tangent u lies
      between u - u^3 / 3 and u. */
  ghost predicate Turns(i: nat, delta: real) {
    var u := Between(i);
    u - u * u * u / 3.0 <= delta <= u
  }

  /** What the arc tangents of i / 128 satisfy. */
  ghost predicate ArcTangents(angle: nat -> real) {
    && angle(0) == 0.0
    && forall i: nat | i < 128 :: Turns(i, angle(i + 1) - angle(i))
  }

  // ---- arc tangents in units of 10^-8 ------------------------------------------------

  const UNITS := 1_0000_0000
  const SCALE := 100000000.0

  function UnitsRow(k: nat): (r: seq<int>)
    ensures |r| == if k < 8 then 16 else 1
  {
    match k
    case 0 => [0, 781234, 1562373, 2343321, 3123983, 3904265, 4684071, 5463308,
               6241881, 7019697, 7796663, 8572688, 9347678, 10121544, 10894196, 11665544]
    case 1 => [12435499, 13203976, 13970887, 14736148, 15499674, 16261383, 17021193, 17779023,
               18534795, 19288431, 20039855, 20788993, 21535770, 22280115, 23021959, 23761231]
    case 2 => [24497866, 25231798, 25962963, 26691299, 27416745, 28139243, 28858736, 29575169,
               30288487, 30998639, 31705575, 32409247, 33109608, 33806612, 34500218, 35190383]
    case 3 => [35877067, 36560233, 37239845, 37915867, 38588267, 39257014, 39922077, 40583429,
               41241044, 41894897, 42544964, 43191224, 43833656, 44472242, 45106966, 45737810]
    case 4 => [46364761, 46987806, 47606933, 48222132, 48833395, 49440714, 50044081, 50643493,
               51238946, 51830436, 52417963, 53001525, 53581124, 54156761, 54728438, 55296160]
    case 5 => [55859932, 56419758, 56975645, 57527602, 58075635, 58619755, 59159971, 59696294,
               60228735, 60757306, 61282020, 61802891, 62319933, 62833160, 63342588, 63848233]
    case 6 => [64350111, 64848239, 65342634, 65833315, 66320299, 66803606, 67283255, 67759265,
               68231655, 68700448, 69165662, 69627319, 70085441, 70540048, 70991162, 71438805]
    case 7 => [71883000, 72323768, 72761133, 73195117, 73625743, 74053034, 74477013, 74897703,
               75315128, 75729312, 76140277, 76548048, 76952648, 77354101, 77752431, 78147661]
    case _ => [78539816]
  }

  function Units(i: nat): int
    requires i < ENTRIES
  {
    UnitsRow(i / 16)[i % 16]
  }

  const EIGHTH := 78539816

  /** The step `n` from angle `i` to the next one is close to its tangent. */
  predicate StepOk(i: nat, n: int) {
    var s := 16384 + i * (i + 1);
    128 * UNITS - 17 * s <= n * s <= 128 * UNITS + 2 * s
  }

  /** Entry `e` is less than one unit off for every angle within 18 i of `r`. */
  predicate EntryOk(i: nat, e: int, r: int) {
    (e - 1) * (EIGHTH + 2304) < 8192 * (r - 18 * i) && 8192 * (r + 18 * i) < (e + 1) * (EIGHTH - 2304)
  }

  /** The step behind number `j` of row `k`. */
  function StepIn(k: nat, j: nat): int
    requires k < 8 && j < 16
  {
    (if j < 15 then UnitsRow(k)[j + 1] else UnitsRow(k + 1)[0]) - UnitsRow(k)[j]
  }

  lemma LowSteps(k: nat, j: nat)
    requires k < 2 && j < 16
    ensures StepOk(16 * k + j, StepIn(k, j))
  {}

  lemma MiddleSteps(k: nat, j: nat)
    requires 2 <= k < 4 && j < 16
    ensures StepOk(16 * k + j, StepIn(k, j))
  {}

  lemma HighSteps(k: nat, j: nat)
    requires 4 <= k < 6 && j < 16
    ensures StepOk(16 * k + j, StepIn(k, j))
  {}

  lemma TopSteps(k: nat, j: nat)
    requires 6 <= k < 8 && j < 16
    ensures StepOk(16 * k + j, StepIn(k, j))
  {}

  lemma LowEntries(k: nat, j: nat)
    requires k < 2 && j < 16
    ensures EntryOk(16 * k + j, AtanRow(k)[j], UnitsRow(k)[j])
  {}

  lemma MiddleEntries(k: nat, j: nat)
    requires 2 <= k < 4 && j < 16
    ensures EntryOk(16 * k + j, AtanRow(k)[j], UnitsRow(k)[j])
  {}

  lemma HighEntries(k: nat, j: nat)
    requires 4 <= k < 6 && j < 16
    ensures EntryOk(16 * k + j, AtanRow(k)[j], UnitsRow(k)[j])
  {}

  lemma TopEntries(k: nat, j: nat)
    requires 6 <= k < 8 && j < 16
    ensures EntryOk(16 * k + j, AtanRow(k)[j], UnitsRow(k)[j])
  {}

  lemma NextUnits(i: nat)
    requires i < 128
    ensures StepOk(i, Units(i + 1) - Units(i))
  {
    hide StepOk, UnitsRow;
    var k, j := i / 16, i % 16;
    if k < 2 { LowSteps(k, j); }
    else if k < 4 { MiddleSteps(k, j); }
    else if k < 6 { HighSteps(k, j); }
    else { TopSteps(k, j); }
    if j < 15 {
      assert (i + 1) / 16 == k && (i + 1) % 16 == j + 1;
    } else {
      assert (i + 1) / 16 == k + 1 && (i + 1) % 16 == 0;
    }
  }

  lemma EntryUnits(i: nat)
    requires i < ENTRIES
    ensures EntryOk(i, TableEntry(i), Units(i))
  {
    if i == 128 {
      assert TableEntry(128) == 8192 && Units(128) == EIGHTH;
    } else {
      hide EntryOk, UnitsRow, AtanRow;
      var k, j := i / 16, i % 16;
      if k < 2 { LowEntries(k, j); }
      else if k < 4 { MiddleEntries(k, j); }
      else if k < 6 { HighEntries(k, j); }
      else { TopEntries(k, j); }
    }
  }

  // ---- the distance ------------------------------------------------------------------

  lemma Cancel(a: real, b: real, s: real)
    requires s > 0.0 && a * s <= b * s
    ensures a <= b
  {}

  /** A step that is close to its tangent is within 18 units of the angle. */
  lemma StepClose(i: nat, n: int, delta: real)
    requires StepOk(i, n) && Turns(i, delta)
    ensures n as real - 18.0 <= SCALE * delta <= n as real + 18.0
  {
    var s, u := (16384 + i * (i + 1)) as real, Between(i);
    var d := SCALE;
    assert s >= 16384.0 && u * s == 128.0;
    Cancel(u, 1.0 / 128.0, s);
    SmallCube(u);
    NearTangent(n as real, u, s);
    Enclosed(n as real, u, delta, u * u * u / 3.0);
  }

  lemma SmallCube(u: real)
    requires 0.0 <= u <= 1.0 / 128.0
    ensures u * u * u / 3.0 <= 0.00000016
  {
    var square := u * u;
    Product(u, u, 1.0 / 128.0);
    assert square <= u / 128.0 <= 1.0 / 16384.0;
    Product(square, u, 1.0 / 128.0);
    assert square * u <= square / 128.0;
  }

  lemma Product(f: real, y: real, high: real)
    requires 0.0 <= f && y <= high
    ensures f * y <= f * high
  {
    var d := high - y;
    assert f * d >= 0.0;
    assert f * high == f * y + f * d;
  }

  lemma NearTangent(n: real, u: real, s: real)
    requires s > 0.0 && u * s == 128.0
    requires 128.0 * SCALE - 17.0 * s <= n * s <= 128.0 * SCALE + 2.0 * s
    ensures SCALE * u - 17.0 <= n <= SCALE * u + 2.0
  {
    var d := SCALE;
    assert (d * u - 17.0) * s == 128.0 * d - 17.0 * s;
    assert (d * u + 2.0) * s == 128.0 * d + 2.0 * s;
    Cancel(d * u - 17.0, n, s);
    Cancel(n, d * u + 2.0, s);
  }

  lemma Enclosed(n: real, u: real, delta: real, cube: real)
    requires SCALE * u - 17.0 <= n <= SCALE * u + 2.0
    requires u - cube <= delta <= u && cube <= 0.00000016
    ensures n - 18.0 <= SCALE * delta <= n + 18.0
  {}

  lemma StepOf(i: nat, delta: real)
    requires i < 128 && Turns(i, delta)
    ensures var n := Units(i + 1) - Units(i); n as real - 18.0 <= SCALE * delta <= n as real + 18.0
  {
    NextUnits(i);
    hide Units, StepOk;
    StepClose(i, Units(i + 1) - Units(i), delta);
  }

  /** Angle `a` is within 18 i of `r`, in units. */
  ghost predicate Within(a: real, r: int, i: nat) {
    r as real - 18.0 * i as real <= SCALE * a <= r as real + 18.0 * i as real
  }

  lemma WithinNext(a: real, r: int, i: nat, b: real, n: int)
    requires Within(a, r, i) && n as real - 18.0 <= SCALE * (b - a) <= n as real + 18.0
    ensures Within(b, r + n, i + 1)
  {}

  lemma {:induction false} Drift(angle: nat -> real, i: nat)
    requires ArcTangents(angle) && i < ENTRIES
    ensures Within(angle(i), Units(i), i)
  {
    if i > 0 {
      Drift(angle, i - 1);
      StepOf(i - 1, angle(i) - angle(i - 1));
      hide Units, ArcTangents, Within;
      WithinNext(angle(i - 1), Units(i - 1), i - 1, angle(i), Units(i) - Units(i - 1));
    } else {
      assert Units(0) == 0;
    }
  }

  /** `e` is less than one unit away from the angle `a`, if 8192 units are the angle `eighth`. */
  ghost predicate LessThanOneOff(e: int, a: real, eighth: real) {
    (e - 1) as real * eighth < 8192.0 * a < (e + 1) as real * eighth
  }

  /** Entry i of the table is less than one unit away from the arc tangent of i / 128, where 8192 units are the arc
      tangent of 1. */
  lemma EntryClose(angle: nat -> real, i: nat)
    requires ArcTangents(angle) && i < ENTRIES
    ensures LessThanOneOff(TableEntry(i), angle(i), angle(128))
  {
    Drift(angle, i);
    Drift(angle, 128);
    EntryUnits(i);
    LastUnits();
    if i == 0 {
      assert TableEntry(0) == 0;
      hide Units, TableEntry;
    } else {
      TableRises(0, i);
      assert TableEntry(0) == 0;
      hide Units, TableEntry, ArcTangents, Within, EntryOk, LessThanOneOff;
      Close(angle(i), angle(128), TableEntry(i), Units(i), i);
    }
  }

  lemma LastUnits()
    ensures Units(128) == EIGHTH
  {}

  lemma Close(a: real, eighth: real, e: int, r: int, i: nat)
    requires EntryOk(i, e, r) && 1 <= e && Within(a, r, i) && Within(eighth, EIGHTH, 128)
    ensures LessThanOneOff(e, a, eighth)
  {
    Below((e - 1) as real, eighth, (EIGHTH + 2304) as real);
    Above((e + 1) as real, eighth, (EIGHTH - 2304) as real);
    Converted(e - 1, EIGHTH + 2304);
    Converted(e + 1, EIGHTH - 2304);
    Bounds(r, i);
    CancelBelow((e - 1) as real * eighth, ((e - 1) * (EIGHTH + 2304)) as real, (8192 * (r - 18 * i)) as real, a);
    CancelAbove((e + 1) as real * eighth, (8192 * (r + 18 * i)) as real, ((e + 1) * (EIGHTH - 2304)) as real, a);
  }

  lemma Bounds(r: int, i: nat)
    ensures (8192 * (r - 18 * i)) as real == 8192.0 * (r as real - 18.0 * i as real)
    ensures (8192 * (r + 18 * i)) as real == 8192.0 * (r as real + 18.0 * i as real)
  {}

  lemma CancelAbove(p: real, low: real, high: real, a: real)
    requires 8192.0 * (SCALE * a) <= low < high <= SCALE * p
    ensures 8192.0 * a < p
  {}

  lemma CancelBelow(p: real, low: real, high: real, a: real)
    requires SCALE * p <= low < high <= 8192.0 * (SCALE * a)
    ensures p < 8192.0 * a
  {}

  lemma Converted(f: int, n: int)
    ensures f as real * n as real == (f * n) as real
  {}

  lemma Below(f: real, eighth: real, high: real)
    requires 0.0 <= f && SCALE * eighth <= high
    ensures SCALE * (f * eighth) <= f * high
  {
    Product(f, SCALE * eighth, high);
    Unscaled(f, eighth);
  }

  lemma Above(f: real, eighth: real, low: real)
    requires 0.0 <= f && low <= SCALE * eighth
    ensures f * low <= SCALE * (f * eighth)
  {
    Product(f, low, SCALE * eighth);
    Unscaled(f, eighth);
  }

  lemma Unscaled(f: real, eighth: real)
    ensures f * (SCALE * eighth) == SCALE * (f * eighth)
  {}
}
