/** An encoder of directory trees: every well-formed tree has a name table, so that reading is decoding. */
module TableEncoder {
  import opened Bytes
  import opened NameTree
  import opened NameTable

  /** 16 and 32 bits, low byte first. */
  function Half(x: nat): (s: seq<Byte>)
    requires x < 0x1_0000
    ensures |s| == 2 && U16(s, 0) == x
  {
    [x % 0x100, x / 0x100]
  }

  function Full(x: nat): (s: seq<Byte>)
    requires x < WORD
    ensures |s| == 4 && U32(s, 0) == x
  {
    var s := Half(x % 0x1_0000) + Half(x / 0x1_0000);
    assert U16(s, 0) == x % 0x1_0000 && U16(s, 2) == x / 0x1_0000;
    s
  }

  /** Directory ids carry the bits 0xF000. */
  function EntryBytes(e: Entry): (s: seq<Byte>)
    requires 0 < |e.name| <= NAME_MAX && (e.DirEntry? ==> e.id < MAX_DIRS)
    ensures |s| == Size(e) && EntryAt(s, 0, e)
  {
    match e
    case FileEntry(name) => [|name|] + name
    case DirEntry(name, id) =>
      var s := [0x80 + |name|] + name + Half(0xF000 + id);
      assert s[1..1 + |name|] == name && s[1 + |name|..] == Half(0xF000 + id);
      assert U16(s, 1 + |name|) == 0xF000 + id;
      s
  }

  predicate Writable(es: seq<Entry>) {
    forall k :: 0 <= k < |es| ==> 0 < |es[k].name| <= NAME_MAX && (es[k].DirEntry? ==> es[k].id < MAX_DIRS)
  }

  function Entries(es: seq<Entry>, k: nat): (s: seq<Byte>)
    requires Writable(es) && k <= |es|
    ensures |s| == Offset(es, k)
  {
    if k == 0 then [] else Entries(es, k - 1) + EntryBytes(es[k - 1])
  }

  function Body(d: Dir): seq<Byte>
    requires Writable(d.entries)
  {
    Entries(d.entries, |d.entries|) + [0]
  }

  predicate Sized(t: Tree) {
    && 0 < |t| <= MAX_DIRS
    && forall d :: 0 <= d < |t| ==>
         Writable(t[d].entries) && t[d].firstFile < 0x1_0000 && (d > 0 ==> t[d].parent < MAX_DIRS)
  }

  function Bodies(t: Tree, d: nat): seq<Byte>
    requires Sized(t) && d <= |t|
  {
    if d == 0 then [] else Bodies(t, d - 1) + Body(t[d - 1])
  }

  function StartOf(t: Tree, d: nat): nat
    requires Sized(t) && d <= |t|
  {
    8 * |t| + |Bodies(t, d)|
  }

  /** Every directory starts below 2^32. */
  predicate Small(t: Tree)
    requires Sized(t)
  {
    forall d :: 0 <= d <= |t| ==> StartOf(t, d) < WORD
  }

  function Header(t: Tree, d: nat): (s: seq<Byte>)
    requires Sized(t) && Small(t) && d < |t|
    ensures |s| == 8
  {
    Full(StartOf(t, d)) + Half(t[d].firstFile) + Half(if d == 0 then |t| else 0xF000 + t[d].parent)
  }

  function Headers(t: Tree, d: nat): (s: seq<Byte>)
    requires Sized(t) && Small(t) && d <= |t|
    ensures |s| == 8 * d
  {
    if d == 0 then [] else Headers(t, d - 1) + Header(t, d - 1)
  }

  lemma {:induction false} BodiesFit(t: Tree, d: nat, e: nat)
    requires Sized(t) && d <= e <= |t|
    ensures StartOf(t, d) <= StartOf(t, e)
  {
    hide Body;
    if d < e { BodiesFit(t, d, e - 1); }
  }

  /** It is enough that the table as a whole is that small. */
  lemma SmallTable(t: Tree)
    requires Sized(t) && StartOf(t, |t|) < WORD
    ensures Small(t)
  {
    forall d | 0 <= d <= |t| ensures StartOf(t, d) < WORD { BodiesFit(t, d, |t|); }
  }

  /** The whole table: the headers of all directories, then their entries. */
  function Table(t: Tree): seq<Byte>
    requires Sized(t) && Small(t)
  {
    Headers(t, |t|) + Bodies(t, |t|)
  }

  // ---- what stands where -------------------------------------------------------------

  /** `part` stands in `s` at `p`. */
  predicate Stands(s: seq<Byte>, p: nat, part: seq<Byte>) {
    p + |part| <= |s| && s[p..p + |part|] == part
  }

  lemma StandsInside(s: seq<Byte>, p: nat, whole: seq<Byte>, q: nat, part: seq<Byte>)
    requires Stands(s, p, whole) && Stands(whole, q, part)
    ensures Stands(s, p + q, part)
  {
    SubSlice(s, p, |whole|, q, |part|);
    assert p + q + |part| == p + (q + |part|);
  }

  lemma StandsLeft(a: seq<Byte>, b: seq<Byte>, p: nat, part: seq<Byte>)
    requires Stands(a, p, part)
    ensures Stands(a + b, p, part)
  {
    assert (a + b)[p..p + |part|] == a[p..p + |part|];
  }

  lemma StandsRight(a: seq<Byte>, b: seq<Byte>)
    ensures Stands(a + b, |a|, b)
  {}

  lemma {:induction false} HeaderStands(t: Tree, d: nat, e: nat)
    requires Sized(t) && Small(t) && d < e <= |t|
    ensures Stands(Headers(t, e), 8 * d, Header(t, d))
    decreases e
  {
    hide Stands, Header, StartOf;
    if d < e - 1 {
      HeaderStands(t, d, e - 1);
      StandsLeft(Headers(t, e - 1), Header(t, e - 1), 8 * d, Header(t, d));
    } else {
      StandsRight(Headers(t, d), Header(t, d));
    }
  }

  lemma {:induction false} BodyStands(t: Tree, d: nat, e: nat)
    requires Sized(t) && d < e <= |t|
    ensures Stands(Bodies(t, e), |Bodies(t, d)|, Body(t[d]))
    decreases e
  {
    hide Stands, Body;
    if d < e - 1 {
      BodyStands(t, d, e - 1);
      StandsLeft(Bodies(t, e - 1), Body(t[e - 1]), |Bodies(t, d)|, Body(t[d]));
    } else {
      StandsRight(Bodies(t, d), Body(t[d]));
    }
  }

  lemma {:induction false} EntryStands(es: seq<Entry>, k: nat, j: nat)
    requires Writable(es) && k < j <= |es|
    ensures Stands(Entries(es, j), Offset(es, k), EntryBytes(es[k]))
    decreases j
  {
    hide Stands, EntryBytes, EntryAt;
    if k < j - 1 {
      EntryStands(es, k, j - 1);
      StandsLeft(Entries(es, j - 1), EntryBytes(es[j - 1]), Offset(es, k), EntryBytes(es[k]));
    } else {
      StandsRight(Entries(es, k), EntryBytes(es[k]));
    }
  }

  /** An entry means the same wherever its bytes stand. */
  lemma EntryMoves(s: seq<Byte>, p: nat, e: Entry)
    requires 0 < |e.name| <= NAME_MAX && (e.DirEntry? ==> e.id < MAX_DIRS) && Stands(s, p, EntryBytes(e))
    ensures EntryAt(s, p, e)
  {
    var b, n := EntryBytes(e), |e.name|;
    forall i | 0 <= i < |b| ensures s[p + i] == b[i] { assert s[p..p + |b|][i] == b[i]; }
    assert s[p + 1..p + 1 + n] == b[1..1 + n];
  }

  lemma BodyDecodes(s: seq<Byte>, p: nat, d: Dir)
    requires Writable(d.entries) && Stands(s, p, Body(d))
    ensures EntriesAt(s, p, d.entries)
  {
    hide Stands, EntryAt, Entries, Offset, Body, Writable;
    EndDecodes(s, p, d);
    forall k | 0 <= k < |d.entries|
      ensures EntryAt(s, p + Offset(d.entries, k), d.entries[k])
    {
      EntryDecodes(s, p, d, k);
    }
  }

  lemma EndDecodes(s: seq<Byte>, p: nat, d: Dir)
    requires Writable(d.entries) && Stands(s, p, Body(d))
    ensures var q := p + Offset(d.entries, |d.entries|); q < |s| && s[q] == 0
  {
    var es := d.entries;
    var n := Offset(es, |es|);
    StandsRight(Entries(es, |es|), [0]);
    StandsInside(s, p, Body(d), n, [0]);
    assert s[p + n..p + n + 1][0] == 0;
  }

  lemma EntryDecodes(s: seq<Byte>, p: nat, d: Dir, k: nat)
    requires Writable(d.entries) && Stands(s, p, Body(d)) && k < |d.entries|
    ensures EntryAt(s, p + Offset(d.entries, k), d.entries[k])
  {
    hide Stands, EntryBytes, EntryAt, Entries, Offset;
    var es := d.entries;
    EntryStands(es, k, |es|);
    StandsLeft(Entries(es, |es|), [0], Offset(es, k), EntryBytes(es[k]));
    StandsInside(s, p, Body(d), Offset(es, k), EntryBytes(es[k]));
    EntryMoves(s, p + Offset(es, k), es[k]);
  }

  lemma Numbers(s: seq<Byte>, p: nat, h: seq<Byte>, a: nat, b: nat, c: nat)
    requires a < WORD && b < 0x1_0000 && c < 0x1_0000 && h == Full(a) + Half(b) + Half(c) && Stands(s, p, h)
    ensures U32(s, p) == a && U16(s, p + 4) == b && U16(s, p + 6) == c
  {
    forall i | 0 <= i < 8 ensures s[p + i] == h[i] { assert s[p..p + 8][i] == h[i]; }
    assert h[0..4] == Full(a) && h[4..6] == Half(b) && h[6..8] == Half(c);
  }

  /** Every tree whose numbers fit has a table that encodes it. */
  lemma TableEncodes(t: Tree)
    requires Sized(t) && Small(t)
    ensures Encodes(Table(t), 0, t)
  {
    var s := Table(t);
    assert Stands(s, 0, Headers(t, |t|)) && Stands(s, 8 * |t|, Bodies(t, |t|));
    forall d | 0 <= d < |t|
      ensures DirAt(s, 0, t, d)
    {
      DirEncodes(t, s, d);
    }
  }

  lemma HeaderEncodes(t: Tree, s: seq<Byte>, d: nat)
    requires Sized(t) && Small(t) && d < |t| && Stands(s, 0, Headers(t, |t|))
    ensures 8 * d + 8 <= |s| && Start(s, 0, d) == StartOf(t, d) && U16(s, 8 * d + 4) == t[d].firstFile
    ensures U16(s, 8 * d + 6) == if d == 0 then |t| else 0xF000 + t[d].parent
  {
    hide U16, U32, Full, Half, StartOf, Headers;
    HeaderStands(t, d, |t|);
    StandsInside(s, 0, Headers(t, |t|), 8 * d, Header(t, d));
    Numbers(s, 8 * d, Header(t, d), StartOf(t, d), t[d].firstFile, if d == 0 then |t| else 0xF000 + t[d].parent);
  }

  lemma BodyEncodes(t: Tree, s: seq<Byte>, d: nat)
    requires Sized(t) && d < |t| && Stands(s, 8 * |t|, Bodies(t, |t|))
    ensures EntriesAt(s, StartOf(t, d), t[d].entries)
  {
    hide EntriesAt, Bodies, Body, Stands;
    BodyStands(t, d, |t|);
    StandsInside(s, 8 * |t|, Bodies(t, |t|), |Bodies(t, d)|, Body(t[d]));
    BodyDecodes(s, StartOf(t, d), t[d]);
  }

  lemma DirEncodes(t: Tree, s: seq<Byte>, d: nat)
    requires Sized(t) && Small(t) && d < |t|
    requires Stands(s, 0, Headers(t, |t|)) && Stands(s, 8 * |t|, Bodies(t, |t|))
    ensures DirAt(s, 0, t, d)
  {
    hide U16, U32, EntriesAt, Bodies, Headers, Stands, Writable;
    HeaderEncodes(t, s, d);
    BodyEncodes(t, s, d);
  }

  /** Well-formed trees have fitting numbers. */
  lemma GoodIsSized(t: Tree, rank: seq<nat>)
    requires GoodTree(t, rank) && forall d :: 0 <= d < |t| ==> t[d].firstFile < 0x1_0000
    ensures Sized(t)
  {
    forall d | 0 <= d < |t|
      ensures Writable(t[d].entries) && (d > 0 ==> t[d].parent < MAX_DIRS)
    {
      assert GoodDir(t, d);
    }
  }

  /** Every well-formed tree whose first file ids fit 16 bits, and whose table is below 2^32 bytes, has a table
      that encodes it. */
  lemma GoodHasTable(t: Tree, rank: seq<nat>)
    requires GoodTree(t, rank) && forall d :: 0 <= d < |t| ==> t[d].firstFile < 0x1_0000
    ensures Sized(t)
    ensures StartOf(t, |t|) < WORD ==> Small(t) && |Table(t)| == StartOf(t, |t|) && Encodes(Table(t), 0, t)
  {
    GoodIsSized(t, rank);
    if StartOf(t, |t|) < WORD {
      SmallTable(t);
      TableEncodes(t);
    }
  }
}
