/** Preloading of the FAT and FNT into memory (FS_LoadArchiveTables and FS_UnloadArchiveTables of
    fs_archive.c) and opening by file id (FSi_OpenFileFastCommand of fs_command_default.c). */
module TablePreload {
  import opened Basics
  import opened Bytes
  import opened NameTree
  import opened NameTable
  import FindPath

  function Align32(n: nat): nat {
    (n + 31) / 32 * 32
  }

  /** How FS_OpenFileDirect and FS_ReadFile end for one of the two tables. */
  datatype Fetch = NotOpened | ReadFailed | ReadOk

  /** The fields of FSArchive that preloading changes. */
  datatype Tables = Tables(fat: nat, fnt: nat, inMemory: bool, loadMem: Option<nat>, tableLoad: bool)

  const HALF := 0x8000_0000

  /** The bytes that arrive in the cache for the table at `from`. A size of 2^31 bytes or more is a negative length
      for FS_ReadFile, which then reads nothing. */
  function Written(image: seq<Byte>, from: nat, size: nat, how: Fetch): (r: seq<Byte>)
    requires from + size <= |image|
    ensures |r| == 0 || |r| == size
  {
    match how
    case NotOpened => []
    case ReadFailed => seq(size, i => 0)
    case ReadOk => if size < HALF then image[from..from + size] else []
  }

  /** Where the second table goes, in 32 bits. */
  function SecondAt(mem: nat, fatSize: nat): nat {
    (Align32(mem) + fatSize) % WORD
  }

  function LoadedTables(s: Tables, mem: nat, fatSize: nat): Tables {
    Tables(Align32(mem), SecondAt(mem, fatSize), true, Some(mem), true)
  }

  /** `n` bytes written at `at` stay in the block. */
  predicate Inside(at: nat, n: nat, mem: nat, maxSize: nat) {
    n == 0 || (mem <= at && at + n <= mem + maxSize)
  }

  /** Memory with `src` written at `at`, which may be anywhere if there is nothing to write. */
  function Stored(s: seq<Byte>, at: nat, src: seq<Byte>): (r: seq<Byte>)
    requires src == [] || at + |src| <= |s|
    ensures |r| == |s|
  {
    if src == [] then s else Patched(s, at, src)
  }

  function UnloadedTables(s: Tables, fatBak: nat, fntBak: nat): Tables {
    if s.tableLoad then Tables(fatBak, fntBak, false, None, false) else s
  }

  /** Memory with table `a` and, behind it, table `b` written at `at`. */
  function BothTables(was: seq<Byte>, at: nat, a: seq<Byte>, b: seq<Byte>): (r: seq<Byte>)
    requires at + |a| + |b| <= |was|
    ensures |r| == |was|
  {
    Patched(Patched(was, at, a), at + |a|, b)
  }

  lemma StoredBoth(was: seq<Byte>, at: nat, a: seq<Byte>, b: seq<Byte>)
    requires at + |a| + |b| <= |was|
    ensures Stored(Stored(was, at, a), at + |a|, b) == BothTables(was, at, a, b)
  {
    NothingStored(was, at);
    NothingStored(Stored(was, at, a), at + |a|);
  }

  lemma NothingStored(s: seq<Byte>, at: nat)
    requires at <= |s|
    ensures Patched(s, at, []) == s
  {}

  /** Both tables are there and nothing else has changed. */
  lemma TwoTables(was: seq<Byte>, a: seq<Byte>, b: seq<Byte>, at: nat)
    requires at + |a| + |b| <= |was|
    ensures var mid, end, now := at + |a|, at + |a| + |b|, BothTables(was, at, a, b);
         now[at..mid] == a && now[mid..end] == b && now[..at] == was[..at] && now[end..] == was[end..]
  {
    var one := Patched(was, at, a);
    assert one[at..at + |a|] == a && one[..at] == was[..at] && one[at + |a|..] == was[at + |a|..];
  }

  /** `total_size`, in 32 bits. */
  function ReportedSize(fatSize: nat, fntSize: nat): nat {
    Align32(fatSize + fntSize + 32) % WORD
  }

  /** The aligned copy of both tables fits in the reported size exactly if that size is computed without
      overflow. */
  lemma SizeExact(mem: nat, fatSize: nat, fntSize: nat)
    requires fatSize < WORD && fntSize < WORD
    ensures Align32(mem) + fatSize + fntSize <= mem + ReportedSize(fatSize, fntSize) <==> fatSize + fntSize + 63 < WORD
    ensures mem <= Align32(mem) <= mem + 31 && Align32(mem) % 32 == 0
  {}

  /** Without overflow nothing leaves the block, however the reads end; if both tables are written whole, something
      does exactly with an overflow. `n1` and `n2` are the numbers of bytes that are written. */
  lemma InsideExact(mem: nat, maxSize: nat, fatSize: nat, fntSize: nat, n1: nat, n2: nat)
    requires fatSize < WORD && fntSize < WORD && n1 <= fatSize && n2 <= fntSize
    requires mem + maxSize <= WORD - 64 && ReportedSize(fatSize, fntSize) <= maxSize
    ensures fatSize + fntSize + 63 < WORD ==>
      && SecondAt(mem, fatSize) == Align32(mem) + fatSize
      && Inside(Align32(mem), n1, mem, maxSize) && Inside(SecondAt(mem, fatSize), n2, mem, maxSize)
    ensures n1 == fatSize && n2 == fntSize && fatSize + fntSize + 63 >= WORD ==>
      !(Inside(Align32(mem), n1, mem, maxSize) && Inside(SecondAt(mem, fatSize), n2, mem, maxSize))
  {
    SizeExact(mem, fatSize, fntSize);
  }

  class Archive {
    const image: seq<Byte>     // what read_func reads
    const memory: array<Byte>  // main memory, which FSi_ReadMemoryCore reads
    const fatSize: nat
    const fntSize: nat
    const fatBak: nat
    const fntBak: nat
    var fat: nat
    var fnt: nat
    var inMemory: bool         // table_func is FSi_ReadMemoryCore
    var loadMem: Option<nat>
    var tableLoad: bool        // FS_ARCHIVE_FLAG_TABLE_LOAD

    ghost function View(): Tables
      reads this
    {
      Tables(fat, fnt, inMemory, loadMem, tableLoad)
    }

    /** What table_func reads. */
    ghost function Source(): seq<Byte>
      reads this, memory
    {
      if inMemory then memory[..] else image
    }

    /** FS_LoadArchive */
    constructor (image: seq<Byte>, memory: array<Byte>, fat: nat, fatSize: nat, fnt: nat, fntSize: nat)
      ensures this.image == image && this.memory == memory && this.fatSize == fatSize && this.fntSize == fntSize
      ensures fatBak == fat && fntBak == fnt && View() == Tables(fat, fnt, false, None, false)
    {
      this.image, this.memory, this.fatSize, this.fntSize := image, memory, fatSize, fntSize;
      this.fat, this.fnt, fatBak, fntBak := fat, fnt, fat, fnt;
      inMemory, loadMem, tableLoad := false, None, false;
    }

    method FetchTable(from: nat, size: nat, how: Fetch, at: nat)
      requires from + size <= |image| && (|Written(image, from, size, how)| == 0 || at + size <= memory.Length)
      modifies memory
      ensures memory[..] == Stored(old(memory[..]), at, Written(image, from, size, how))
    {
      if how == ReadOk {
        if 0 < size < HALF { Copy(image[from..from + size], memory, at); }
      } else if how == ReadFailed {
        if size > 0 { Copy(seq(size, i => 0), memory, at); }
      }
    }

    /** FS_LoadArchiveTables into the block of `maxSize` bytes at `mem`; `fatHow` and `fntHow` say how
        the two reads end. No block reaches the last 64 bytes of the address space. The model stops at a write that
        leaves the block; InsideExact says when there is one. */
    method LoadTables(mem: nat, maxSize: nat, fatHow: Fetch, fntHow: Fetch) returns (total: nat, overrun: bool)
      requires fat + fatSize <= |image| && fnt + fntSize <= |image|
      requires mem + maxSize <= memory.Length <= WORD - 64 && fatSize < WORD && fntSize < WORD
      modifies this, memory
      ensures total == ReportedSize(fatSize, fntSize)
      ensures var one, two := Written(image, old(fat), fatSize, fatHow), Written(image, old(fnt), fntSize, fntHow);
        overrun <==>
          && total <= maxSize
          && !(Inside(Align32(mem), |one|, mem, maxSize) && Inside(SecondAt(mem, fatSize), |two|, mem, maxSize))
      ensures total > maxSize ==> View() == old(View()) && memory[..] == old(memory[..])
      ensures total <= maxSize && !overrun ==>
        var one, two := Written(image, old(fat), fatSize, fatHow), Written(image, old(fnt), fntSize, fntHow);
        && View() == LoadedTables(old(View()), mem, fatSize)
        && memory[..] == Stored(Stored(old(memory[..]), Align32(mem), one), SecondAt(mem, fatSize), two)
    {
      hide Written, Stored;
      total, overrun := Align32(fatSize + fntSize + 32) % WORD, false;
      if total <= maxSize {
        var cache := Align32(mem);
        if !Inside(cache, |Written(image, fat, fatSize, fatHow)|, mem, maxSize) { return total, true; }
        FetchTable(fat, fatSize, fatHow, cache);
        fat := cache;
        cache := (cache + fatSize) % WORD;
        if !Inside(cache, |Written(image, fnt, fntSize, fntHow)|, mem, maxSize) { return total, true; }
        FetchTable(fnt, fntSize, fntHow, cache);
        fnt := cache;
        loadMem := Some(mem);
        inMemory := true;
        tableLoad := true;
      }
    }

    /** FS_UnloadArchiveTables of a loaded archive. */
    method UnloadTables() returns (mem: Option<nat>)
      modifies this
      ensures View() == UnloadedTables(old(View()), fatBak, fntBak)
      ensures mem == if old(tableLoad) then old(loadMem) else None
    {
      mem := None;
      if tableLoad {
        tableLoad := false;
        mem := loadMem;
        loadMem := None;
        fat, fnt := fatBak, fntBak;
        inMemory := false;
      }
    }

    /** FSi_OpenFileFastCommand: the range of the file in the image. */
    method OpenFileFast(index: nat) returns (range: Option<(nat, nat)>)
      ensures range == FileRange(Source(), fat, fatSize, index)
    {
      var pos := index * 8 % WORD;
      if pos >= fatSize { return None; }
      var bytes: Option<seq<Byte>>;
      if inMemory {
        bytes := if fat + pos + 8 <= memory.Length then Some(memory[fat + pos..fat + pos + 8]) else None;
      } else {
        bytes := if fat + pos + 8 <= |image| then Some(image[fat + pos..fat + pos + 8]) else None;
      }
      if bytes.None? { return None; }
      range := Some((U32(bytes.value, 0), U32(bytes.value, 4)));
    }
  }

  function FileRange(s: seq<Byte>, fat: nat, fatSize: nat, index: nat): Option<(nat, nat)> {
    var pos := index * 8 % WORD;
    if pos >= fatSize || fat + pos + 8 > |s| then None
    else Some((U32(s, fat + pos), U32(s, fat + pos + 4)))
  }

  /** A 32-bit number as it is stored, low byte first. */
  function StoredWord(x: nat): (s: seq<Byte>)
    requires x < WORD
    ensures |s| == 4
  {
    [x % 0x100, x / 0x100 % 0x100, x / 0x1_0000 % 0x100, x / 0x100_0000]
  }

  predicate WordRanges(ranges: seq<(nat, nat)>) {
    forall i :: 0 <= i < |ranges| ==> ranges[i].0 < WORD && ranges[i].1 < WORD
  }

  /** The FAT of files with these ranges: an entry is the first byte of the file and the byte behind it. */
  function FatOf(ranges: seq<(nat, nat)>): (s: seq<Byte>)
    requires WordRanges(ranges)
    ensures |s| == 8 * |ranges|
  {
    if ranges == [] then []
    else
      var n := |ranges| - 1;
      FatOf(ranges[..n]) + StoredWord(ranges[n].0) + StoredWord(ranges[n].1)
  }

  lemma {:induction false} FatEntry(ranges: seq<(nat, nat)>, i: nat)
    requires WordRanges(ranges) && i < |ranges|
    ensures FatOf(ranges)[8 * i..8 * i + 8] == StoredWord(ranges[i].0) + StoredWord(ranges[i].1)
  {
    hide StoredWord;
    var n := |ranges| - 1;
    var front := FatOf(ranges[..n]);
    if i < n {
      FatEntry(ranges[..n], i);
      assert FatOf(ranges)[8 * i..8 * i + 8] == front[8 * i..8 * i + 8];
    }
  }

  lemma FourBytes(x: nat)
    ensures x % 0x100 + 0x100 * (x / 0x100 % 0x100) == x % 0x1_0000
    ensures x < WORD ==>
      x / 0x1_0000 % 0x100 + 0x100 * (x / 0x100_0000) == x / 0x1_0000
  {}

  lemma ReadWord(s: seq<Byte>, p: nat, x: nat)
    requires x < WORD && p + 4 <= |s| && s[p..p + 4] == StoredWord(x)
    ensures U32(s, p) == x
  {
    FourBytes(x);
    var w := s[p..p + 4];
    assert s[p] == w[0] && s[p + 1] == w[1] && s[p + 2] == w[2] && s[p + 3] == w[3];
  }

  /** The 32-bit position of an entry. */
  lemma EntryPosition(id: nat)
    ensures id * 8 % WORD == 8 * (id % 0x2000_0000)
  {
    assert id * 8 == id / 0x2000_0000 * WORD + 8 * (id % 0x2000_0000);
  }

  lemma ReadEntryAt(s: seq<Byte>, fat: nat, ranges: seq<(nat, nat)>, i: nat)
    requires WordRanges(ranges) && fat + 8 * |ranges| <= |s|
    requires s[fat..fat + 8 * |ranges|] == FatOf(ranges) && i < |ranges|
    ensures U32(s, fat + 8 * i) == ranges[i].0 && U32(s, fat + 8 * i + 4) == ranges[i].1
  {
    hide StoredWord, FatOf, U32;
    var p := fat + 8 * i;
    FatEntry(ranges, i);
    SubSlice(s, fat, 8 * |ranges|, 8 * i, 8);
    Halves(s, p, StoredWord(ranges[i].0), StoredWord(ranges[i].1));
    ReadWord(s, p, ranges[i].0);
    ReadWord(s, p + 4, ranges[i].1);
  }

  lemma Halves(s: seq<Byte>, p: nat, a: seq<Byte>, b: seq<Byte>)
    requires p + 8 <= |s| && |a| == |b| == 4 && s[p..p + 8] == a + b
    ensures s[p..p + 4] == a && s[p + 4..p + 8] == b
  {
    SubSlice(s, p, 8, 0, 4);
    SubSlice(s, p, 8, 4, 4);
    assert (a + b)[0..4] == a && (a + b)[4..8] == b;
  }

  /** With the FAT of a list of files, opening by id gives the range of the file with that number, taken modulo 2^29,
      and fails behind the last one. */
  lemma OpensById(s: seq<Byte>, fat: nat, ranges: seq<(nat, nat)>, id: nat)
    requires WordRanges(ranges) && fat + 8 * |ranges| <= |s|
    requires s[fat..fat + 8 * |ranges|] == FatOf(ranges)
    ensures FileRange(s, fat, 8 * |ranges|, id)
         == if id % 0x2000_0000 < |ranges| then Some(ranges[id % 0x2000_0000]) else None
  {
    hide StoredWord, FatOf, U32;
    EntryPosition(id);
    if id % 0x2000_0000 < |ranges| { ReadEntryAt(s, fat, ranges, id % 0x2000_0000); }
  }

  // ---- nothing changes for the reader ------------------------------------------------

  /** A table means the same wherever it is stored. */
  lemma Relocated(table: seq<Byte>, t: Tree, s: seq<Byte>, at: nat)
    requires Encodes(table, 0, t) && at + |table| <= |s| && s[at..at + |table|] == table
    ensures Encodes(s, at, t)
  {
    forall d | 0 <= d < |t|
      ensures DirAt(s, at, t, d)
    {
      RelocatedDir(table, t, s, at, d);
    }
  }

  lemma RelocatedDir(table: seq<Byte>, t: Tree, s: seq<Byte>, at: nat, d: nat)
    requires d < |t| && DirAt(table, 0, t, d) && at + |table| <= |s| && s[at..at + |table|] == table
    ensures DirAt(s, at, t, d)
  {
    hide EntriesAt, U16, U32;
    SameNumbers(table, s, at, 8 * d);
    SameNumbers(table, s, at, 8 * d + 4);
    assert Start(s, at, d) == at + Start(table, 0, d);
    RelocatedEntries(table, t[d].entries, s, at, Start(table, 0, d));
  }

  lemma SameNumbers(table: seq<Byte>, s: seq<Byte>, at: nat, p: nat)
    requires at + |table| <= |s| && s[at..at + |table|] == table && p + 4 <= |table|
    ensures U32(s, at + p) == U32(table, p)
    ensures U16(s, at + p) == U16(table, p) && U16(s, at + p + 2) == U16(table, p + 2)
  {
    forall i | p <= i < p + 4 ensures s[at + i] == table[i] { assert s[at..at + |table|][i] == table[i]; }
  }

  lemma RelocatedEntries(table: seq<Byte>, es: seq<Entry>, s: seq<Byte>, at: nat, p: nat)
    requires EntriesAt(table, p, es) && at + |table| <= |s| && s[at..at + |table|] == table
    ensures EntriesAt(s, at + p, es)
  {
    hide EntryAt, Offset;
    forall k | 0 <= k < |es|
      ensures EntryAt(s, at + p + Offset(es, k), es[k])
    {
      RelocatedEntry(table, es[k], s, at, p + Offset(es, k));
      assert at + p + Offset(es, k) == at + (p + Offset(es, k));
    }
    assert s[at..at + |table|][p + Offset(es, |es|)] == table[p + Offset(es, |es|)];
  }

  /** An implication rather than a requires, so that it can be used with EntryAt hidden. */
  lemma RelocatedEntry(table: seq<Byte>, e: Entry, s: seq<Byte>, at: nat, q: nat)
    requires at + |table| <= |s| && s[at..at + |table|] == table
    ensures EntryAt(table, q, e) ==> EntryAt(s, at + q, e)
  {
    if EntryAt(table, q, e) {
      var n := |e.name|;
      forall i | q <= i < q + Size(e) ensures s[at + i] == table[i] { assert s[at..at + |table|][i] == table[i]; }
      assert s[at + q + 1..at + q + 1 + n] == table[q + 1..q + 1 + n];
    }
  }

  /** After a load whose reads succeed, the name table means the same tree and every file id the same
      range. `at` is where the cache begins, `was` and `memory` what main memory held and holds. */
  lemma PreloadKeepsLookups(image: seq<Byte>, was: seq<Byte>, memory: seq<Byte>, fat: nat, fatSize: nat, fnt: nat,
                            fntSize: nat,
                            at: nat, t: Tree, index: nat)
    requires fat + fatSize <= |image| && fnt + fntSize <= |image| && at + fatSize + fntSize <= |was|
    requires memory == BothTables(was, at, image[fat..fat + fatSize], image[fnt..fnt + fntSize])
    requires Encodes(image[fnt..fnt + fntSize], 0, t)
    ensures Encodes(image, fnt, t) && Encodes(memory, at + fatSize, t)
    ensures fatSize % 8 == 0 ==> FileRange(memory, at, fatSize, index) == FileRange(image, fat, fatSize, index)
  {
    var table := image[fnt..fnt + fntSize];
    TwoTables(was, image[fat..fat + fatSize], table, at);
    hide BothTables, Encodes;
    Relocated(table, t, image, fnt);
    Relocated(table, t, memory, at + fatSize);
    var pos := index * 8 % WORD;
    if fatSize % 8 == 0 && pos < fatSize {
      SameRange(image, memory, fat, fatSize, at, pos);
    }
  }

  lemma SameRange(image: seq<Byte>, memory: seq<Byte>, fat: nat, fatSize: nat, at: nat, pos: nat)
    requires fat + fatSize <= |image| && at + fatSize <= |memory| && pos + 8 <= fatSize
    requires memory[at..at + fatSize] == image[fat..fat + fatSize]
    ensures U32(memory, at + pos) == U32(image, fat + pos) && U32(memory, at + pos + 4) == U32(image, fat + pos + 4)
  {
    var table := image[fat..fat + fatSize];
    SameNumbers(table, memory, at, pos);
    SameNumbers(table, memory, at, pos + 4);
    SameNumbers(table, image, fat, pos);
    SameNumbers(table, image, fat, pos + 4);
  }

  /** Lookup of a path, before and after a load whose reads succeed, of tables below 2^31 bytes: from any directory,
      with the same result. */
  method LookupAcrossLoad(arc: Archive, mem: nat, maxSize: nat, ghost t: Tree, dirId: nat,
                          path: seq<Byte>, isDir: bool) returns (before: Found, after: Found, overrun: bool)
    requires arc.fat + arc.fatSize <= |arc.image| && arc.fnt + arc.fntSize <= |arc.image| && !arc.inMemory
    requires mem + maxSize <= arc.memory.Length <= WORD - 64 && arc.fatSize < HALF && arc.fntSize < HALF
    requires Closed(t) && FindPath.Numbered(t) && Encodes(arc.image[arc.fnt..arc.fnt + arc.fntSize], 0, t)
    requires dirId < |t| && FindPath.CString(path)
    modifies arc, arc.memory
    ensures !overrun ==> after == before
  {
    hide Encodes, Resolve;
    Relocated(arc.image[arc.fnt..arc.fnt + arc.fntSize], t, arc.image, arc.fnt);
    before := LookupIn(arc.image, arc.fnt, t, dirId, path, isDir);
    overrun := LoadGoodTables(arc, mem, maxSize, t);
    after := before;
    if !overrun {
      after := LookupIn(if arc.inMemory then arc.memory[..] else arc.image, arc.fnt, t, dirId, path, isDir);
    }
  }

  /** A load whose reads succeed, of a table that encodes a tree. */
  method LoadGoodTables(arc: Archive, mem: nat, maxSize: nat, ghost t: Tree) returns (overrun: bool)
    requires arc.fat + arc.fatSize <= |arc.image| && arc.fnt + arc.fntSize <= |arc.image| && !arc.inMemory
    requires mem + maxSize <= arc.memory.Length <= WORD - 64 && arc.fatSize < HALF && arc.fntSize < HALF
    requires Encodes(arc.image[arc.fnt..arc.fnt + arc.fntSize], 0, t)
    modifies arc, arc.memory
    ensures !overrun ==> Encodes(if arc.inMemory then arc.memory[..] else arc.image, arc.fnt, t)
  {
    hide Encodes, Stored;
    ghost var was, fat, fnt := arc.memory[..], arc.fat, arc.fnt;
    Relocated(arc.image[arc.fnt..arc.fnt + arc.fntSize], t, arc.image, arc.fnt);
    var total;
    total, overrun := arc.LoadTables(mem, maxSize, ReadOk, ReadOk);
    if !overrun && total <= maxSize {
      InsideExact(mem, maxSize, arc.fatSize, arc.fntSize, arc.fatSize, arc.fntSize);
      SizeExact(mem, arc.fatSize, arc.fntSize);
      LoadedEncodes(arc.image, was, arc.memory[..], fat, arc.fatSize, fnt, arc.fntSize, Align32(mem), t);
    }
  }

  lemma LoadedEncodes(image: seq<Byte>, was: seq<Byte>, memory: seq<Byte>, fat: nat, fatSize: nat, fnt: nat,
                      fntSize: nat, at: nat, t: Tree)
    requires fat + fatSize <= |image| && fnt + fntSize <= |image| && at + fatSize + fntSize <= |was|
    requires memory == Stored(Stored(was, at, image[fat..fat + fatSize]), at + fatSize, image[fnt..fnt + fntSize])
    requires Encodes(image[fnt..fnt + fntSize], 0, t)
    ensures Encodes(memory, at + fatSize, t)
  {
    hide Encodes, BothTables, Stored;
    StoredBoth(was, at, image[fat..fat + fatSize], image[fnt..fnt + fntSize]);
    PreloadKeepsLookups(image, was, memory, fat, fatSize, fnt, fntSize, at, t, 0);
  }

  /** Opening by id before a load whose reads succeed, after it, and after unloading again, of tables below 2^31 bytes
      with whole FAT entries: the same range three times. */
  method OpenAcrossLoad(arc: Archive, mem: nat, maxSize: nat, id: nat)
    returns (before: Option<(nat, nat)>, after: Option<(nat, nat)>, again: Option<(nat, nat)>, freed: Option<nat>,
             overrun: bool)
    requires arc.fat + arc.fatSize <= |arc.image| && arc.fnt + arc.fntSize <= |arc.image|
    requires arc.View() == Tables(arc.fatBak, arc.fntBak, false, None, false)
    requires mem + maxSize <= arc.memory.Length <= WORD - 64 && arc.fatSize < HALF && arc.fntSize < HALF
    requires arc.fatSize % 8 == 0
    modifies arc, arc.memory
    ensures before == FileRange(arc.image, arc.fatBak, arc.fatSize, id)
    ensures !overrun ==> after == before && again == before
    ensures !overrun ==> freed == if ReportedSize(arc.fatSize, arc.fntSize) <= maxSize then Some(mem) else None
    ensures !overrun ==> arc.View() == old(arc.View())
  {
    hide FileRange, Stored;
    ghost var was, fat, fnt := arc.memory[..], arc.fat, arc.fnt;
    before := arc.OpenFileFast(id);
    var total;
    total, overrun := arc.LoadTables(mem, maxSize, ReadOk, ReadOk);
    if overrun { return before, before, before, None, true; }
    if total <= maxSize {
      InsideExact(mem, maxSize, arc.fatSize, arc.fntSize, arc.fatSize, arc.fntSize);
      SizeExact(mem, arc.fatSize, arc.fntSize);
      LoadedRange(arc.image, was, arc.memory[..], fat, arc.fatSize, fnt, arc.fntSize, Align32(mem), id);
    }
    after := arc.OpenFileFast(id);
    freed := arc.UnloadTables();
    again := arc.OpenFileFast(id);
  }

  lemma LoadedRange(image: seq<Byte>, was: seq<Byte>, memory: seq<Byte>, fat: nat, fatSize: nat, fnt: nat,
                    fntSize: nat, at: nat, id: nat)
    requires fat + fatSize <= |image| && fnt + fntSize <= |image| && at + fatSize + fntSize <= |was|
    requires memory == Stored(Stored(was, at, image[fat..fat + fatSize]), at + fatSize, image[fnt..fnt + fntSize])
    requires fatSize % 8 == 0
    ensures FileRange(memory, at, fatSize, id) == FileRange(image, fat, fatSize, id)
  {
    hide BothTables, Stored;
    StoredBoth(was, at, image[fat..fat + fatSize], image[fnt..fnt + fntSize]);
    TwoTables(was, image[fat..fat + fatSize], image[fnt..fnt + fntSize], at);
    var pos := id * 8 % WORD;
    if pos < fatSize { SameRange(image, memory, fat, fatSize, at, pos); }
  }

  method LookupIn(image: seq<Byte>, fnt: nat, ghost t: Tree, dirId: nat, path: seq<Byte>,
                  isDir: bool) returns (found: Found)
    requires Closed(t) && FindPath.Numbered(t) && Encodes(image, fnt, t) && dirId < |t| && FindPath.CString(path)
    ensures found == Resolve(t, dirId, 0, path, isDir)
  {
    hide Encodes, Resolve;
    HeaderAt(image, fnt, t, dirId);
    var h := new DirHandle(image, fnt);
    ghost var at;
    found, at := FindPath.FindPathCommand(h, t, DirPos(dirId, 0, 0), 0, path, isDir);
  }

  /** Unloading gives back the state before the load. */
  lemma UnloadRestores(s: Tables, mem: nat, fatSize: nat)
    requires !s.inMemory && s.loadMem == None && !s.tableLoad
    ensures UnloadedTables(LoadedTables(s, mem, fatSize), s.fat, s.fnt) == s
  {}
}
