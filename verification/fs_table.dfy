/** The byte encoding of a directory tree (the FNT) and the directory handle that reads it:
    FSi_ReadTable, FSi_SeekDirCommand and FSi_ReadDirCommand of fs_command_default.c. */
module NameTable {
  import opened Basics
  import opened Bytes
  import opened NameTree

  /** FSDirEntry: `id` is the directory id or the file id; the name is left out when it was skipped. */
  datatype Info = Info(isDirectory: bool, nameLen: nat, name: seq<Byte>, id: nat)

  // ---- the encoding ------------------------------------------------------------------

  function U16(s: seq<Byte>, p: nat): nat
    requires p + 2 <= |s|
  {
    s[p] as int + 0x100 * (s[p + 1] as int)
  }

  function U32(s: seq<Byte>, p: nat): nat
    requires p + 4 <= |s|
  {
    U16(s, p) + 0x1_0000 * U16(s, p + 2)
  }

  function Size(e: Entry): nat {
    1 + |e.name| + if e.DirEntry? then 2 else 0
  }

  /** A length byte with bit 7 for directories, the name, and for directories a 16-bit id. */
  predicate EntryAt(s: seq<Byte>, p: nat, e: Entry) {
    var n := |e.name|;
    && 0 < n <= NAME_MAX && p + Size(e) <= |s|
    && s[p] == n + (if e.DirEntry? then 0x80 else 0) && s[p + 1..p + 1 + n] == e.name
    && (e.DirEntry? ==> U16(s, p + 1 + n) % MAX_DIRS == e.id)
  }

  function Offset(es: seq<Entry>, k: nat): nat
    requires k <= |es|
  {
    if k == 0 then 0 else Offset(es, k - 1) + Size(es[k - 1])
  }

  ghost predicate EntriesAt(s: seq<Byte>, p: nat, es: seq<Entry>) {
    && (forall k | 0 <= k < |es| :: EntryAt(s, p + Offset(es, k), es[k]))
    && p + Offset(es, |es|) < |s| && s[p + Offset(es, |es|)] % 0x80 == 0
  }

  function Start(s: seq<Byte>, fnt: nat, d: nat): nat
    requires fnt + 8 * d + 8 <= |s|
  {
    fnt + U32(s, fnt + 8 * d)
  }

  /** The parent field of the root holds the number of directories. */
  function ParentField(t: Tree, d: nat): nat
    requires d < |t|
  {
    if d == 0 then |t| % MAX_DIRS else t[d].parent
  }

  ghost predicate DirAt(s: seq<Byte>, fnt: nat, t: Tree, d: nat)
    requires d < |t|
  {
    && fnt + 8 * d + 8 <= |s|
    && EntriesAt(s, Start(s, fnt, d), t[d].entries)
    && U16(s, fnt + 8 * d + 4) == t[d].firstFile
    && U16(s, fnt + 8 * d + 6) % MAX_DIRS == ParentField(t, d)
  }

  ghost predicate Encodes(s: seq<Byte>, fnt: nat, t: Tree) {
    forall d | 0 <= d < |t| :: DirAt(s, fnt, t, d)
  }

  /** FSDirPos: a directory and, unless both numbers are 0, a place in it. */
  datatype DirPos = DirPos(ownId: nat, index: nat, pos: nat)

  /** `p` is the place in front of entry `k` of its directory. */
  ghost predicate Marks(s: seq<Byte>, fnt: nat, t: Tree, p: DirPos, k: nat) {
    && p.ownId < |t| && k <= |t[p.ownId].entries| && fnt + 8 * p.ownId + 8 <= |s|
    && if p.index == 0 && p.pos == 0 then k == 0
       else && p.index == (t[p.ownId].firstFile + FileCount(t[p.ownId].entries[..k])) % 0x1_0000
            && p.pos == Start(s, fnt, p.ownId) + Offset(t[p.ownId].entries, k)
  }

  // ---- decoding one entry ------------------------------------------------------------

  /** What FSi_ReadDirCommand makes of the bytes at `p` when the next file is number `index`. */
  function Decode(s: seq<Byte>, p: nat, index: nat, skip: bool): Option<Info> {
    if p + 1 > |s| then None
    else
      var n: nat, isDir := s[p] as int % 0x80, s[p] >= 0x80;
      if n == 0 || (!skip && p + 1 + n > |s|) then None
      else
        var name := if skip then [] else s[p + 1..p + 1 + n];
        if !isDir then Some(Info(false, n, name, index))
        else if p + 1 + n + 2 > |s| then None
        else Some(Info(true, n, name, U16(s, p + 1 + n) % MAX_DIRS))
  }

  function EntryInfo(e: Entry, index: nat, skip: bool): Info {
    Info(e.DirEntry?, |e.name|, if skip then [] else e.name, if e.DirEntry? then e.id else index)
  }

  /** Decoding succeeds on exactly the encoded entries, and gives the entry back. */
  lemma DecodeExact(s: seq<Byte>, p: nat, index: nat, e: Entry)
    ensures EntryAt(s, p, e) <==>
      Decode(s, p, index, false) == Some(EntryInfo(e, index, false)) && (e.FileEntry? ==> p + Size(e) <= |s|)
    ensures EntryAt(s, p, e) ==> Decode(s, p, index, true) == Some(EntryInfo(e, index, true))
  {}

  // ---- what a well-formed table says about one directory -----------------------------

  lemma HeaderAt(s: seq<Byte>, fnt: nat, t: Tree, d: nat)
    ensures Encodes(s, fnt, t) && d < |t| ==>
      && fnt + 8 * d + 8 <= |s| && U16(s, fnt + 8 * d + 4) == t[d].firstFile < 0x1_0000
      && U16(s, fnt + 8 * d + 6) % MAX_DIRS == ParentField(t, d)
  {
    if Encodes(s, fnt, t) && d < |t| { assert DirAt(s, fnt, t, d); }
  }

  lemma EntryOf(s: seq<Byte>, fnt: nat, t: Tree, d: nat, k: nat, index: nat, skip: bool)
    ensures Encodes(s, fnt, t) && d < |t| && fnt + 8 * d + 8 <= |s| && k < |t[d].entries| ==>
      Decode(s, Start(s, fnt, d) + Offset(t[d].entries, k), index, skip)
        == Some(EntryInfo(t[d].entries[k], index, skip))
  {
    hide Encodes, U16, Offset;
    if Encodes(s, fnt, t) && d < |t| && fnt + 8 * d + 8 <= |s| && k < |t[d].entries| {
      TableOf(s, fnt, t, d);
      DecodeExact(s, Start(s, fnt, d) + Offset(t[d].entries, k), index, t[d].entries[k]);
    }
  }

  lemma EndOf(s: seq<Byte>, fnt: nat, t: Tree, d: nat, index: nat, skip: bool)
    ensures Encodes(s, fnt, t) && d < |t| && fnt + 8 * d + 8 <= |s| ==>
      Decode(s, Start(s, fnt, d) + Offset(t[d].entries, |t[d].entries|), index, skip) == None
  {
    hide Encodes, U16, Offset;
    TableOf(s, fnt, t, d);
  }

  lemma TableOf(s: seq<Byte>, fnt: nat, t: Tree, d: nat)
    ensures Encodes(s, fnt, t) && d < |t| ==> fnt + 8 * d + 8 <= |s| && EntriesAt(s, Start(s, fnt, d), t[d].entries)
  {
    if Encodes(s, fnt, t) && d < |t| { assert DirAt(s, fnt, t, d); }
  }

  // ---- the directory handle ----------------------------------------------------------

  class DirHandle {
    const image: seq<Byte>   // what table_func reads from
    const fnt: nat

    var ownId: nat           // prop.dir.pos
    var index: nat
    var pos: nat
    var parent: nat

    /** Positioned in front of entry `k` of directory `d`. */
    ghost predicate At(t: Tree, d: nat, k: nat)
      reads this
    {
      && d < |t| && k <= |t[d].entries| && fnt + 8 * d + 8 <= |image|
      && ownId == d && parent == ParentField(t, d)
      && index == (t[d].firstFile + FileCount(t[d].entries[..k])) % 0x1_0000
      && pos == Start(image, fnt, d) + Offset(t[d].entries, k)
    }

    constructor (image: seq<Byte>, fnt: nat)
      ensures this.image == image && this.fnt == fnt
    {
      this.image, this.fnt := image, fnt;
      ownId, index, pos, parent := 0, 0, 0, 0;
    }

    /** FSi_ReadTable */
    method ReadTable(at: nat, len: nat) returns (bytes: Option<seq<Byte>>, behind: nat)
      ensures behind == at + len
      ensures bytes == if at + len <= |image| then Some(image[at..at + len]) else None
    {
      behind := at + len;
      bytes := if behind <= |image| then Some(image[at..behind]) else None;
    }

    /** FSi_SeekDirCommand */
    method SeekDir(to: DirPos) returns (ok: bool)
      modifies this
      ensures ok == (fnt + 8 * to.ownId + 8 <= |image|)
      ensures !ok ==> ownId == old(ownId) && index == old(index) && pos == old(pos) && parent == old(parent)
      ensures ok ==> ownId == to.ownId && parent == U16(image, fnt + 8 * to.ownId + 6) % MAX_DIRS
      ensures ok && to.index == 0 && to.pos == 0 ==>
        index == U16(image, fnt + 8 * to.ownId + 4) && pos == Start(image, fnt, to.ownId)
      ensures ok && !(to.index == 0 && to.pos == 0) ==> index == to.index && pos == to.pos
    {
      var header, _ := ReadTable(fnt + 8 * to.ownId, 8);
      ok := header.Some?;
      if ok {
        ownId, index, pos := to.ownId, to.index, to.pos;
        if to.index == 0 && to.pos == 0 {
          index := U16(header.value, 4);
          pos := fnt + U32(header.value, 0);
        }
        parent := U16(header.value, 6) % MAX_DIRS;
      }
    }

    /** FSi_SeekDirDirect on an archive with a well-formed table. */
    method SeekDirDirect(ghost t: Tree, id: nat)
      requires Encodes(image, fnt, t) && id < |t|
      modifies this
      ensures At(t, id, 0)
    {
      hide Encodes, U16, U32;
      HeaderAt(image, fnt, t, id);
      var _ := SeekDir(DirPos(id, 0, 0));
    }

    /** FSi_SeekDirCommand to a stored position. */
    method SeekDirTo(ghost t: Tree, to: DirPos, ghost k: nat)
      requires Encodes(image, fnt, t) && Marks(image, fnt, t, to, k)
      modifies this
      ensures At(t, to.ownId, k)
    {
      hide Encodes, U16, U32;
      HeaderAt(image, fnt, t, to.ownId);
      var _ := SeekDir(to);
    }

    /** FSi_ReadDirCommand */
    method ReadDir(skip: bool) returns (entry: Option<Info>)
      modifies `index, `pos
      ensures entry == Decode(image, old(pos), old(index), skip)
      ensures pos == if entry.None? then old(pos) else
        old(pos) + 1 + entry.value.nameLen + if entry.value.isDirectory then 2 else 0
      ensures index == if entry.None? || entry.value.isDirectory then old(index) else (old(index) + 1) % 0x1_0000
    {
      entry := None;
      var first: Option<seq<Byte>>, at: nat := ReadTable(pos, 1);
      if first.None? { return; }
      var len: nat, isDirectory, name: seq<Byte> := first.value[0] as int % 0x80, first.value[0] >= 0x80, [];
      if len == 0 { return; }
      if skip {
        at := at + len;
      } else {
        var bytes: Option<seq<Byte>>, behind: nat := ReadTable(at, len);
        if bytes.None? { return; }
        name, at := bytes.value, behind;
      }
      if isDirectory {
        var id: Option<seq<Byte>>, behind: nat := ReadTable(at, 2);
        if id.None? { return; }
        entry := Some(Info(true, len, name, U16(id.value, 0) % MAX_DIRS));
        at := behind;
      } else {
        entry := Some(Info(false, len, name, index));
        index := (index + 1) % 0x1_0000;
      }
      pos := at;
    }

    /** Reading on from entry `k` yields the entries of the directory one by one, files with
        consecutive ids, and fails behind the last one. */
    method ReadEntry(ghost t: Tree, ghost d: nat, ghost k: nat, skip: bool) returns (entry: Option<Info>)
      requires Encodes(image, fnt, t) && At(t, d, k) && t[d].firstFile + FileCount(t[d].entries) <= 0x1_0000
      modifies `index, `pos
      ensures k == |t[d].entries| ==> entry == None && At(t, d, k)
      ensures k < |t[d].entries| ==>
        entry == Some(EntryInfo(t[d].entries[k], FileId(t[d], k), skip)) && At(t, d, k + 1)
        && (t[d].entries[k].FileEntry? ==> FileId(t[d], k) < 0x1_0000)
    {
      hide Encodes, U16, U32, Decode;
      EntryOf(image, fnt, t, d, k, index, skip);
      EndOf(image, fnt, t, d, index, skip);
      CountNext(t[d].entries, k);
      entry := ReadDir(skip);
    }
  }

  lemma {:induction false} CountPrefix(es: seq<Entry>, k: nat)
    requires k <= |es|
    ensures FileCount(es[..k]) <= FileCount(es)
    decreases |es|
  {
    if k < |es| {
      var init := es[..|es| - 1];
      CountPrefix(init, k);
      assert init[..k] == es[..k];
    } else {
      assert es[..k] == es;
    }
  }

  lemma CountNext(es: seq<Entry>, k: nat)
    ensures k < |es| ==>
      FileCount(es[..k]) + (if es[k].FileEntry? then 1 else 0) == FileCount(es[..k + 1]) <= FileCount(es)
  {
    if k < |es| {
      assert es[..k + 1][..k] == es[..k];
      CountPrefix(es, k + 1);
    }
  }
}
