/** FSi_GetPathCommand of fs_command_default.c: the length pass and the right-to-left fill. */
module GetPath {
  import opened Basics
  import opened Bytes
  import opened NameTree
  import opened NameTable
  import opened PathName

  ghost predicate HasFile(t: Tree, d: nat, k: nat, id: nat) {
    d < |t| && k < |t[d].entries| && t[d].entries[k].FileEntry? && FileId(t[d], k) == id
  }

  /** The directories in which FSi_GetPathCommand looks for a file: with 4096 directories the 12-bit
      number of directories reads as zero, and only the root is searched. */
  function Searched(t: Tree): nat {
    if |t| == MAX_DIRS then 1 else |t|
  }

  ghost predicate NotIn(t: Tree, d: nat, id: nat) {
    forall k :: !HasFile(t, d, k, id)
  }

  ghost predicate NotListed(t: Tree, id: nat) {
    forall d :: 0 <= d < Searched(t) ==> NotIn(t, d, id)
  }

  /** The inner search for a file in directory `d`. */
  method FindFileEntry(h: DirHandle, ghost t: Tree, ghost d: nat, id: nat, skip: bool)
    returns (entry: Option<Info>, ghost k: nat)
    requires Encodes(h.image, h.fnt, t) && h.At(t, d, 0)
    requires t[d].firstFile + FileCount(t[d].entries) <= 0x1_0000
    modifies h`index, h`pos
    ensures h.ownId == d && h.parent == ParentField(t, d)
    ensures entry.Some? ==> HasFile(t, d, k, id) && entry == Some(EntryInfo(t[d].entries[k], id, skip))
    ensures entry.None? ==> NotIn(t, d, id)
  {
    hide Encodes;
    k := 0;
    while true
      invariant h.At(t, d, k) && forall j :: 0 <= j < k ==> !HasFile(t, d, j, id)
      decreases |t[d].entries| - k
    {
      entry := h.ReadEntry(t, d, k, skip);
      if entry.None? { return; }
      if !entry.value.isDirectory && entry.value.id == id { return; }
      k := k + 1;
    }
  }

  /** The inner search for subdirectory `id` in directory `d`. */
  method FindDirEntry(h: DirHandle, ghost t: Tree, ghost d: nat, id: nat, skip: bool) returns (entry: Option<Info>)
    requires Encodes(h.image, h.fnt, t) && h.At(t, d, 0)
    requires t[d].firstFile + FileCount(t[d].entries) <= 0x1_0000
    modifies h`index, h`pos
    ensures h.ownId == d && h.parent == ParentField(t, d)
    ensures var k := IndexOf(t[d].entries, 0, id);
            entry == if k < |t[d].entries| then Some(EntryInfo(t[d].entries[k], 0, skip)) else None
  {
    hide Encodes;
    ghost var k, es := 0, t[d].entries;
    while true
      invariant h.At(t, d, k) && forall j :: 0 <= j < k ==> es[j] != DirEntry(es[j].name, id)
      decreases |es| - k
    {
      entry := h.ReadEntry(t, d, k, skip);
      if entry.None? { return; }
      if entry.value.isDirectory && entry.value.id == id { return; }
      k := k + 1;
    }
  }

  lemma Listed(t: Tree, d: nat, k: nat, id: nat)
    ensures HasFile(t, d, k, id) && d < Searched(t) ==> !NotListed(t, id)
  {
    if HasFile(t, d, k, id) && d < Searched(t) { assert !NotIn(t, d, id); }
  }

  /** A file that exists is missed exactly when there are 4096 directories and it is not in the root. */
  lemma SearchExact(t: Tree, d: nat, k: nat, id: nat)
    requires 0 < |t| <= MAX_DIRS && HasFile(t, d, k, id)
    ensures NotListed(t, id) <==> |t| == MAX_DIRS && NotIn(t, 0, id)
  {
    Listed(t, d, k, id);
  }

  /** One directory of the search; `numDir` is what the parent field of the root says. */
  method SearchDir(h: DirHandle, ghost t: Tree, ghost rank: seq<nat>, pos: nat, numDir0: nat, id: nat)
    returns (entry: Option<Info>, numDir: nat, ghost k: nat)
    requires GoodTree(t, rank) && Encodes(h.image, h.fnt, t) && pos < |t|
    modifies h
    ensures h.ownId == pos && numDir == if pos == 0 then |t| % MAX_DIRS else numDir0
    ensures entry.Some? ==> HasFile(t, pos, k, id) && entry.value.nameLen == |t[pos].entries[k].name|
    ensures entry.None? ==> NotIn(t, pos, id)
  {
    hide Encodes;
    h.SeekDirDirect(t, pos);
    numDir := if pos == 0 then h.parent else numDir0;
    assert GoodDir(t, pos);
    entry, k := FindFileEntry(h, t, pos, id, true);
  }

  /** The search for the directory of a file. */
  method FindFile(h: DirHandle, ghost t: Tree, ghost rank: seq<nat>, id: nat)
    returns (dirId: Option<nat>, nameLen: nat, ghost k: nat)
    requires GoodTree(t, rank) && Encodes(h.image, h.fnt, t)
    modifies h
    ensures dirId.Some? ==> dirId.value < Searched(t) && HasFile(t, dirId.value, k, id)
                            && nameLen == |t[dirId.value].entries[k].name|
    ensures dirId.None? <==> NotListed(t, id)
  {
    hide Encodes, NotIn;
    dirId, nameLen, k := None, 0, 0;
    var pos, numDir := 0, 0;
    while true
      invariant pos < Searched(t) && (pos != 0 ==> numDir == |t| % MAX_DIRS)
      invariant forall d :: 0 <= d < pos ==> NotIn(t, d, id)
      decreases |t| - pos
    {
      var entry;
      entry, numDir, k := SearchDir(h, t, rank, pos, numDir, id);
      if entry.Some? {
        Listed(t, pos, k, id);
        dirId, nameLen := Some(h.ownId), entry.value.nameLen;
        return;
      }
      pos := pos + 1;
      if pos >= numDir { break; }
    }
  }

  /** The first pass over the parents. */
  method MeasureDirs(h: DirHandle, ghost t: Tree, ghost rank: seq<nat>, dirId: nat) returns (len: nat)
    requires GoodTree(t, rank) && Encodes(h.image, h.fnt, t) && dirId < |t|
    modifies h
    ensures len == |PathOf(t, rank, dirId)|
  {
    hide Encodes;
    len := 0;
    var id := dirId;
    if id != 0 {
      h.SeekDirDirect(t, id);
      while id != 0
        invariant 0 <= id < |t| && (id != 0 ==> h.parent == t[id].parent)
        invariant len + |PathOf(t, rank, id)| == |PathOf(t, rank, dirId)|
        decreases rank[id]
      {
        h.SeekDirDirect(t, h.parent);
        assert GoodDir(t, h.ownId);
        var entry := FindDirEntry(h, t, h.ownId, id, true);
        len := len + entry.value.nameLen + 1;
        id := h.ownId;
      }
    }
  }

  /** The handle moves to the parent of `id` and reads the name of `id` there. */
  method ReadName(h: DirHandle, ghost t: Tree, ghost rank: seq<nat>, id: nat) returns (name: seq<Byte>)
    requires GoodTree(t, rank) && Encodes(h.image, h.fnt, t) && 0 < id < |t| && h.At(t, t[id].parent, 0)
    modifies h
    ensures h.ownId == t[id].parent && h.parent == ParentField(t, h.ownId)
    ensures name == DirName(t, rank, id)
  {
    hide Encodes;
    assert GoodDir(t, h.ownId);
    var entry := FindDirEntry(h, t, h.ownId, id, false);
    name := entry.value.name;
  }

  /** One directory of the second pass: "name/" goes in front of `end`, unless it would begin in front of the
      buffer. */
  method FillName(h: DirHandle, ghost t: Tree, ghost rank: seq<nat>, id: nat, dst: array<Byte>, end: nat)
    returns (front: Option<nat>)
    requires GoodTree(t, rank) && Encodes(h.image, h.fnt, t) && 0 < id < |t|
    requires h.parent == t[id].parent && end <= dst.Length
    modifies h, dst
    ensures front.Some? <==> |DirName(t, rank, id)| < end
    ensures front.Some? ==> h.ownId == t[id].parent && h.parent == ParentField(t, h.ownId)
    ensures front.Some? ==> front.value + |DirName(t, rank, id)| + 1 == end
    ensures front.Some? ==>
      dst[..] == old(dst[..])[..front.value] + (DirName(t, rank, id) + [SLASH]) + old(dst[..])[end..]
  {
    hide Encodes, DirName;
    if end == 0 { return None; }
    h.SeekDirDirect(t, h.parent);
    ghost var was := dst[..];
    dst[end - 1] := SLASH;
    assert dst[..] == was[..end - 1] + [SLASH] + was[end..];
    var name := ReadName(h, t, rank, id);
    if |name| > end - 1 { return None; }
    Copy(name, dst, end - 1 - |name|);
    front := Some(end - 1 - |name|);
  }

  /** Writing `piece` in front of the part that is done leaves a longer part done. */
  lemma Grown(was: seq<Byte>, now: seq<Byte>, want: seq<Byte>, head: seq<Byte>, piece: seq<Byte>, end: nat)
    requires |want| <= |was| && |head| + |piece| == end <= |want| && want[..end] == head + piece
    requires was[end..|want|] == want[end..] && now == was[..|head|] + piece + was[end..]
    ensures now[|head|..|want|] == want[|head|..] && want[..|head|] == head
    ensures now[..|head|] == was[..|head|] && now[|want|..] == was[|want|..]
  {
    assert want == head + piece + want[end..];
    assert now[|head|..|want|] == piece + was[end..|want|];
  }

  lemma PathStep(t: Tree, rank: seq<nat>, d: nat, prefix: seq<Byte>)
    requires GoodTree(t, rank) && d < |t|
    ensures if d == 0 then PathOf(t, rank, d) == []
            else prefix + PathOf(t, rank, d)
                 == (prefix + PathOf(t, rank, t[d].parent)) + (DirName(t, rank, d) + [SLASH])
  {
    hide DirName, IndexOf;
    if d != 0 { Regrouped(prefix, PathOf(t, rank, t[d].parent), DirName(t, rank, d), [SLASH]); }
  }

  lemma Regrouped(a: seq<Byte>, b: seq<Byte>, c: seq<Byte>, d: seq<Byte>)
    ensures a + (b + c + d) == (a + b) + (c + d)
  {}

  /** In front of `end` the string `want` goes on with the prefix and the path of `id`, and from `end` on it is
      in the buffer; what was there in place of the prefix and behind the string has not changed. */
  ghost predicate Done(t: Tree, rank: seq<nat>, id: nat, now: seq<Byte>, was: seq<Byte>, prefix: seq<Byte>,
                       want: seq<Byte>, end: nat)
    requires GoodTree(t, rank) && id < |t|
  {
    && |prefix| <= end <= |want| <= |now| == |was| && want[..end] == prefix + PathOf(t, rank, id)
    && now[end..|want|] == want[end..]
    && now[..|prefix|] == was[..|prefix|] && now[|want|..] == was[|want|..]
  }

  lemma DoneStep(t: Tree, rank: seq<nat>, id: nat, now: seq<Byte>, next: seq<Byte>, was: seq<Byte>, prefix: seq<Byte>,
                 want: seq<Byte>, end: nat, front: nat)
    requires GoodTree(t, rank) && 0 < id < |t| && front + |DirName(t, rank, id)| + 1 == end <= |now|
    requires next == now[..front] + (DirName(t, rank, id) + [SLASH]) + now[end..]
    ensures Done(t, rank, id, now, was, prefix, want, end) ==>
      Done(t, rank, t[id].parent, next, was, prefix, want, front)
  {
    hide PathOf, DirName;
    if Done(t, rank, id, now, was, prefix, want, end) {
      PathStep(t, rank, id, prefix);
      var head := prefix + PathOf(t, rank, t[id].parent);
      Grown(now, next, want, head, DirName(t, rank, id) + [SLASH], end);
      SamePrefix(now, next, |prefix|, |head|);
    }
  }

  /** The second pass over the parents, from right to left: it fails if the path of the directory is longer
      than what is in front of `total`. If `want` is the string to be written and [total..] of it is there
      already, then the pass ends right behind the prefix and the whole string but the prefix is there. */
  method FillDirs(h: DirHandle, ghost t: Tree, ghost rank: seq<nat>, dirId: nat, dst: array<Byte>, total: nat,
                  ghost prefix: seq<Byte>, ghost want: seq<Byte>) returns (end: Option<nat>)
    requires GoodTree(t, rank) && Encodes(h.image, h.fnt, t) && dirId < |t| && total <= dst.Length
    requires h.ownId == dirId && h.parent == ParentField(t, dirId)
    modifies h, dst
    ensures end.Some? <==> |PathOf(t, rank, dirId)| <= total
    ensures end.Some? ==> end.value == total - |PathOf(t, rank, dirId)|
    ensures end.Some? && Done(t, rank, dirId, old(dst[..]), old(dst[..]), prefix, want, total) ==>
      Done(t, rank, 0, dst[..], old(dst[..]), prefix, want, end.value)
  {
    hide Encodes, PathOf, DirName, Done;
    var id: nat, at: nat := dirId, total;
    ghost var was := dst[..];
    while id != 0
      invariant 0 <= id < |t| && h.ownId == id && h.parent == ParentField(t, id)
      invariant at <= dst.Length && at + |PathOf(t, rank, dirId)| == total + |PathOf(t, rank, id)|
      invariant Done(t, rank, dirId, was, was, prefix, want, total) ==>
        Done(t, rank, id, dst[..], was, prefix, want, at)
      decreases rank[id]
    {
      PathStep(t, rank, id, prefix);
      ghost var now := dst[..];
      var front := FillName(h, t, rank, id, dst, at);
      if front.None? { return None; }
      DoneStep(t, rank, id, now, dst[..], was, prefix, want, at, front.value);
      at := front.value;
      id := h.ownId;
    }
    PathStep(t, rank, 0, prefix);
    end := Some(at);
  }

  lemma SamePrefix(a: seq<Byte>, b: seq<Byte>, m: nat, n: nat)
    requires m <= n <= |a| && n <= |b| && a[..n] == b[..n]
    ensures a[..m] == b[..m]
  {
    assert a[..m] == a[..n][..m] && b[..m] == b[..n][..m];
  }

  // ---- the command -------------------------------------------------------------------

  /** What an FSFile stands for. */
  datatype Own = OfDir(dirId: nat) | OfFile(fileId: nat)

  /** The results that FSGetPathInfo keeps between two calls. */
  class PathInfo {
    var totalLen: nat
    var dirId: nat

    constructor ()
      ensures totalLen == 0 && dirId == 0
    {
      totalLen, dirId := 0, 0;
    }
  }

  /** How FSi_GetPathCommand ends: Overrun is a write outside the buffer, with which the model stops. */
  datatype Outcome = Complete | Failed | Overrun

  /** `own` is directory `d`, or the file of entry `k` in directory `d`. */
  ghost predicate Denotes(t: Tree, own: Own, d: nat, k: nat) {
    match own
    case OfDir(id) => d == id < |t|
    case OfFile(id) => HasFile(t, d, k, id)
  }

  function Prefix(pack: nat): seq<Byte> {
    NameBytes(pack)[..NameLength(pack)] + [COLON, SLASH]
  }

  ghost function FileName(t: Tree, own: Own, d: nat, k: nat): seq<Byte>
    requires Denotes(t, own, d, k)
  {
    if own.OfDir? then [] else t[d].entries[k].name
  }

  ghost function FullPath(t: Tree, rank: seq<nat>, pack: nat, own: Own, d: nat, k: nat): seq<Byte>
    requires GoodTree(t, rank) && Denotes(t, own, d, k)
  {
    Prefix(pack) + PathOf(t, rank, d) + FileName(t, own, d, k)
  }

  lemma {:induction false} FileCountGrows(es: seq<Entry>, i: nat, j: nat)
    requires i < j <= |es| && es[i].FileEntry?
    ensures FileCount(es[..i]) < FileCount(es[..j])
  {
    CountNext(es, i);
    assert es[..j][..i + 1] == es[..i + 1];
    CountPrefix(es[..j], i + 1);
  }

  /** In one directory no two files have the same id. */
  lemma OneEntry(t: Tree, d: nat, i: nat, j: nat, id: nat)
    requires HasFile(t, d, i, id) && HasFile(t, d, j, id)
    ensures i == j
  {
    if i < j { FileCountGrows(t[d].entries, i, j); } else if j < i { FileCountGrows(t[d].entries, j, i); }
  }

  /** The length that the first pass stores, as a 16-bit number. */
  ghost predicate Known(t: Tree, rank: seq<nat>, pack: nat, own: Own, d: nat, k: nat, totalLen: nat)
    requires GoodTree(t, rank)
  {
    Denotes(t, own, d, k) && totalLen == (|FullPath(t, rank, pack, own, d, k)| + 1) % 0x1_0000
  }

  /** `s` is the whole path as a C string. */
  ghost predicate Spells(t: Tree, rank: seq<nat>, pack: nat, own: Own, d: nat, k: nat, s: seq<Byte>)
    requires GoodTree(t, rank)
  {
    Denotes(t, own, d, k) && s == FullPath(t, rank, pack, own, d, k) + [0]
  }

  /** The whole path with its NUL fits the 16-bit length. */
  ghost predicate Fits(t: Tree, rank: seq<nat>, pack: nat, own: Own, d: nat, k: nat)
    requires GoodTree(t, rank)
  {
    Denotes(t, own, d, k) && |FullPath(t, rank, pack, own, d, k)| + 1 < 0x1_0000
  }

  /** Filled from its stored length downwards, the path ends behind the prefix exactly if it fits; else it
      ends more than the length of the prefix in front of the buffer. */
  lemma LengthWraps(t: Tree, rank: seq<nat>, pack: nat, own: Own, d: nat, k: nat, totalLen: nat)
    requires GoodTree(t, rank) && Known(t, rank, pack, own, d, k, totalLen)
    ensures var end := totalLen - 1 - |FileName(t, own, d, k)| - |PathOf(t, rank, d)|;
      if Fits(t, rank, pack, own, d, k) then end == |Prefix(pack)| else end < -|Prefix(pack)|
  {
    assert |Prefix(pack)| <= 5;
    hide GoodTree, PathOf, FileName, Prefix, Denotes;
    assert |FullPath(t, rank, pack, own, d, k)| == |Prefix(pack)| + |PathOf(t, rank, d)| + |FileName(t, own, d, k)|;
    Wrapped(|FullPath(t, rank, pack, own, d, k)| + 1, totalLen);
  }

  lemma Wrapped(n: nat, len: nat)
    requires len == n % 0x1_0000
    ensures if n < 0x1_0000 then len == n else len + 0x1_0000 <= n
  {}

  lemma SpliceTail(a: seq<Byte>, at: nat, src: seq<Byte>, n: nat)
    requires at + |src| <= n <= |a|
    ensures (a[..at] + src + a[at + |src|..])[n..] == a[n..]
  {}

  /** The prefix at the front of the buffer. */
  method FillPrefix(pack: nat, dst: array<Byte>) returns (ok: bool)
    modifies dst
    ensures ok == (NameLength(pack) + 2 <= dst.Length)
    ensures ok ==> dst[..] == Prefix(pack) + old(dst[..])[NameLength(pack) + 2..]
  {
    var len := NameLength(pack);
    ok := len + 2 <= dst.Length;
    if !ok { return; }
    ghost var was := dst[..];
    Copy(NameBytes(pack)[..len], dst, 0);
    Copy([COLON, SLASH], dst, len);
    assert dst[..] == NameBytes(pack)[..len] + [COLON, SLASH] + was[len + 2..];
  }

  /** The fill of the buffer, from both ends. It stays in the buffer exactly if the path fits. */
  method FillPath(h: DirHandle, ghost t: Tree, ghost rank: seq<nat>, pack: nat, own: Own, dirId: nat,
                  dst: array<Byte>, totalLen: nat, ghost k: nat) returns (ok: bool)
    requires GoodTree(t, rank) && Encodes(h.image, h.fnt, t) && totalLen <= dst.Length
    requires Known(t, rank, pack, own, dirId, k, totalLen)
    modifies h, dst
    ensures ok <==> Fits(t, rank, pack, own, dirId, k)
    ensures ok ==>
      Spells(t, rank, pack, own, dirId, k, dst[..totalLen]) && dst[..][totalLen..] == old(dst[..])[totalLen..]
  {
    hide Encodes, PathOf, FileName, Done;
    LengthWraps(t, rank, pack, own, dirId, k, totalLen);
    ghost var name, start := FileName(t, own, dirId, k) + [0], dst[..];
    ok := FillPrefix(pack, dst);
    if !ok { return; }
    ghost var first := dst[..];
    h.SeekDirDirect(t, dirId);
    var tail := FillFileName(h, t, rank, own, dirId, dst, totalLen, k);
    if tail.None? { return false; }
    ghost var second, want := dst[..], FullPath(t, rank, pack, own, dirId, k) + [0];
    var end := FillDirs(h, t, rank, dirId, dst, tail.value, Prefix(pack), want);
    ok := end.Some?;
    if ok { Filled(t, rank, pack, own, dirId, k, start, first, second, dst[..], tail.value, totalLen); }
  }

  /** The three parts of the fill together: the prefix, the file name, the directories. */
  lemma Filled(t: Tree, rank: seq<nat>, pack: nat, own: Own, d: nat, k: nat, start: seq<Byte>, first: seq<Byte>,
               second: seq<Byte>, now: seq<Byte>, tail: nat, totalLen: nat)
    requires GoodTree(t, rank) && Denotes(t, own, d, k) && |Prefix(pack)| <= |start|
    requires totalLen == |FullPath(t, rank, pack, own, d, k)| + 1 <= |start|
    requires first == Prefix(pack) + start[|Prefix(pack)|..]
    requires tail + |FileName(t, own, d, k)| + 1 == totalLen
    requires second == first[..tail] + (FileName(t, own, d, k) + [0]) + first[totalLen..]
    requires var want := FullPath(t, rank, pack, own, d, k) + [0];
      Done(t, rank, d, second, second, Prefix(pack), want, tail) ==>
        Done(t, rank, 0, now, second, Prefix(pack), want, |Prefix(pack)|)
    ensures now[..totalLen] == FullPath(t, rank, pack, own, d, k) + [0] && now[totalLen..] == start[totalLen..]
  {
    hide PathOf, FileName;
    var prefix, name := Prefix(pack), FileName(t, own, d, k) + [0];
    var want := FullPath(t, rank, pack, own, d, k) + [0];
    SpliceTail(first, tail, name, totalLen);
    assert second[..|prefix|] == prefix && second[tail..totalLen] == name;
    assert want == prefix + PathOf(t, rank, d) + name;
    assert want[..tail] == prefix + PathOf(t, rank, d) && want[tail..] == name;
    assert Done(t, rank, d, second, second, prefix, want, tail);
    Joined(now, want, prefix, second);
    assert second[totalLen..] == first[totalLen..] == start[totalLen..];
  }

  lemma Joined(now: seq<Byte>, want: seq<Byte>, prefix: seq<Byte>, was: seq<Byte>)
    requires |prefix| <= |want| <= |now| == |was| && now[..|prefix|] == was[..|prefix|] == prefix == want[..|prefix|]
    requires now[|prefix|..|want|] == want[|prefix|..]
    ensures now[..|want|] == want
  {
    assert now[..|want|] == now[..|prefix|] + now[|prefix|..|want|];
    assert want == want[..|prefix|] + want[|prefix|..];
  }

  /** The file name with its final NUL, or the NUL alone. */
  method FillFileName(h: DirHandle, ghost t: Tree, ghost rank: seq<nat>, own: Own, ghost dirId: nat,
                      dst: array<Byte>, totalLen: nat, ghost k: nat) returns (tail: Option<nat>)
    requires GoodTree(t, rank) && Encodes(h.image, h.fnt, t) && Denotes(t, own, dirId, k) && h.At(t, dirId, 0)
    requires totalLen <= dst.Length
    modifies h, dst
    ensures tail.Some? <==> |FileName(t, own, dirId, k)| < totalLen
    ensures h.ownId == dirId && h.parent == ParentField(t, dirId)
    ensures tail.Some? ==> tail.value + |FileName(t, own, dirId, k)| + 1 == totalLen
    ensures tail.Some? ==>
      dst[..] == old(dst[..])[..tail.value] + (FileName(t, own, dirId, k) + [0]) + old(dst[..])[totalLen..]
  {
    hide Encodes;
    var name := [];
    if own.OfFile? { name := ReadFileName(h, t, rank, own.fileId, dirId, k); }
    if totalLen < |name| + 1 { return None; }
    tail := Some(totalLen - (|name| + 1));
    Copy(name + [0], dst, tail.value);
  }

  method ReadFileName(h: DirHandle, ghost t: Tree, ghost rank: seq<nat>, id: nat, ghost dirId: nat, ghost k: nat)
    returns (name: seq<Byte>)
    requires GoodTree(t, rank) && Encodes(h.image, h.fnt, t) && HasFile(t, dirId, k, id) && h.At(t, dirId, 0)
    modifies h
    ensures h.ownId == dirId && h.parent == ParentField(t, dirId) && name == t[dirId].entries[k].name
  {
    hide Encodes;
    assert GoodDir(t, dirId);
    var entry; ghost var j;
    entry, j := FindFileEntry(h, t, dirId, id, false);
    OneEntry(t, dirId, k, j, id);
    name := entry.value.name;
  }

  /** The length pass, for a directory that has been found. */
  method MeasurePath(h: DirHandle, ghost t: Tree, ghost rank: seq<nat>, pack: nat, own: Own, dirId: nat, nameLen: nat,
                     ghost k: nat) returns (totalLen: nat)
    requires GoodTree(t, rank) && Encodes(h.image, h.fnt, t) && Denotes(t, own, dirId, k)
    requires own.OfFile? ==> nameLen == |FileName(t, own, dirId, k)|
    modifies h
    ensures Known(t, rank, pack, own, dirId, k, totalLen)
  {
    hide Encodes, PathOf, FileName;
    var len := NameLength(pack) + 2;
    if own.OfFile? { len := len + nameLen; }
    var dirs := MeasureDirs(h, t, rank, dirId);
    len := len + dirs;
    totalLen := (len + 1) % 0x1_0000;
    assert own.OfDir? ==> |FileName(t, own, dirId, k)| == 0 by { NoFileName(t, own, dirId, k); }
  }

  lemma NoFileName(t: Tree, own: Own, d: nat, k: nat)
    requires Denotes(t, own, d, k)
    ensures own.OfDir? ==> FileName(t, own, d, k) == []
  {}

  /** The directory of a handle that has no path yet. */
  method LocateDir(h: DirHandle, ghost t: Tree, ghost rank: seq<nat>, own: Own)
    returns (dirId: Option<nat>, nameLen: nat, ghost k: nat)
    requires GoodTree(t, rank) && Encodes(h.image, h.fnt, t) && (own.OfDir? ==> own.dirId < |t|)
    modifies h
    ensures dirId.Some? ==> Denotes(t, own, dirId.value, k)
    ensures dirId.Some? && own.OfFile? ==> nameLen == |FileName(t, own, dirId.value, k)|
    ensures dirId.None? <==> own.OfFile? && NotListed(t, own.fileId)
  {
    hide Encodes, NotListed;
    nameLen, k := 0, 0;
    if own.OfDir? {
      dirId := Some(own.dirId);
    } else {
      dirId, nameLen, k := FindFile(h, t, rank, own.fileId);
    }
  }

  /** The first half of FSi_GetPathCommand: the directory and the length. */
  method LocatePath(h: DirHandle, ghost t: Tree, ghost rank: seq<nat>, pack: nat, own: Own, info: PathInfo,
                    ghost k0: nat)
    returns (dirId: Option<nat>, ghost k: nat)
    requires GoodTree(t, rank) && Encodes(h.image, h.fnt, t) && (own.OfDir? ==> own.dirId < |t|)
    requires info.totalLen != 0 ==> Known(t, rank, pack, own, info.dirId, k0, info.totalLen)
    modifies h, info
    ensures dirId.Some? ==> Known(t, rank, pack, own, dirId.value, k, info.totalLen) && info.dirId == dirId.value
    ensures dirId.None? ==> own.OfFile? && info.totalLen == 0
    ensures dirId.None? <==> old(info.totalLen) == 0 && own.OfFile? && NotListed(t, own.fileId)
  {
    hide Encodes, Known, NotListed, FileName;
    if info.totalLen != 0 {
      dirId, k := Some(if own.OfDir? then own.dirId else info.dirId), k0;
      KnownDir(t, rank, pack, own, info.dirId, k0, info.totalLen);
    } else {
      var nameLen;
      dirId, nameLen, k := LocateDir(h, t, rank, own);
      if dirId.Some? {
        var len := MeasurePath(h, t, rank, pack, own, dirId.value, nameLen, k);
        info.totalLen, info.dirId := len, dirId.value % 0x1_0000;
      } else {
        info.totalLen := 0;
      }
    }
  }

  lemma KnownDir(t: Tree, rank: seq<nat>, pack: nat, own: Own, d: nat, k: nat, totalLen: nat)
    requires GoodTree(t, rank)
    ensures Known(t, rank, pack, own, d, k, totalLen) && own.OfDir? ==> d == own.dirId
  {}

  /** FSi_GetPathCommand. A path that fits the 16-bit length is written whole; with any other one that passes
      the test of the buffer's length, the fill leaves the buffer. */
  method GetPathCommand(image: seq<Byte>, fnt: nat, ghost t: Tree, ghost rank: seq<nat>, pack: nat, own: Own,
                        info: PathInfo, buf: array?<Byte>, bufLen: nat, ghost k0: nat)
    returns (outcome: Outcome, ghost d: Option<nat>, ghost k: nat)
    requires GoodTree(t, rank) && Encodes(image, fnt, t) && (own.OfDir? ==> own.dirId < |t|)
    requires info.totalLen != 0 ==> Known(t, rank, pack, own, info.dirId, k0, info.totalLen)
    requires buf != null ==> bufLen <= buf.Length
    modifies info, buf
    ensures d.Some? ==> Known(t, rank, pack, own, d.value, k, info.totalLen) && info.dirId == d.value
    ensures d.None? <==> old(info.totalLen) == 0 && own.OfFile? && NotListed(t, own.fileId)
    ensures outcome.Failed? <==> d.None? || (buf != null && info.totalLen > bufLen)
    ensures outcome.Overrun? <==>
      d.Some? && buf != null && info.totalLen <= bufLen && !Fits(t, rank, pack, own, d.value, k)
    ensures outcome.Complete? && buf != null ==>
      && Spells(t, rank, pack, own, d.value, k, buf[..info.totalLen])
      && buf[..][info.totalLen..] == old(buf[..])[info.totalLen..]
    ensures outcome.Failed? && buf != null ==> buf[..] == old(buf[..])
  {
    hide Encodes, Known, NotListed, Fits, Spells;
    var h := new DirHandle(image, fnt);
    var dirId;
    dirId, k := LocatePath(h, t, rank, pack, own, info, k0);
    d := dirId;
    if dirId.None? { return Failed, d, k; }
    if buf == null { return Complete, d, k; }
    if bufLen < info.totalLen { return Failed, d, k; }
    var ok := FillPath(h, t, rank, pack, own, dirId.value, buf, info.totalLen, k);
    outcome := if ok then Complete else Overrun;
  }
}
