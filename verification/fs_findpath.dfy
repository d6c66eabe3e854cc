/** FSi_StrNICmp and FSi_FindPathCommand of fs_command_default.c: path lookup on the byte table is
    the walk over the tree that the table encodes. */
module FindPath {
  import opened Basics
  import opened Bytes
  import opened NameTree
  import opened NameTable

  /** MI_ReadByte on a NUL-terminated string. */
  function ByteAt(s: seq<Byte>, i: nat): Byte {
    if i < |s| then s[i] else 0
  }

  ghost predicate CString(s: seq<Byte>) {
    forall i :: 0 <= i < |s| ==> s[i] != 0
  }

  function U32Of(x: int): nat {
    x % 0x1_0000_0000
  }

  /** The letter folding of FSi_StrNICmp, which first shifts 'A' to zero. */
  function Shifted(c: Byte): nat {
    var u := U32Of(c as int - 0x41);
    if u <= 0x5A - 0x41 then u + 0x20 else u
  }

  lemma ShiftedIs(c: Byte)
    ensures Shifted(c) == if c < 0x41 then 0xFFFF_FFBF + c as int else if c <= 0x5A then c - 0x21 else c - 0x41
  {}

  lemma ShiftedFold(a: Byte, b: Byte)
    ensures Shifted(a) == Shifted(b) <==> Fold(a) == Fold(b)
    ensures Shifted(a) < 0x1_0000_0000
  {
    ShiftedIs(a);
    ShiftedIs(b);
    hide Shifted;
  }

  /** FSi_StrNICmp, on strings that are at least `len` long. */
  method StrNICmp(a: seq<Byte>, b: seq<Byte>, len: nat) returns (diff: int)
    requires len <= |a| && len <= |b|
    ensures diff == 0 <==> SameName(a[..len], b[..len])
  {
    var i := 0;
    while i < len
      invariant i <= len && forall j :: 0 <= j < i ==> Fold(a[j]) == Fold(b[j])
    {
      hide Fold;
      ShiftedFold(a[i], b[i]);
      ShiftedFold(b[i], a[i]);
      var c: int, d: int := U32Of(a[i] as int - 0x41), U32Of(b[i] as int - 0x41);
      if c <= 0x5A - 0x41 { c := c + 0x20; }
      if d <= 0x5A - 0x41 { d := d + 0x20; }
      if c != d {
        assert Shifted(a[i]) == c && Shifted(b[i]) == d;
        assert Fold(a[..len][i]) != Fold(b[..len][i]);
        diff := U32Of(c - d);
        if diff >= 0x8000_0000 { diff := diff - 0x1_0000_0000; }
        return;
      }
      i := i + 1;
    }
    diff := 0;
  }

  /** The scan for the end of a component. */
  method ScanName(path: seq<Byte>, p: nat) returns (n: nat)
    requires CString(path) && p <= |path|
    ensures n == NameLen(path[p..]) && (ByteAt(path, p + n) == 0 <==> p + n == |path|)
  {
    n := 0;
    while ByteAt(path, p + n) != 0 && !IsSlash(ByteAt(path, p + n))
      invariant p + n <= |path| && forall i :: 0 <= i < n ==> !IsSlash(path[p..][i])
      decreases |path| - n
    {
      n := n + 1;
    }
  }

  /** The loop over the entries of directory `d` from entry `from` on: it stops at the first one that matches. */
  method FindEntry(h: DirHandle, ghost t: Tree, ghost d: nat, ghost from: nat, name: seq<Byte>, asDir: bool)
    returns (entry: Option<Info>)
    requires Encodes(h.image, h.fnt, t) && h.At(t, d, from)
    requires t[d].firstFile + FileCount(t[d].entries) <= 0x1_0000
    modifies h`index, h`pos
    ensures var k := Lookup(t[d].entries, from, name, asDir);
            entry == if k < |t[d].entries| then Some(EntryInfo(t[d].entries[k], FileId(t[d], k), false)) else None
  {
    hide Encodes, EntryInfo, FileId, Lookup, Start, Offset, ParentField;
    ghost var k, es := from, t[d].entries;
    while true
      invariant from <= k && h.At(t, d, k) && forall j :: from <= j < k ==> !Matches(es[j], name, asDir)
      decreases |es| - k
    {
      entry := h.ReadEntry(t, d, k, false);
      LookupStep(es, from, k, name, asDir);
      if entry.None? { return; }
      EntryFields(es[k], FileId(t[d], k));
      if asDir == entry.value.isDirectory && |name| == entry.value.nameLen {
        var diff := StrNICmp(name, entry.value.name, |name|);
        assert name[..|name|] == name && entry.value.name[..|name|] == entry.value.name;
        if diff == 0 { return; }
      }
      k := k + 1;
    }
  }

  lemma EntryFields(e: Entry, index: nat)
    ensures var i := EntryInfo(e, index, false);
      i.isDirectory == e.DirEntry? && i.nameLen == |e.name| && i.name == e.name
  {}

  /** What the search has seen up to entry `k` decides its result. */
  lemma LookupStep(es: seq<Entry>, from: nat, k: nat, name: seq<Byte>, asDir: bool)
    requires from <= k <= |es| && forall j :: from <= j < k ==> !Matches(es[j], name, asDir)
    ensures k == |es| || Matches(es[k], name, asDir) ==> Lookup(es, from, name, asDir) == k
  {}

  /** One step of the walk. */
  lemma Unfold(t: Tree, d: nat, k: nat, path: seq<Byte>, wantDir: bool)
    requires Closed(t) && d < |t| && k <= |t[d].entries| && path != []
    ensures var n := NameLen(path);
            var name, asDir := path[..n], n < |path| || wantDir;
            var i := Lookup(t[d].entries, k, name, asDir);
            Resolve(t, d, k, path, wantDir) ==
              if n == 0 then NotFound
              else if name == [DOT] then Resolve(t, d, k, Rest(path), wantDir)
              else if name == [DOT, DOT] then
                if d == 0 then Resolve(t, 0, k, Rest(path), wantDir)
                else Resolve(t, t[d].parent, 0, Rest(path), wantDir)
              else if n > NAME_MAX || i == |t[d].entries| then NotFound
              else if asDir then Resolve(t, t[d].entries[i].id, 0, Rest(path), wantDir)
              else FoundFile(FileId(t[d], i))
  {}

  /** The rest of a path, as a position in it. */
  lemma RestAt(path: seq<Byte>, p: nat)
    requires p <= |path|
    ensures var n := NameLen(path[p..]);
      && path[p..][..n] == path[p..p + n] && Rest(path[p..]) == path[if p + n < |path| then p + n + 1 else p + n..]
  {}

  lemma UnfoldEnd(t: Tree, d: nat, k: nat, wantDir: bool)
    requires Closed(t) && d < |t| && k <= |t[d].entries|
    ensures forall path: seq<Byte> :: path == [] ==>
      Resolve(t, d, k, path, wantDir) == if wantDir then FoundDir(d) else NotFound
  {}

  /** File ids fit 16 bits. */
  ghost predicate Numbered(t: Tree) {
    forall d | 0 <= d < |t| :: t[d].firstFile + FileCount(t[d].entries) <= 0x1_0000
  }

  lemma GoodIsNumbered(t: Tree, rank: seq<nat>)
    requires GoodTree(t, rank)
    ensures Closed(t) && Numbered(t)
  {
    GoodIsClosed(t, rank);
    forall d | 0 <= d < |t| ensures t[d].firstFile + FileCount(t[d].entries) <= 0x1_0000 { assert GoodDir(t, d); }
  }

  /** One component of the path, `name`: the handle moves on, or the search is over. */
  method FollowName(h: DirHandle, ghost t: Tree, ghost d: nat, ghost k: nat, name: seq<Byte>, asDir: bool,
                    ghost path: seq<Byte>, ghost isDir: bool) returns (over: Option<Found>, ghost at: nat)
    requires Closed(t) && Numbered(t) && Encodes(h.image, h.fnt, t) && h.At(t, d, k)
    requires path != [] && name == path[..NameLen(path)] && asDir == (|name| < |path| || isDir)
    modifies h
    ensures over.None? ==> h.ownId < |t| && at <= |t[h.ownId].entries| && h.At(t, h.ownId, at)
    ensures over.None? ==> Resolve(t, d, k, path, isDir) == Resolve(t, h.ownId, at, Rest(path), isDir)
    ensures over.None? ==> at == 0 || (at == k && h.ownId == d)
    ensures over.Some? ==> Resolve(t, d, k, path, isDir) == over.value && !over.value.FoundDir?
  {
    hide Encodes, NameLen, Lookup, Resolve;
    Unfold(t, d, k, path, isDir);
    over, at := None, k;
    if |name| == 0 { return Some(NotFound), at; }
    if name[0] == DOT {
      if |name| == 1 { return; }
      if |name| == 2 && name[1] == DOT {
        if h.ownId != 0 {
          h.SeekDirDirect(t, h.parent);
          at := 0;
        }
        return;
      }
    }
    if |name| > NAME_MAX { return Some(NotFound), at; }
    var entry := FindEntry(h, t, d, k, name, asDir);
    if entry.None? { return Some(NotFound), at; }
    if !asDir { return Some(FoundFile(entry.value.id)), at; }
    h.SeekDirDirect(t, entry.value.id);
    at := 0;
  }

  /** FSi_FindPathCommand on a table that encodes a tree, well-formed or not, from any stored position. The
      position of a directory that is found is its start, unless the walk has never left the directory it began
      in. */
  method FindPathCommand(h: DirHandle, ghost t: Tree, start: DirPos, ghost k: nat, path: seq<Byte>, isDir: bool)
    returns (found: Found, ghost at: nat)
    requires Closed(t) && Numbered(t) && Encodes(h.image, h.fnt, t) && Marks(h.image, h.fnt, t, start, k)
    requires CString(path)
    modifies h
    ensures found == Resolve(t, start.ownId, k, path, isDir)
    ensures found.FoundDir? ==> found.dirId < |t| && h.At(t, found.dirId, at)
    ensures found.FoundDir? ==> at == 0 || (at == k && found.dirId == start.ownId)
  {
    hide Encodes, Resolve;
    h.SeekDirTo(t, start, k);
    found, at := WalkPath(h, t, start.ownId, k, path, isDir);
  }

  /** The loop over the components, from entry `k` of directory `d` on. */
  method WalkPath(h: DirHandle, ghost t: Tree, ghost d: nat, ghost k: nat, path: seq<Byte>, isDir: bool)
    returns (found: Found, ghost at: nat)
    requires Closed(t) && Numbered(t) && Encodes(h.image, h.fnt, t) && h.At(t, d, k) && CString(path)
    modifies h
    ensures found == Resolve(t, d, k, path, isDir)
    ensures found.FoundDir? ==> found.dirId < |t| && h.At(t, found.dirId, at)
    ensures found.FoundDir? ==> at == 0 || (at == k && found.dirId == d)
  {
    hide Encodes, NameLen, Rest, Lookup, Resolve;
    at := k;
    var p := 0;
    assert path[0..] == path;
    while ByteAt(path, p) != 0
      invariant p <= |path| && h.ownId < |t| && at <= |t[h.ownId].entries| && h.At(t, h.ownId, at)
      invariant at == 0 || (at == k && h.ownId == d)
      invariant Resolve(t, d, k, path, isDir) == Resolve(t, h.ownId, at, path[p..], isDir)
      decreases |path| - p
    {
      var n := ScanName(path, p);
      var asDir := ByteAt(path, p + n) != 0 || isDir;
      RestAt(path, p);
      var over;
      over, at := FollowName(h, t, h.ownId, at, path[p..p + n], asDir, path[p..], isDir);
      if over.Some? { return over.value, at; }
      p := p + n;
      p := p + if ByteAt(path, p) != 0 then 1 else 0;
    }
    UnfoldEnd(t, h.ownId, at, isDir);
    found := if !isDir then NotFound else FoundDir(h.ownId);
  }
}
