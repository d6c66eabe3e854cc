/** The law that paths are for: looking up the path that FSi_GetPathCommand builds leads back to the
    same directory or file of the same archive. */
module PathRoundTrip {
  import opened Basics
  import opened Bytes
  import opened NameTree
  import opened NameTable
  import opened FindPath
  import opened PathName
  import opened GetPath

  /** The bytes in front of the first NUL. */
  function Terminated(s: seq<Byte>): seq<Byte> {
    if s == [] || s[0] == 0 then [] else [s[0]] + Terminated(s[1..])
  }

  lemma {:induction false} TerminatedWhole(s: seq<Byte>, rest: seq<Byte>)
    requires CString(s)
    ensures Terminated(s + [0] + rest) == s
  {
    if s == [] {
      assert (s + [0] + rest)[0] == 0;
    } else {
      assert (s + [0] + rest)[0] == s[0] && (s + [0] + rest)[1..] == s[1..] + [0] + rest;
      TerminatedWhole(s[1..], rest);
    }
  }

  lemma {:induction false} PathOfString(t: Tree, rank: seq<nat>, d: nat)
    requires GoodTree(t, rank) && d < |t|
    ensures CString(PathOf(t, rank, d))
    decreases rank[d]
  {
    if d != 0 { PathOfString(t, rank, t[d].parent); }
  }

  lemma FileNameString(t: Tree, rank: seq<nat>, own: Own, d: nat, k: nat)
    requires GoodTree(t, rank) && Denotes(t, own, d, k)
    ensures CString(FileName(t, own, d, k))
  {
    if own.OfFile? { assert GoodDir(t, d); }
  }

  ghost function Target(own: Own): Found {
    match own
    case OfDir(id) => FoundDir(id)
    case OfFile(id) => FoundFile(id)
  }

  /** What is left of a built path behind its prefix leads from the root to where it came from. */
  lemma RestLeadsBack(t: Tree, rank: seq<nat>, own: Own, d: nat, k: nat)
    requires GoodTree(t, rank) && Closed(t) && Denotes(t, own, d, k)
    ensures Resolve(t, 0, 0, PathOf(t, rank, d) + FileName(t, own, d, k), own.OfDir?) == Target(own)
  {
    if own.OfDir? {
      DirRoundTrip(t, rank, d);
      assert PathOf(t, rank, d) + [] == PathOf(t, rank, d);
    } else {
      FileRoundTrip(t, rank, d, k);
    }
  }

  /** The archive name that stands in the path. */
  function Shown(name: seq<Byte>): seq<Byte>
    requires GoodArchiveName(name)
  {
    NameBytes(Pack(name))[..|name|]
  }

  lemma SplitWhole(name: seq<Byte>, rest: seq<Byte>)
    requires GoodArchiveName(name) && CString(rest) && NameLength(Pack(name)) == |name|
    ensures Split(Terminated(Prefix(Pack(name)) + rest + [0])) == (InArchive(Shown(name)), rest)
  {
    NameBytesSame(name);
    var full := Shown(name) + [COLON, SLASH] + rest;
    assert Prefix(Pack(name)) + rest + [0] == full + [0] + [];
    TerminatedWhole(full, []);
    SplitBuilt(Shown(name), rest);
  }

  lemma SplitBroken(name: seq<Byte>, rest: seq<Byte>)
    requires GoodArchiveName(name) && |name| == 2 && name[1] == 0xFF
    ensures Split(Terminated(Prefix(Pack(name)) + rest + [0])).0 == AtCurrent
  {
    LengthExact(name);
    NameBytesAre(name);
    FoldKeeps(name[0]);
    var head := [Fold(name[0]), 0xFF];
    var whole := Prefix(Pack(name)) + rest + [0];
    assert whole[..3] == head + [0];
    assert whole == head + [0] + whole[3..];
    TerminatedWhole(head, whole[3..]);
    assert ColonAt(head, 2) == None;
    assert ColonAt(head, 1) == None;
    assert ColonAt(head, 0) == None;
  }

  /** The C string in the buffer is split into the archive and the rest of the path for every archive
      name but those of two bytes that end in 0xFF. */
  lemma BuiltPathSplits(t: Tree, rank: seq<nat>, name: seq<Byte>, own: Own, d: nat, k: nat)
    requires GoodTree(t, rank) && GoodArchiveName(name) && Denotes(t, own, d, k)
    ensures Split(Terminated(FullPath(t, rank, Pack(name), own, d, k) + [0]))
              == (InArchive(Shown(name)), PathOf(t, rank, d) + FileName(t, own, d, k))
            <==> !(|name| == 2 && name[1] == 0xFF)
  {
    hide PathOf, FileName, Pack, Split, Terminated;
    var rest := PathOf(t, rank, d) + FileName(t, own, d, k);
    assert FullPath(t, rank, Pack(name), own, d, k) == Prefix(Pack(name)) + rest;
    LengthExact(name);
    PathOfString(t, rank, d);
    FileNameString(t, rank, own, d, k);
    if |name| == 2 && name[1] == 0xFF {
      SplitBroken(name, rest);
    } else {
      SplitWhole(name, rest);
    }
  }

  /** Round trip: the path names an archive with the same packed name, and in it the same directory or
      file. */
  lemma PathLeadsBack(t: Tree, rank: seq<nat>, name: seq<Byte>, own: Own, d: nat, k: nat)
    requires GoodTree(t, rank) && Closed(t) && GoodArchiveName(name) && Denotes(t, own, d, k)
    requires !(|name| == 2 && name[1] == 0xFF)
    ensures var (origin, rest) := Split(Terminated(FullPath(t, rank, Pack(name), own, d, k) + [0]));
            && origin.InArchive? && Pack(origin.name) == Pack(name)
            && Resolve(t, 0, 0, rest, own.OfDir?) == Target(own)
  {
    BuiltPathSplits(t, rank, name, own, d, k);
    NameBytesSame(name);
    PackSame(Shown(name), name);
    RestLeadsBack(t, rank, own, d, k);
  }

  /** The string in a buffer that begins with `full` and a NUL. */
  lemma FirstString(now: seq<Byte>, n: nat, full: seq<Byte>)
    requires 0 < n <= |now| && now[..n] == full + [0] && CString(full)
    ensures Terminated(now) == Terminated(full + [0]) == full
  {
    assert now == full + [0] + now[n..] && full + [0] == full + [0] + [];
    TerminatedWhole(full, now[n..]);
    TerminatedWhole(full, []);
  }

  lemma PrefixString(name: seq<Byte>)
    requires GoodArchiveName(name) && !(|name| == 2 && name[1] == 0xFF)
    ensures CString(Prefix(Pack(name)))
  {
    hide Pack;
    LengthExact(name);
    NameBytesSame(name);
  }

  lemma FullPathString(t: Tree, rank: seq<nat>, name: seq<Byte>, own: Own, d: nat, k: nat)
    requires GoodTree(t, rank) && GoodArchiveName(name) && !(|name| == 2 && name[1] == 0xFF) && Denotes(t, own, d, k)
    ensures CString(FullPath(t, rank, Pack(name), own, d, k)) && CString(PathOf(t, rank, d) + FileName(t, own, d, k))
  {
    hide PathOf, FileName, Pack, Prefix;
    PrefixString(name);
    PathOfString(t, rank, d);
    FileNameString(t, rank, own, d, k);
  }

  /** What the buffer holds behind a success is the path as a C string, for every archive name but those of two
      bytes that end in 0xFF. */
  lemma BufferIsPath(t: Tree, rank: seq<nat>, name: seq<Byte>, own: Own, d: nat, k: nat, now: seq<Byte>, n: nat)
    requires GoodTree(t, rank) && GoodArchiveName(name) && !(|name| == 2 && name[1] == 0xFF)
    requires 0 < n <= |now| && Spells(t, rank, Pack(name), own, d, k, now[..n])
    ensures Terminated(now) == Terminated(FullPath(t, rank, Pack(name), own, d, k) + [0])
    ensures CString(Terminated(now)) && CString(PathOf(t, rank, d) + FileName(t, own, d, k))
  {
    hide PathOf, FileName, Pack, FullPath, Terminated;
    FullPathString(t, rank, name, own, d, k);
    FirstString(now, n, FullPath(t, rank, Pack(name), own, d, k));
  }

  /** The whole round trip: FSi_GetPathCommand into a buffer, FSi_FindPath's split of the C string in it, and
      FSi_FindPathCommand from the root of that archive lead back to where they began. */
  method ThereAndBack(image: seq<Byte>, fnt: nat, ghost t: Tree, ghost rank: seq<nat>, ghost name: seq<Byte>, pack: nat,
                      own: Own, info: PathInfo, buf: array<Byte>, ghost k0: nat)
    returns (outcome: Outcome, origin: Origin, found: Found)
    requires GoodTree(t, rank) && Encodes(image, fnt, t) && (own.OfDir? ==> own.dirId < |t|)
    requires GoodArchiveName(name) && pack == Pack(name) && !(|name| == 2 && name[1] == 0xFF)
    requires info.totalLen != 0 ==> Known(t, rank, pack, own, info.dirId, k0, info.totalLen)
    modifies info, buf
    ensures outcome.Complete? ==> origin.InArchive? && Pack(origin.name) == pack && found == Target(own)
  {
    hide Encodes, Known, NotListed, Fits, PathOf, FileName, Pack, Split, Terminated, Resolve;
    origin, found := AtCurrent, NotFound;
    ghost var d, k;
    outcome, d, k := GetPathCommand(image, fnt, t, rank, pack, own, info, buf, buf.Length, k0);
    if outcome.Complete? {
      GoodIsNumbered(t, rank);
      BufferIsPath(t, rank, name, own, d.value, k, buf[..], info.totalLen);
      BuiltPathSplits(t, rank, name, own, d.value, k);
      PathLeadsBack(t, rank, name, own, d.value, k);
      var rest;
      origin, rest := SplitPath(Terminated(buf[..]));
      var h := new DirHandle(image, fnt);
      RootMarks(image, fnt, t);
      ghost var at;
      found, at := FindPathCommand(h, t, DirPos(0, 0, 0), 0, rest, own.OfDir?);
    }
  }

  lemma RootMarks(s: seq<Byte>, fnt: nat, t: Tree)
    requires 0 < |t| && Encodes(s, fnt, t)
    ensures Marks(s, fnt, t, DirPos(0, 0, 0), 0)
  {
    HeaderAt(s, fnt, t, 0);
  }
}
