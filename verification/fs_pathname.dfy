/** Archive names (FSi_GetPackedName of fs_archive.c, the length test of FSi_GetPathCommand) and the
    "arc:" prefix of a path (FSi_FindPath of fs_file.c). */
module PathName {
  import opened Basics
  import opened Bytes
  import opened NameTree
  import opened FindPath

  const ARCHIVE_NAME_MAX := 3   // FS_ARCHIVE_NAME_LEN_MAX
  const COLON: Byte := 0x3A

  // ---- packed names ------------------------------------------------------------------

  function Packed(name: seq<Byte>): nat {
    if name == [] || name[0] == 0 then 0 else Fold(name[0]) + 0x100 * Packed(name[1..])
  }

  function Pack(name: seq<Byte>): nat {
    if |name| <= ARCHIVE_NAME_MAX then Packed(name) else 0
  }

  function Scale(i: nat): nat
    requires i <= 3
  {
    if i == 0 then 1 else if i == 1 then 0x100 else if i == 2 then 0x1_0000 else 0x100_0000
  }

  lemma Distribute(scale: nat, f: int, p: int)
    requires f <= 0xFF
    ensures scale * (f + 0x100 * p) == f * scale + (0x100 * scale) * p && f * scale <= 0xFF * scale
  {
    assert scale * (f + 0x100 * p) == scale * f + scale * (0x100 * p);
  }

  lemma PackedStep(name: seq<Byte>, scale: nat)
    requires name != []
    ensures name[0] == 0 ==> scale * Packed(name) == 0
    ensures name[0] != 0 ==> scale * Packed(name) == Fold(name[0]) * scale + (0x100 * scale) * Packed(name[1..])
    ensures Packed([]) == 0 && Fold(name[0]) * scale <= 0xFF * scale
  {
    Distribute(scale, Fold(name[0]), Packed(name[1..]));
  }

  /** The case folding of FSi_GetPackedName, in 32-bit arithmetic. */
  method Lower(b: Byte) returns (c: nat)
    ensures c == Fold(b)
  {
    c := U32Of(b as int - 0x41);
    c := if c <= 0x5A - 0x41 then U32Of(c + 0x61) else U32Of(c + 0x41);
  }

  /** FSi_GetPackedName. Each byte goes to bits that are still clear, so `|=` is an addition. */
  method GetPackedName(name: seq<Byte>) returns (ret: nat)
    ensures ret == Pack(name)
  {
    ret := 0;
    if |name| <= ARCHIVE_NAME_MAX {
      var i := 0;
      assert name[0..] == name;
      while i < |name|
        invariant i <= |name| && ret < Scale(i) && Packed(name) == ret + Scale(i) * Packed(name[i..])
      {
        hide Packed, Fold;
        PackedStep(name[i..], Scale(i));
        assert name[i..][1..] == name[i + 1..];
        if name[i] == 0 { return; }
        var c := Lower(name[i]);
        assert Scale(i + 1) == 0x100 * Scale(i) || i == 3;
        ret := ret + c * Scale(i);
        i := i + 1;
      }
      assert name[i..] == [];
    }
  }

  predicate GoodArchiveName(name: seq<Byte>) {
    && 1 <= |name| <= ARCHIVE_NAME_MAX
    && forall i :: 0 <= i < |name| ==> name[i] != 0 && !IsSlash(name[i]) && name[i] != COLON
  }

  /** The length that FSi_GetPathCommand takes the archive name to have. */
  function NameLength(pack: nat): nat {
    if pack <= 0xFF then 1 else if pack <= 0xFF00 then 2 else 3
  }

  /** FSArchive.name.ptr, the bytes of the packed name. */
  function NameBytes(pack: nat): seq<Byte> {
    [pack % 0x100, pack / 0x100 % 0x100, pack / 0x1_0000 % 0x100, pack / 0x100_0000 % 0x100]
  }

  lemma PackedParts(name: seq<Byte>)
    requires GoodArchiveName(name)
    ensures Pack(name) == Fold(name[0]) + (if |name| > 1 then 0x100 * Fold(name[1]) as int else 0)
                                        + (if |name| > 2 then 0x1_0000 * Fold(name[2]) as int else 0)
  {
    assert Packed(name) == Fold(name[0]) + 0x100 * Packed(name[1..]);
    if |name| > 1 {
      assert Packed(name[1..]) == Fold(name[1]) + 0x100 * Packed(name[1..][1..]);
      if |name| > 2 {
        assert name[1..][1..] == name[2..] && Packed(name[2..]) == Fold(name[2]) + 0x100 * Packed(name[2..][1..]);
      }
    }
  }

  /** The length test is right but for two-byte names that end in 0xFF, which it takes for three bytes. */
  lemma LengthExact(name: seq<Byte>)
    requires GoodArchiveName(name)
    ensures NameLength(Pack(name)) == |name| <==> !(|name| == 2 && name[1] == 0xFF)
  {
    PackedParts(name);
  }

  lemma Digits(a: Byte, b: Byte, c: Byte)
    ensures NameBytes(a as int + 0x100 * b as int + 0x1_0000 * c as int) == [a, b, c, 0]
  {}

  /** What FSi_GetPathCommand copies from is the lower-case name. */
  lemma NameBytesAre(name: seq<Byte>)
    requires GoodArchiveName(name)
    ensures NameBytes(Pack(name)) ==
      [Fold(name[0]), if |name| > 1 then Fold(name[1]) else 0, if |name| > 2 then Fold(name[2]) else 0, 0]
  {
    PackedParts(name);
    Digits(Fold(name[0]), if |name| > 1 then Fold(name[1]) else 0, if |name| > 2 then Fold(name[2]) else 0);
  }

  lemma FoldKeeps(c: Byte)
    ensures Fold(Fold(c)) == Fold(c) && (Fold(c) == 0 <==> c == 0)
    ensures IsSlash(Fold(c)) == IsSlash(c) && (Fold(c) == COLON <==> c == COLON)
  {}

  lemma NameBytesSame(name: seq<Byte>)
    requires GoodArchiveName(name)
    ensures SameName(NameBytes(Pack(name))[..|name|], name) && GoodArchiveName(NameBytes(Pack(name))[..|name|])
  {
    NameBytesAre(name);
    hide Pack, Packed, NameBytes, Fold;
    forall i | 0 <= i < |name|
      ensures NameBytes(Pack(name))[i] == Fold(name[i]) && Fold(Fold(name[i])) == Fold(name[i])
      ensures Fold(name[i]) != 0 && !IsSlash(Fold(name[i])) && Fold(name[i]) != COLON
    {
      FoldKeeps(name[i]);
    }
  }

  /** Archives are told apart by their names up to case. */
  lemma PackSame(a: seq<Byte>, b: seq<Byte>)
    requires GoodArchiveName(a) && GoodArchiveName(b)
    ensures Pack(a) == Pack(b) <==> SameName(a, b)
  {
    NameBytesAre(a);
    NameBytesAre(b);
    PackedParts(a);
    PackedParts(b);
    hide Packed, Pack, NameBytes, Fold;
    FoldKeeps(a[0]);
    FoldKeeps(b[0]);
    if |a| > 1 { FoldKeeps(a[1]); }
    if |b| > 1 { FoldKeeps(b[1]); }
    if |a| > 2 { FoldKeeps(a[2]); }
    if |b| > 2 { FoldKeeps(b[2]); }
  }

  // ---- the prefix of a path ----------------------------------------------------------

  datatype Origin = AtRoot | InArchive(name: seq<Byte>) | AtCurrent

  /** The colon that ends an archive name, if there is one within reach. */
  function ColonAt(path: seq<Byte>, i: nat): Option<nat>
    decreases 4 - i
  {
    if i > ARCHIVE_NAME_MAX then None
    else
      var c := ByteAt(path, i);
      if c == 0 || IsSlash(c) then None else if c == COLON then Some(i) else ColonAt(path, i + 1)
  }

  function DropSlash(path: seq<Byte>): seq<Byte> {
    if IsSlash(ByteAt(path, 0)) then path[1..] else path
  }

  /** Where a path starts, and what is left to look up. */
  function Split(path: seq<Byte>): (Origin, seq<Byte>) {
    if IsSlash(ByteAt(path, 0)) then (AtRoot, path[1..])
    else match ColonAt(path, 0)
      case None => (AtCurrent, path)
      case Some(i) => if i < |path| then (InArchive(path[..i]), DropSlash(path[i + 1..])) else (AtCurrent, path)
  }

  /** The prefix analysis of FSi_FindPath. */
  method SplitPath(path: seq<Byte>) returns (origin: Origin, rest: seq<Byte>)
    requires CString(path)
    ensures (origin, rest) == Split(path)
  {
    if IsSlash(ByteAt(path, 0)) { return AtRoot, path[1..]; }
    var i := 0;
    while i <= ARCHIVE_NAME_MAX
      invariant i <= 4 && i <= |path| && ColonAt(path, 0) == ColonAt(path, i)
    {
      var c := ByteAt(path, i);
      if c == 0 || IsSlash(c) {
        break;
      } else if c == COLON {
        var behind := path[i + 1..];
        if IsSlash(ByteAt(behind, 0)) { behind := behind[1..]; }
        return InArchive(path[..i]), behind;
      }
      i := i + 1;
    }
    origin, rest := AtCurrent, path;
  }

  lemma {:induction false} ColonFound(name: seq<Byte>, rest: seq<Byte>, i: nat)
    requires GoodArchiveName(name) && i <= |name|
    ensures ColonAt(name + [COLON] + rest, i) == Some(|name|)
    decreases |name| - i
  {
    if i < |name| {
      assert (name + [COLON] + rest)[i] == name[i];
      ColonFound(name, rest, i + 1);
    }
  }

  /** A path built as "arc:/rest" is split at its prefix. */
  lemma SplitBuilt(name: seq<Byte>, rest: seq<Byte>)
    requires GoodArchiveName(name)
    ensures Split(name + [COLON, SLASH] + rest) == (InArchive(name), rest)
  {
    var path := name + [COLON, SLASH] + rest;
    assert path == name + [COLON] + ([SLASH] + rest);
    ColonFound(name, [SLASH] + rest, 0);
    assert path[0] == name[0] && path[..|name|] == name && path[|name| + 1..] == [SLASH] + rest;
    assert ([SLASH] + rest)[1..] == rest;
  }
}
