/** FSi_FindPath of fs_file.c: where the lookup of a path starts, with the registered archives and the current
    directory. */
module PathLookup {
  import opened Basics
  import opened Bytes
  import opened NameTree
  import opened NameTable
  import opened FindPath
  import opened PathName

  /** FSArchive, as far as lookup reads it; `pack` is its packed name. */
  datatype Volume = Volume(pack: nat, image: seq<Byte>, fnt: nat, loaded: bool)

  /** The result of FSi_FindPath: the warnings for an archive that is not found or not loaded, or the archive's
      number in the list with the result of its command. */
  datatype Lookup = NoArchive | NotLoaded | Looked(arc: nat, found: Found)

  /** The bytes of an archive name in a path: no NUL, slash, backslash or colon. */
  predicate Plain(name: seq<Byte>) {
    forall i :: 0 <= i < |name| ==> name[i] != 0 && name[i] != 0x2F && name[i] != 0x5C && name[i] != 0x3A
  }

  /** "name:rest", with at most three bytes in front of the colon. */
  ghost predicate HasPrefix(path: seq<Byte>, name: seq<Byte>, rest: seq<Byte>) {
    |name| <= 3 && Plain(name) && path == name + [0x3A] + rest
  }

  /** Every colon among the first four bytes stands behind a slash or a backslash, and none of these is the first. */
  ghost predicate NoPrefix(path: seq<Byte>) {
    && (path != [] ==> path[0] != 0x2F && path[0] != 0x5C)
    && forall i | 0 <= i < 4 && i < |path| && path[i] == 0x3A ::
         exists j :: 0 <= j < i && (path[j] == 0x2F || path[j] == 0x5C)
  }

  // ---- the analysis of the prefix ----------------------------------------------------

  lemma {:induction false} ColonBehind(path: seq<Byte>, name: seq<Byte>, rest: seq<Byte>, i: nat)
    requires HasPrefix(path, name, rest) && i <= |name|
    ensures ColonAt(path, i) == Some(|name|)
    decreases |name| - i
  {
    if i < |name| {
      assert path[i] == name[i];
      ColonBehind(path, name, rest, i + 1);
    }
  }

  lemma {:induction false} NoColon(path: seq<Byte>, i: nat)
    requires NoPrefix(path) && CString(path)
    requires forall j :: 0 <= j < i && j < |path| ==> path[j] != 0x2F && path[j] != 0x5C
    ensures ColonAt(path, i) == None
    decreases 4 - i
  {
    if i < 4 && i < |path| && !IsSlash(path[i]) { NoColon(path, i + 1); }
  }

  lemma SplitSlash(path: seq<Byte>)
    requires path != [] && (path[0] == 0x2F || path[0] == 0x5C)
    ensures Split(path) == (AtRoot, path[1..])
  {}

  lemma SplitPrefix(path: seq<Byte>, name: seq<Byte>, rest: seq<Byte>)
    requires HasPrefix(path, name, rest)
    ensures Split(path) == (InArchive(name), DropSlash(rest))
  {
    ColonBehind(path, name, rest, 0);
    assert path[0] == if name == [] then 0x3A else name[0];
    assert path[..|name|] == name && path[|name| + 1..] == rest;
  }

  lemma SplitPlain(path: seq<Byte>)
    requires NoPrefix(path) && CString(path)
    ensures Split(path) == (AtCurrent, path)
  {
    NoColon(path, 0);
  }

  // ---- the lookup --------------------------------------------------------------------

  class FileSystem {
    const archives: seq<Volume>   // arc_list
    var current: nat              // current_dir_pos: the number of its archive and the place in it
    var dir: DirPos

    constructor (archives: seq<Volume>, current: nat, dir: DirPos)
      ensures this.archives == archives && this.current == current && this.dir == dir
    {
      this.archives, this.current, this.dir := archives, current, dir;
    }

    /** Every loaded archive encodes its tree, and the current directory is one of a loaded archive. */
    ghost predicate Valid(trees: seq<Tree>, k: nat)
      reads this
    {
      && |trees| == |archives| && current < |archives| && archives[current].loaded
      && (forall i | 0 <= i < |archives| && archives[i].loaded ::
            Closed(trees[i]) && Numbered(trees[i]) && Encodes(archives[i].image, archives[i].fnt, trees[i]))
      && Marks(archives[current].image, archives[current].fnt, trees[current], dir, k)
    }

    /** FS_FindArchive: the first archive with the packed name. */
    method FindArchive(name: seq<Byte>) returns (arc: Option<nat>)
      ensures arc.None? ==> forall i :: 0 <= i < |archives| ==> archives[i].pack != Pack(name)
      ensures arc.Some? ==> First(arc.value, name)
    {
      var pack := GetPackedName(name);
      var i := 0;
      while i < |archives|
        invariant i <= |archives| && forall j :: 0 <= j < i ==> archives[j].pack != pack
      {
        if archives[i].pack == pack { return Some(i); }
        i := i + 1;
      }
      arc := None;
    }

    predicate First(arc: nat, name: seq<Byte>) {
      && arc < |archives| && archives[arc].pack == Pack(name)
      && forall j :: 0 <= j < arc ==> archives[j].pack != Pack(name)
    }

    /** What looking up `rest` from the root of the archive of that name gives, a first slash of `rest` apart. */
    ghost predicate FromArchive(trees: seq<Tree>, name: seq<Byte>, rest: seq<Byte>, isDir: bool, r: Lookup) {
      match r
      case NoArchive => forall i :: 0 <= i < |archives| ==> archives[i].pack != Pack(name)
      case NotLoaded => exists i: nat :: First(i, name) && !archives[i].loaded
      case Looked(arc, found) =>
        && First(arc, name) && archives[arc].loaded && arc < |trees| && Closed(trees[arc])
        && found == Resolve(trees[arc], 0, 0, WithoutSlash(rest), isDir)
    }

    /** FSi_FindPath. A path with a leading slash or backslash is looked up from the root of the current archive,
        whatever the current directory is; a path "name:rest" from the root of the archive of that name; any other
        path as a whole from the current directory. */
    method FindPath(path: seq<Byte>, isDir: bool, ghost trees: seq<Tree>, ghost k: nat) returns (r: Lookup)
      requires Valid(trees, k) && CString(path)
      ensures path != [] && (path[0] == 0x2F || path[0] == 0x5C) ==>
        r == Looked(current, Resolve(trees[current], 0, 0, path[1..], isDir))
      ensures forall name, rest | HasPrefix(path, name, rest) :: FromArchive(trees, name, rest, isDir, r)
      ensures NoPrefix(path) ==> r == Looked(current, Resolve(trees[current], dir.ownId, k, path, isDir))
    {
      hide Encodes, Resolve, Split, Numbered;
      PathCases(path);
      var origin, rest := SplitPath(path);
      match origin {
        case AtRoot =>
          r := LookFrom(current, DirPos(0, 0, 0), rest, isDir, trees, 0);
        case AtCurrent =>
          r := LookFrom(current, dir, rest, isDir, trees, k);
        case InArchive(name) =>
          var arc := FindArchive(name);
          if arc.None? { return NoArchive; }
          if !archives[arc.value].loaded { return NotLoaded; }
          r := LookFrom(arc.value, DirPos(0, 0, 0), rest, isDir, trees, 0);
      }
    }

    /** FSi_FindPathCommand on one of the archives. */
    method LookFrom(arc: nat, start: DirPos, rest: seq<Byte>, isDir: bool, ghost trees: seq<Tree>, ghost k: nat)
      returns (r: Lookup)
      requires |trees| == |archives| && arc < |archives| && archives[arc].loaded && CString(rest)
      requires Closed(trees[arc]) && Numbered(trees[arc])
      requires Encodes(archives[arc].image, archives[arc].fnt, trees[arc])
      requires (start == DirPos(0, 0, 0) && k == 0)
               || Marks(archives[arc].image, archives[arc].fnt, trees[arc], start, k)
      ensures start.ownId < |trees[arc]| && k <= |trees[arc][start.ownId].entries|
      ensures r == Looked(arc, Resolve(trees[arc], start.ownId, k, rest, isDir))
    {
      hide Encodes, Resolve;
      HeaderAt(archives[arc].image, archives[arc].fnt, trees[arc], 0);
      var h := new DirHandle(archives[arc].image, archives[arc].fnt);
      var found;
      ghost var at;
      found, at := FindPathCommand(h, trees[arc], start, k, rest, isDir);
      r := Looked(arc, found);
    }
  }

  function WithoutSlash(rest: seq<Byte>): seq<Byte> {
    if rest != [] && (rest[0] == 0x2F || rest[0] == 0x5C) then rest[1..] else rest
  }

  lemma PathCases(path: seq<Byte>)
    requires CString(path)
    ensures path != [] && (path[0] == 0x2F || path[0] == 0x5C) ==> Split(path) == (AtRoot, path[1..])
    ensures forall name, rest | HasPrefix(path, name, rest) :: Split(path) == (InArchive(name), WithoutSlash(rest))
    ensures NoPrefix(path) ==> Split(path) == (AtCurrent, path)
    ensures CString(Split(path).1)
  {
    if path != [] && (path[0] == 0x2F || path[0] == 0x5C) { SplitSlash(path); }
    forall name, rest | HasPrefix(path, name, rest)
      ensures Split(path) == (InArchive(name), WithoutSlash(rest))
    {
      SplitPrefix(path, name, rest);
      assert DropSlash(rest) == WithoutSlash(rest);
    }
    if NoPrefix(path) { SplitPlain(path); }
  }

  /** "name:rest", "name:/rest" and "name:\rest" are looked up alike. */
  lemma SlashBehindColon(rest: seq<Byte>)
    requires WithoutSlash(rest) == rest
    ensures WithoutSlash([0x2F] + rest) == rest && WithoutSlash([0x5C] + rest) == rest
  {}
}
