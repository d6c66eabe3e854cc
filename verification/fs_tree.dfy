/** The directory tree that an archive's name table encodes, path lookup as a recursive walk over
    it, and the path that leads to a directory or a file. */
module NameTree {
  import opened Bytes

  const SLASH: Byte := 0x2F
  const BACKSLASH: Byte := 0x5C
  const DOT: Byte := 0x2E
  const NAME_MAX := 127     // FS_FILE_NAME_MAX
  const MAX_DIRS := 4096    // directory ids have 12 bits

  datatype Entry = FileEntry(name: seq<Byte>) | DirEntry(name: seq<Byte>, id: nat)

  /** One directory: files are numbered from `firstFile` in the order of their entries. */
  datatype Dir = Dir(parent: nat, firstFile: nat, entries: seq<Entry>)

  /** All directories by id; 0 is the root. */
  type Tree = seq<Dir>

  datatype Found = NotFound | FoundFile(fileId: nat) | FoundDir(dirId: nat)

  predicate IsSlash(c: Byte) {
    c == SLASH || c == BACKSLASH
  }

  function Fold(c: Byte): Byte {
    if 0x41 <= c <= 0x5A then c + 0x20 else c
  }

  predicate SameName(a: seq<Byte>, b: seq<Byte>) {
    |a| == |b| && forall i :: 0 <= i < |a| ==> Fold(a[i]) == Fold(b[i])
  }

  function FileCount(es: seq<Entry>): nat {
    if es == [] then 0 else FileCount(es[..|es| - 1]) + if es[|es| - 1].FileEntry? then 1 else 0
  }

  function FileId(d: Dir, k: nat): nat
    requires k < |d.entries|
  {
    d.firstFile + FileCount(d.entries[..k])
  }

  /** The numbers of the files of a directory are consecutive: each file has as many files in front of it as its number
      is above the first one. */
  lemma {:induction false} FileIdCounts(d: Dir, k: nat)
    requires k < |d.entries|
    ensures FileId(d, k) == d.firstFile + |set j | 0 <= j < k && d.entries[j].FileEntry?|
    decreases k
  {
    if k > 0 {
      FileIdCounts(d, k - 1);
      var before := set j | 0 <= j < k - 1 && d.entries[j].FileEntry?;
      var now := set j | 0 <= j < k && d.entries[j].FileEntry?;
      assert d.entries[..k][..k - 1] == d.entries[..k - 1];
      assert now == if d.entries[k - 1].FileEntry? then before + {k - 1} else before;
    }
  }

  // ---- lookup ------------------------------------------------------------------------

  predicate Matches(e: Entry, name: seq<Byte>, asDir: bool) {
    e.DirEntry? == asDir && SameName(name, e.name)
  }

  /** The first entry from `k` on that matches, or the number of entries. */
  function Lookup(es: seq<Entry>, k: nat, name: seq<Byte>, asDir: bool): (i: nat)
    requires k <= |es|
    ensures k <= i <= |es| && (i < |es| ==> Matches(es[i], name, asDir))
    ensures forall j :: k <= j < i ==> !Matches(es[j], name, asDir)
    decreases |es| - k
  {
    if k == |es| || Matches(es[k], name, asDir) then k else Lookup(es, k + 1, name, asDir)
  }

  /** Length of the first component of `path`. */
  function NameLen(path: seq<Byte>): (n: nat)
    ensures n <= |path| && (n < |path| ==> IsSlash(path[n])) && forall i :: 0 <= i < n ==> !IsSlash(path[i])
  {
    if path == [] || IsSlash(path[0]) then 0 else 1 + NameLen(path[1..])
  }

  /** What is left behind the first component and the slash that ends it. */
  function Rest(path: seq<Byte>): (r: seq<Byte>)
    ensures |r| <= |path| && (path != [] ==> |r| < |path|)
  {
    var n := NameLen(path);
    if n < |path| then path[n + 1..] else []
  }

  ghost predicate Closed(t: Tree) {
    && 0 < |t|
    && (forall d | 0 <= d < |t| :: t[d].parent < |t|)
    && (forall d, k | 0 <= d < |t| && 0 <= k < |t[d].entries| ::
          t[d].entries[k].DirEntry? ==> t[d].entries[k].id < |t|)
  }

  /** The walk that path lookup stands for, from a handle in front of entry `k` of directory `d`: "." stays,
      ".." goes to the parent and stays at the root, an empty or overlong component fails, every component but
      the last one of a file path is a directory, and a directory that is entered is read from its start. */
  ghost function Resolve(t: Tree, d: nat, k: nat, path: seq<Byte>, wantDir: bool): Found
    requires Closed(t) && d < |t| && k <= |t[d].entries|
    decreases |path|
  {
    if path == [] then (if wantDir then FoundDir(d) else NotFound)
    else
      var n := NameLen(path);
      var name, rest, asDir := path[..n], Rest(path), n < |path| || wantDir;
      if n == 0 then NotFound
      else if name == [DOT] then Resolve(t, d, k, rest, wantDir)
      else if name == [DOT, DOT] then
        if d == 0 then Resolve(t, 0, k, rest, wantDir) else Resolve(t, t[d].parent, 0, rest, wantDir)
      else if n > NAME_MAX then NotFound
      else
        var i := Lookup(t[d].entries, k, name, asDir);
        if i == |t[d].entries| then NotFound
        else if asDir then Resolve(t, t[d].entries[i].id, 0, rest, wantDir)
        else FoundFile(FileId(t[d], i))
  }

  // ---- well-formed trees and paths ---------------------------------------------------

  predicate GoodName(s: seq<Byte>) {
    && 0 < |s| <= NAME_MAX && s != [DOT] && s != [DOT, DOT]
    && forall i :: 0 <= i < |s| ==> s[i] != 0 && !IsSlash(s[i])
  }

  ghost predicate GoodDir(t: Tree, d: nat)
    requires d < |t|
  {
    var es := t[d].entries;
    && (forall k | 0 <= k < |es| :: GoodName(es[k].name))
    && (forall k | 0 <= k < |es| :: es[k].DirEntry? ==> 0 < es[k].id < |t| && t[es[k].id].parent == d)
    && (forall i, j | 0 <= i < j < |es| :: es[i].DirEntry? == es[j].DirEntry? ==> !SameName(es[i].name, es[j].name))
    && t[d].firstFile + FileCount(es) <= 0x10000
  }

  /** The first entry for directory `id`. */
  function IndexOf(es: seq<Entry>, k: nat, id: nat): (i: nat)
    requires k <= |es|
    ensures k <= i <= |es| && (i < |es| ==> es[i].DirEntry? && es[i].id == id)
    ensures forall j :: k <= j < i ==> es[j] != DirEntry(es[j].name, id)
    decreases |es| - k
  {
    if k == |es| || (es[k].DirEntry? && es[k].id == id) then k else IndexOf(es, k + 1, id)
  }

  /** Every directory but the root is listed by its parent, and `rank` shows that parents lead to the root. */
  ghost predicate GoodTree(t: Tree, rank: seq<nat>) {
    && 0 < |t| <= MAX_DIRS && |rank| == |t| && t[0].parent == 0
    && (forall d | 0 <= d < |t| :: GoodDir(t, d))
    && (forall d | 0 < d < |t| :: t[d].parent < |t| && rank[t[d].parent] < rank[d]
          && IndexOf(t[t[d].parent].entries, 0, d) < |t[t[d].parent].entries|)
  }

  ghost function DirName(t: Tree, rank: seq<nat>, d: nat): (s: seq<Byte>)
    requires GoodTree(t, rank) && 0 < d < |t|
    ensures GoodName(s)
  {
    var es := t[t[d].parent].entries;
    assert GoodDir(t, t[d].parent);
    es[IndexOf(es, 0, d)].name
  }

  /** The path from the root to directory `d`, ending in a slash unless `d` is the root. */
  ghost function PathOf(t: Tree, rank: seq<nat>, d: nat): seq<Byte>
    requires GoodTree(t, rank) && d < |t|
    decreases rank[d]
  {
    if d == 0 then [] else PathOf(t, rank, t[d].parent) + DirName(t, rank, d) + [SLASH]
  }

  /** The path of a directory is that of its parent, the name under which the parent lists it, and the byte 0x2F. */
  lemma PathText(t: Tree, rank: seq<nat>, d: nat)
    requires GoodTree(t, rank) && d < |t|
    ensures d == 0 ==> PathOf(t, rank, d) == []
    ensures d != 0 ==> exists name ::
      && DirEntry(name, d) in t[t[d].parent].entries
      && PathOf(t, rank, d) == PathOf(t, rank, t[d].parent) + name + [0x2F]
  {
    if d != 0 {
      var es := t[t[d].parent].entries;
      assert es[IndexOf(es, 0, d)] == DirEntry(DirName(t, rank, d), d);
    }
  }

  lemma GoodIsClosed(t: Tree, rank: seq<nat>)
    requires GoodTree(t, rank)
    ensures Closed(t)
  {
    forall d | 0 <= d < |t|
      ensures t[d].parent < |t|
      ensures forall k | 0 <= k < |t[d].entries| :: t[d].entries[k].DirEntry? ==> t[d].entries[k].id < |t|
    {
      assert GoodDir(t, d);
    }
  }

  // ---- resolving a built path --------------------------------------------------------

  /** A component without slashes is the first one of whatever follows it. */
  lemma {:induction false} FirstComponent(name: seq<Byte>, rest: seq<Byte>)
    requires (forall i :: 0 <= i < |name| ==> !IsSlash(name[i])) && (rest == [] || IsSlash(rest[0]))
    ensures NameLen(name + rest) == |name|
  {
    if name == [] {
      assert name + rest == rest;
    } else {
      assert (name + rest)[0] == name[0] && (name + rest)[1..] == name[1..] + rest;
      FirstComponent(name[1..], rest);
    }
  }

  /** In a good directory a name leads to its own entry. */
  lemma LookupOwn(t: Tree, d: nat, k: nat)
    requires d < |t| && GoodDir(t, d) && k < |t[d].entries|
    ensures Lookup(t[d].entries, 0, t[d].entries[k].name, t[d].entries[k].DirEntry?) == k
  {
    var es := t[d].entries;
    var i := Lookup(es, 0, es[k].name, es[k].DirEntry?);
    assert Matches(es[k], es[k].name, es[k].DirEntry?);
    assert i < k && es[i].DirEntry? == es[k].DirEntry? ==> !SameName(es[i].name, es[k].name);
  }

  lemma StepDown(t: Tree, rank: seq<nat>, d: nat, rest: seq<Byte>, wantDir: bool)
    requires GoodTree(t, rank) && 0 < d < |t| && Closed(t)
    ensures Resolve(t, t[d].parent, 0, DirName(t, rank, d) + [SLASH] + rest, wantDir) == Resolve(t, d, 0, rest, wantDir)
  {
    var p, name := t[d].parent, DirName(t, rank, d);
    var path := name + [SLASH] + rest;
    assert GoodDir(t, p);
    assert path == name + ([SLASH] + rest);
    FirstComponent(name, [SLASH] + rest);
    assert path[..|name|] == name && path[|name| + 1..] == rest;
    LookupOwn(t, p, IndexOf(t[p].entries, 0, d));
  }

  /** The path of a directory leads from the root to that directory, whatever comes behind it. */
  lemma {:induction false} PathLeads(t: Tree, rank: seq<nat>, d: nat, rest: seq<Byte>, wantDir: bool)
    requires GoodTree(t, rank) && d < |t| && Closed(t)
    ensures Resolve(t, 0, 0, PathOf(t, rank, d) + rest, wantDir) == Resolve(t, d, 0, rest, wantDir)
    decreases rank[d]
  {
    if d == 0 {
      assert PathOf(t, rank, d) + rest == rest;
    } else {
      var p, name := t[d].parent, DirName(t, rank, d);
      assert PathOf(t, rank, d) + rest == PathOf(t, rank, p) + (name + [SLASH] + rest);
      PathLeads(t, rank, p, name + [SLASH] + rest, wantDir);
      StepDown(t, rank, d, rest, wantDir);
    }
  }

  /** Round trip for directories. */
  lemma DirRoundTrip(t: Tree, rank: seq<nat>, d: nat)
    requires GoodTree(t, rank) && d < |t| && Closed(t)
    ensures Resolve(t, 0, 0, PathOf(t, rank, d), true) == FoundDir(d)
  {
    PathLeads(t, rank, d, [], true);
    assert PathOf(t, rank, d) + [] == PathOf(t, rank, d);
  }

  /** Round trip for files. */
  lemma FileRoundTrip(t: Tree, rank: seq<nat>, d: nat, k: nat)
    requires GoodTree(t, rank) && d < |t| && Closed(t) && k < |t[d].entries| && t[d].entries[k].FileEntry?
    ensures Resolve(t, 0, 0, PathOf(t, rank, d) + t[d].entries[k].name, false) == FoundFile(FileId(t[d], k))
  {
    var name := t[d].entries[k].name;
    assert GoodDir(t, d);
    PathLeads(t, rank, d, name, false);
    FirstComponent(name, []);
    assert name + [] == name && name[..|name|] == name;
    LookupOwn(t, d, k);
  }

  // ---- paths that lead to the same place ---------------------------------------------

  /** Equal, two slashes of either kind, or a letter in both cases. */
  predicate Alike(c: Byte, d: Byte) {
    || c == d || (c in {0x2F, 0x5C} && d in {0x2F, 0x5C})
    || (0x41 <= c <= 0x5A && d == c + 0x20) || (0x41 <= d <= 0x5A && c == d + 0x20)
  }

  predicate AlikePaths(a: seq<Byte>, b: seq<Byte>) {
    |a| == |b| && forall i :: 0 <= i < |a| ==> Alike(a[i], b[i])
  }

  lemma {:induction false} AlikeNameLen(a: seq<Byte>, b: seq<Byte>)
    requires AlikePaths(a, b)
    ensures NameLen(a) == NameLen(b)
  {
    if a != [] && !IsSlash(a[0]) {
      assert Alike(a[0], b[0]);
      assert AlikePaths(a[1..], b[1..]) by {
        forall i | 0 <= i < |a| - 1 ensures Alike(a[1..][i], b[1..][i]) { assert Alike(a[i + 1], b[i + 1]); }
      }
      AlikeNameLen(a[1..], b[1..]);
    }
  }

  lemma AlikeParts(a: seq<Byte>, b: seq<Byte>)
    requires AlikePaths(a, b)
    ensures var n := NameLen(a);
      && NameLen(b) == n && AlikePaths(Rest(a), Rest(b)) && SameName(a[..n], b[..n])
      && (a[..n] == [DOT] <==> b[..n] == [DOT]) && (a[..n] == [DOT, DOT] <==> b[..n] == [DOT, DOT])
  {
    AlikeNameLen(a, b);
    var n := NameLen(a);
    forall i | 0 <= i < n
      ensures Fold(a[..n][i]) == Fold(b[..n][i]) && (a[..n][i] == DOT <==> b[..n][i] == DOT)
    {
      assert Alike(a[i], b[i]);
    }
    if n < |a| {
      forall i | 0 <= i < |a| - n - 1
        ensures Alike(Rest(a)[i], Rest(b)[i])
      {
        assert Alike(a[n + 1 + i], b[n + 1 + i]);
      }
    }
  }

  lemma {:induction false} AlikeLookup(es: seq<Entry>, k: nat, a: seq<Byte>, b: seq<Byte>, asDir: bool)
    requires k <= |es| && SameName(a, b)
    ensures Lookup(es, k, a, asDir) == Lookup(es, k, b, asDir)
    decreases |es| - k
  {
    if k < |es| { AlikeLookup(es, k + 1, a, b, asDir); }
  }

  /** A path with backslashes for slashes, or with letters in the other case, leads to the same place. */
  lemma {:induction false} AlikePathsLead(t: Tree, d: nat, k: nat, a: seq<Byte>, b: seq<Byte>, wantDir: bool)
    requires Closed(t) && d < |t| && k <= |t[d].entries| && AlikePaths(a, b)
    ensures Resolve(t, d, k, a, wantDir) == Resolve(t, d, k, b, wantDir)
    decreases |a|
  {
    if a != [] {
      AlikeParts(a, b);
      var n := NameLen(a);
      var name, rest, asDir := a[..n], Rest(a), n < |a| || wantDir;
      hide NameLen, Rest, AlikePaths, SameName;
      if n != 0 {
        if name == [DOT] {
          AlikePathsLead(t, d, k, rest, Rest(b), wantDir);
        } else if name == [DOT, DOT] {
          AlikePathsLead(t, if d == 0 then 0 else t[d].parent, if d == 0 then k else 0, rest, Rest(b), wantDir);
        } else if n <= NAME_MAX {
          AlikeLookup(t[d].entries, k, name, b[..n], asDir);
          var i := Lookup(t[d].entries, k, name, asDir);
          if i < |t[d].entries| && asDir { AlikePathsLead(t, t[d].entries[i].id, 0, rest, Rest(b), wantDir); }
        }
      }
    }
  }

  /** The first component of a path that begins with it and a slash. */
  lemma Begins(name: seq<Byte>, rest: seq<Byte>)
    requires forall i :: 0 <= i < |name| ==> !IsSlash(name[i])
    ensures var path := name + [SLASH] + rest;
      NameLen(path) == |name| && path[..|name|] == name && Rest(path) == rest
  {
    FirstComponent(name, [SLASH] + rest);
    assert name + [SLASH] + rest == name + ([SLASH] + rest);
  }

  /** "./rest" is "rest"; "../rest" is "rest" in the parent directory, and in the root it is "rest" there; an empty
      component, as in "//", leads nowhere. */
  lemma DotPaths(t: Tree, d: nat, k: nat, rest: seq<Byte>, wantDir: bool)
    requires Closed(t) && d < |t| && k <= |t[d].entries|
    ensures Resolve(t, d, k, [0x2E, 0x2F] + rest, wantDir) == Resolve(t, d, k, rest, wantDir)
    ensures Resolve(t, d, k, [0x2E, 0x2E, 0x2F] + rest, wantDir)
         == if d == 0 then Resolve(t, 0, k, rest, wantDir) else Resolve(t, t[d].parent, 0, rest, wantDir)
    ensures Resolve(t, d, k, [0x2F] + rest, wantDir) == NotFound
  {
    Begins([DOT], rest);
    Begins([DOT, DOT], rest);
    Begins([], rest);
    assert [0x2E, 0x2F] + rest == [DOT] + [SLASH] + rest && [0x2E, 0x2E, 0x2F] + rest == [DOT, DOT] + [SLASH] + rest;
    assert [0x2F] + rest == [] + [SLASH] + rest;
    hide NameLen, Rest;
  }

  /** Going into a directory and up again leads back. */
  lemma DownAndUp(t: Tree, rank: seq<nat>, d: nat, rest: seq<Byte>, wantDir: bool)
    requires GoodTree(t, rank) && 0 < d < |t| && Closed(t)
    ensures Resolve(t, t[d].parent, 0, DirName(t, rank, d) + [0x2F, 0x2E, 0x2E, 0x2F] + rest, wantDir)
         == Resolve(t, t[d].parent, 0, rest, wantDir)
  {
    var name, up := DirName(t, rank, d), [0x2E, 0x2E, 0x2F] + rest;
    assert name + [0x2F, 0x2E, 0x2E, 0x2F] + rest == name + [SLASH] + up;
    StepDown(t, rank, d, up, wantDir);
    DotPaths(t, d, 0, rest, wantDir);
  }

  /** Entry `i` is the first one from `k` on that has the name, up to case, and is a directory or a file as asked. */
  ghost predicate FirstNamed(es: seq<Entry>, k: nat, name: seq<Byte>, asDir: bool, i: nat) {
    && k <= i < |es| && es[i].DirEntry? == asDir && SameName(name, es[i].name)
    && forall j :: k <= j < i ==> es[j].DirEntry? != asDir || !SameName(name, es[j].name)
  }

  lemma LookupFirst(es: seq<Entry>, k: nat, name: seq<Byte>, asDir: bool, i: nat)
    requires k <= |es|
    ensures FirstNamed(es, k, name, asDir, i) ==> Lookup(es, k, name, asDir) == i < |es|
    ensures (forall j: nat :: !FirstNamed(es, k, name, asDir, j)) ==> Lookup(es, k, name, asDir) == |es|
  {
    var j := Lookup(es, k, name, asDir);
    if j < |es| { assert FirstNamed(es, k, name, asDir, j); }
  }

  /** "name/rest" goes on in the first directory of that name, and fails if there is none; nothing in front of entry
      `k` counts. */
  lemma DirNameExact(t: Tree, d: nat, k: nat, name: seq<Byte>, rest: seq<Byte>, wantDir: bool, i: nat)
    requires Closed(t) && d < |t| && k <= |t[d].entries| && GoodName(name)
    ensures FirstNamed(t[d].entries, k, name, true, i) ==>
      Resolve(t, d, k, name + [0x2F] + rest, wantDir) == Resolve(t, t[d].entries[i].id, 0, rest, wantDir)
    ensures (forall j: nat :: !FirstNamed(t[d].entries, k, name, true, j)) ==>
      Resolve(t, d, k, name + [0x2F] + rest, wantDir) == NotFound
  {
    Begins(name, rest);
    LookupFirst(t[d].entries, k, name, true, i);
    hide NameLen, Rest, FirstNamed, Lookup;
  }

  /** A file path ends in the first file of that name, and fails if there is none; an empty one is a directory. */
  lemma FileNameExact(t: Tree, d: nat, k: nat, name: seq<Byte>, i: nat)
    requires Closed(t) && d < |t| && k <= |t[d].entries| && GoodName(name)
    ensures FirstNamed(t[d].entries, k, name, false, i) ==> Resolve(t, d, k, name, false) == FoundFile(FileId(t[d], i))
    ensures (forall j: nat :: !FirstNamed(t[d].entries, k, name, false, j)) ==>
      Resolve(t, d, k, name, false) == NotFound
    ensures Resolve(t, d, k, [], true) == FoundDir(d) && Resolve(t, d, k, [], false) == NotFound
  {
    FirstComponent(name, []);
    assert name + [] == name && name[..|name|] == name;
    LookupFirst(t[d].entries, k, name, false, i);
    hide NameLen, Rest, FirstNamed, Lookup;
  }

  /** A component of more than 127 bytes leads nowhere. */
  lemma LongNameFails(t: Tree, d: nat, k: nat, name: seq<Byte>, rest: seq<Byte>, wantDir: bool)
    requires Closed(t) && d < |t| && k <= |t[d].entries|
    requires |name| > 127 && forall i :: 0 <= i < |name| ==> !IsSlash(name[i])
    ensures Resolve(t, d, k, name + [0x2F] + rest, wantDir) == NotFound
  {
    Begins(name, rest);
    hide NameLen, Rest;
  }
}
