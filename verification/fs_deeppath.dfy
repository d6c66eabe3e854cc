/** Trees so deep, or with so many directories, that FSi_GetPathCommand goes wrong on them. */
module DeepPath {
  import opened Bytes
  import opened NameTree
  import opened NameTable
  import opened TableEncoder
  import opened PathName
  import GetPath

  /** A name of 127 letters. */
  function LongName(): (s: seq<Byte>)
    ensures |s| == NAME_MAX && GoodName(s)
  {
    seq(NAME_MAX, i => 0x61)
  }

  /** The one entry of directory `d` of a chain. */
  function Link(n: nat, d: nat): Entry {
    if d + 1 < n then DirEntry(LongName(), d + 1) else FileEntry([0x61])
  }

  /** `n` directories, each one the only entry of the one before, and a file in the innermost. */
  function Chain(n: nat): (t: Tree)
    ensures |t| == n
  {
    seq(n, (d: nat) => Dir(if d == 0 then 0 else d - 1, 0, [Link(n, d)]))
  }

  function Depths(n: nat): seq<nat> {
    seq(n, d => d)
  }

  lemma ChainGood(n: nat)
    requires 0 < n <= MAX_DIRS
    ensures GoodTree(Chain(n), Depths(n))
  {
    var t := Chain(n);
    forall d | 0 <= d < n
      ensures GoodDir(t, d)
    {
      assert t[d].entries == [Link(n, d)];
      assert FileCount(t[d].entries[..0]) == 0 && FileCount(t[d].entries) <= 1;
    }
    forall d | 0 < d < n
      ensures IndexOf(t[t[d].parent].entries, 0, d) < |t[t[d].parent].entries|
    {
      assert t[d - 1].entries[0] == DirEntry(LongName(), d);
    }
  }

  lemma {:induction false} ChainPath(n: nat, d: nat)
    requires 0 < n <= MAX_DIRS && d < n
    ensures GoodTree(Chain(n), Depths(n)) && |PathOf(Chain(n), Depths(n), d)| == 128 * d
    decreases d
  {
    ChainGood(n);
    if d > 0 {
      ChainPath(n, d - 1);
      assert Chain(n)[d - 1].entries == [DirEntry(LongName(), d)];
    }
  }

  lemma ChainBody(n: nat, d: nat)
    requires Sized(Chain(n)) && d < n
    ensures |Body(Chain(n)[d])| <= 131
  {
    hide EntryBytes;
    var es := Chain(n)[d].entries;
    assert Offset(es, 0) == 0;
  }

  lemma {:induction false} ChainBodies(n: nat, d: nat)
    requires Sized(Chain(n)) && d <= n
    ensures |Bodies(Chain(n), d)| <= 131 * d
  {
    hide Body, Chain, Sized;
    if d > 0 {
      ChainBodies(n, d - 1);
      ChainBody(n, d - 1);
    }
  }

  /** The chain is an archive's tree: it has a name table. */
  lemma ChainHasTable(n: nat)
    requires 0 < n <= MAX_DIRS
    ensures GoodTree(Chain(n), Depths(n)) && Sized(Chain(n)) && Small(Chain(n))
    ensures Encodes(Table(Chain(n)), 0, Chain(n))
  {
    ChainGood(n);
    GoodHasTable(Chain(n), Depths(n));
    ChainBodies(n, n);
  }

  /** The path of directory `d` does not fit, and its stored length is below 1000. */
  ghost predicate Overruns(t: Tree, rank: seq<nat>, d: nat, pack: nat, totalLen: nat)
    requires GoodTree(t, rank)
  {
    && !GetPath.Fits(t, rank, pack, GetPath.OfDir(d), d, 0)
    && (GetPath.Known(t, rank, pack, GetPath.OfDir(d), d, 0, totalLen) ==> totalLen < 1000)
  }

  lemma LongPathWraps(t: Tree, rank: seq<nat>, d: nat, pack: nat, totalLen: nat)
    requires GoodTree(t, rank) && d < |t| && 0x1_0000 <= |PathOf(t, rank, d)| < 0x1_0000 + 990
    ensures Overruns(t, rank, d, pack, totalLen)
  {
    hide GoodTree, PathOf;
  }

  /** For the innermost of 513 to 520 directories the stored length is below 1000, so that a buffer of 1000
      bytes passes the test of its length, and the fill leaves it. */
  lemma ChainOverruns(n: nat, pack: nat, totalLen: nat)
    requires 513 <= n <= 520
    ensures GoodTree(Chain(n), Depths(n)) && Sized(Chain(n)) && Small(Chain(n))
    ensures Encodes(Table(Chain(n)), 0, Chain(n)) && Overruns(Chain(n), Depths(n), n - 1, pack, totalLen)
  {
    ChainHasTable(n);
    ChainWraps(n, pack, totalLen);
    hide *;
  }

  lemma ChainWraps(n: nat, pack: nat, totalLen: nat)
    requires 513 <= n <= 520
    ensures GoodTree(Chain(n), Depths(n)) && Overruns(Chain(n), Depths(n), n - 1, pack, totalLen)
  {
    hide Chain, Depths, GoodTree, PathOf, Overruns;
    ChainPath(n, n - 1);
    LongPathWraps(Chain(n), Depths(n), n - 1, pack, totalLen);
  }

  /** With 4096 directories the file in the innermost one is not found. */
  lemma ChainMisses(n: nat)
    requires n == MAX_DIRS
    ensures var t := Chain(n);
      && GoodTree(t, Depths(n)) && Sized(t) && Small(t) && Encodes(Table(t), 0, t)
      && GetPath.HasFile(t, n - 1, 0, 0) && GetPath.NotListed(t, 0)
  {
    ChainHasTable(n);
    var t := Chain(n);
    assert GetPath.HasFile(t, n - 1, 0, 0) by { assert t[n - 1].entries == [FileEntry([0x61])]; }
    assert GetPath.NotIn(t, 0, 0) by { assert t[0].entries == [DirEntry(LongName(), 1)]; }
    hide GoodTree, Sized, Small, Encodes, Chain;
    GetPath.SearchExact(t, n - 1, 0, 0);
  }
}
