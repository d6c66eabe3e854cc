/** FSArchive as the object that the source updates in place: the intrusive doubly linked list of
    libraries/fs/include/util.h with the archive as sentinel, the flag bits, and the regions of
    fs_archive.c, fs_command.c and fs_file.c. The link and status fields of the file handles are maps
    from handle to value. Every method is proved against the function of module CommandQueue that
    the state machine runs. */
module ArchiveObjects {
  import opened Basics
  import opened CommandQueue

  /** FSFile pointers: NULL, &p_arc->list (which the source casts to FSFile), or a handle. */
  datatype Ref = Null | List | File(id: int)

  // ---- links as values ---------------------------------------------------------------

  /** The link fields of the sentinel and of all handles. */
  datatype Links = Links(first: Ref, next: map<int, Ref>, prev: map<int, Ref>)

  function At(fs: seq<int>, i: int): Ref {
    if 0 <= i < |fs| then File(fs[i]) else Null
  }

  function Before(fs: seq<int>, i: nat): Ref
    requires i <= |fs|
  {
    if i == 0 then List else File(fs[i - 1])
  }

  ghost predicate Forward(fs: seq<int>, l: Links) {
    l.first == At(fs, 0) && forall i {:trigger fs[i] in l.next} {:trigger l.next[fs[i]]} :: 0 <= i < |fs| ==>
      fs[i] in l.next && l.next[fs[i]] == At(fs, i + 1)
  }

  ghost predicate Backward(fs: seq<int>, l: Links) {
    forall i {:trigger fs[i] in l.prev} {:trigger l.prev[fs[i]]} :: 0 <= i < |fs| ==>
      fs[i] in l.prev && l.prev[fs[i]] == Before(fs, i)
  }

  /** `fs` is linked in both directions between the sentinel and NULL; nothing else is linked, but
      perhaps `loose`. */
  ghost predicate LinksOk(handles: set<int>, fs: seq<int>, l: Links, loose: set<int>) {
    && Distinct(fs) && (forall f | f in fs :: f in handles && f !in loose)
    && l.next.Keys == handles && l.prev.Keys == handles && Forward(fs, l) && Backward(fs, l)
    && forall f | f in handles && f !in fs && f !in loose :: l.next[f] == Null && l.prev[f] == Null
  }

  /** Without the element at `i`, a distinct list closes the gap. */
  lemma {:induction false} WithoutAt<F>(s: seq<F>, i: nat)
    requires Distinct(s) && i < |s|
    ensures Without(s, s[i]) == s[..i] + s[i + 1..]
    decreases i
  {
    if i == 0 {
      assert s[0] !in s[1..];
    } else {
      WithoutAt(s[1..], i - 1);
      assert s[i] == s[1..][i - 1] && s[0] != s[i];
      assert s[1..][..i - 1] == s[1..i] && s[1..][i..] == s[i + 1..];
      assert [s[0]] + (s[1..i] + s[i + 1..]) == s[..i] + s[i + 1..];
    }
  }

  /** FSi_CutFromListCore on links. */
  function CutOut(l: Links, pr: Ref, nx: Ref): Links {
    Links(if pr == List then nx else l.first,
          if pr.File? then l.next[pr.id := nx] else l.next,
          if nx.File? then l.prev[nx.id := pr] else l.prev)
  }

  /** The loop-free part of FSi_AppendToList behind its search for the last element. */
  function LinkBehind(l: Links, tail: Ref, f: int): Links {
    Links(if tail == List then File(f) else l.first,
          (if tail.File? then l.next[tail.id := File(f)] else l.next)[f := Null],
          l.prev[f := tail])
  }

  /** `fs[i]` taken out of the chain. */
  ghost function CutLinks(fs: seq<int>, l: Links, i: nat): Links
    requires i < |fs|
  {
    Links(if i == 0 then At(fs, 1) else l.first,
          if i > 0 then l.next[fs[i - 1] := At(fs, i + 1)] else l.next,
          if i + 1 < |fs| then l.prev[fs[i + 1] := Before(fs, i)] else l.prev)
  }

  lemma CutForward(fs: seq<int>, l: Links, i: nat)
    requires i < |fs| && Distinct(fs) && Forward(fs, l)
    ensures Forward(fs[..i] + fs[i + 1..], CutLinks(fs, l, i))
  {
    var r, c := fs[..i] + fs[i + 1..], CutLinks(fs, l, i);
    forall j | 0 <= j < |r|
      ensures r[j] in c.next && c.next[r[j]] == At(r, j + 1)
    {
      if j >= i {
        assert r[j] == fs[j + 1] && (i > 0 ==> fs[j + 1] != fs[i - 1]);
      } else {
        assert r[j] == fs[j] && (j < i - 1 ==> fs[j] != fs[i - 1]);
      }
    }
  }

  lemma CutBackward(fs: seq<int>, l: Links, i: nat)
    requires i < |fs| && Distinct(fs) && Backward(fs, l)
    ensures Backward(fs[..i] + fs[i + 1..], CutLinks(fs, l, i))
  {
    var r, c := fs[..i] + fs[i + 1..], CutLinks(fs, l, i);
    forall j | 0 <= j < |r|
      ensures r[j] in c.prev && c.prev[r[j]] == Before(r, j)
    {
      if j > i {
        assert r[j] == fs[j + 1] && fs[j + 1] != fs[i + 1] && r[j - 1] == fs[j];
      } else if j == i {
        assert r[j] == fs[i + 1] && Before(r, j) == Before(fs, i);
      } else {
        assert r[j] == fs[j] && (i + 1 < |fs| ==> fs[j] != fs[i + 1]) && Before(r, j) == Before(fs, j);
      }
    }
  }

  lemma CutOthers(fs: seq<int>, l: Links, i: nat)
    requires i < |fs| && Forward(fs, l) && Backward(fs, l)
    ensures CutLinks(fs, l, i).next.Keys == l.next.Keys
    ensures CutLinks(fs, l, i).prev.Keys == l.prev.Keys
    ensures forall f | f in l.next && f !in fs :: CutLinks(fs, l, i).next[f] == l.next[f]
    ensures forall f | f in l.prev && f !in fs :: CutLinks(fs, l, i).prev[f] == l.prev[f]
  {
    if i + 1 < |fs| { assert fs[i + 1] in l.prev; }
    if i > 0 { assert fs[i - 1] in l.next; }
  }

  /** The sweep of FSi_NextCommand moves list.next past the head before it releases it. */
  ghost predicate HeadSkipped(handles: set<int>, fs: seq<int>, l: Links, elem: int) {
    fs != [] && elem == fs[0] && LinksOk(handles, fs, l.(first := File(elem)), {})
  }

  /** Taking a handle out of the chain removes it from the queue, wherever it was. */
  lemma CutKeeps(handles: set<int>, fs: seq<int>, l: Links, elem: int)
    requires elem in handles && (LinksOk(handles, fs, l, {}) || HeadSkipped(handles, fs, l, elem))
    ensures l.prev[elem].File? ==> l.prev[elem].id in handles
    ensures l.next[elem].File? ==> l.next[elem].id in handles
    ensures LinksOk(handles, Without(fs, elem), CutOut(l, l.prev[elem], l.next[elem]), {elem})
  {
    if elem in fs {
      var i :| 0 <= i < |fs| && fs[i] == elem;
      var k := l.(first := File(fs[0]));
      assert i > 0 ==> elem != fs[0];
      assert l.prev[elem] == Before(fs, i) && l.next[elem] == At(fs, i + 1);
      assert CutOut(l, l.prev[elem], l.next[elem]) == CutLinks(fs, k, i);
      CutOthers(fs, k, i);
      CutForward(fs, k, i);
      CutBackward(fs, k, i);
      WithoutAt(fs, i);
    }
  }

  lemma DetachKeeps(handles: set<int>, fs: seq<int>, l: Links, elem: int)
    requires LinksOk(handles, fs, l, {elem}) && elem in handles
    ensures LinksOk(handles, fs, l.(next := l.next[elem := Null], prev := l.prev[elem := Null]), {})
  {}

  lemma AppendKeeps(handles: set<int>, fs: seq<int>, l: Links, f: int)
    requires LinksOk(handles, fs, l, {f}) && f in handles
    ensures LinksOk(handles, fs + [f], LinkBehind(l, Before(fs, |fs|), f), {})
  {
    var r, a := fs + [f], LinkBehind(l, Before(fs, |fs|), f);
    forall j | 0 <= j < |r|
      ensures r[j] in a.next && a.next[r[j]] == At(r, j + 1)
      ensures r[j] in a.prev && a.prev[r[j]] == Before(r, j)
    {
      if j < |fs| {
        assert r[j] == fs[j] && fs[j] != f && (j < |fs| - 1 ==> fs[j] != fs[|fs| - 1]);
        assert Before(r, j) == Before(fs, j);
      }
    }
  }

  /** What methods need of LinksOk when they keep it hidden. */
  lemma ListShape(handles: set<int>, fs: seq<int>, l: Links)
    ensures LinksOk(handles, fs, l, {}) ==>
      Distinct(fs) && (forall f :: f in fs ==> f in handles) && l.first == At(fs, 0)
  {}

  // ---- the sweep ---------------------------------------------------------------------

  lemma KeptStep(s: seq<int>, st: map<int, Stat>)
    requires forall f :: f in s ==> f in st
    ensures Kept(s, st) ==
      if s == [] then [] else if st[s[0]].cancel then Kept(s[1..], st) else [s[0]] + Kept(s[1..], st)
  {}

  lemma {:induction false} KeptSnoc(s: seq<int>, x: int, st: map<int, Stat>)
    requires (forall f :: f in s ==> f in st) && x in st
    ensures Kept(s + [x], st) == if st[x].cancel then Kept(s, st) else Kept(s, st) + [x]
    decreases |s|
  {
    hide Kept;
    assert forall f :: f in s + [x] ==> f in s || f == x;
    KeptStep(s + [x], st);
    KeptStep(s, st);
    KeptStep([], st);
    if s == [] {
      assert s + [x] == [x] && [x][1..] == [];
    } else {
      assert (s + [x])[0] == s[0] && (s + [x])[1..] == s[1..] + [x];
      KeptSnoc(s[1..], x, st);
    }
  }

  /** The queue after the first `k` files have been looked at. */
  ghost function Partly(s: seq<int>, st: map<int, Stat>, k: nat): seq<int>
    requires k <= |s| && forall f :: f in s ==> f in st
  {
    Kept(s[..k], st) + s[k..]
  }

  ghost function PartlyStat(s: seq<int>, st: map<int, Stat>, k: nat): map<int, Stat>
    requires k <= |s|
  {
    map f | f in st :: if f in s[..k] && st[f].cancel then Released(Canceled) else st[f]
  }

  lemma PartlyDistinct(s: seq<int>, st: map<int, Stat>, k: nat)
    requires k <= |s| && Distinct(s) && forall f :: f in s ==> f in st
    ensures Distinct(Partly(s, st, k))
  {
    var kept, p := Kept(s[..k], st), Partly(s, st, k);
    assert Distinct(kept) by { assert Distinct(s[..k]); }
    forall i, j | 0 <= i < j < |p|
      ensures p[i] != p[j]
    {
      if i < |kept| <= j {
        assert kept[i] in s[..k] && p[j] == s[k + (j - |kept|)];
      }
    }
  }

  lemma SweepList(s: seq<int>, st: map<int, Stat>, k: nat)
    requires k < |s| && Distinct(s) && forall f :: f in s ==> f in st
    ensures Partly(s, st, k)[|Kept(s[..k], st)|] == s[k]
    ensures |Kept(s[..k + 1], st)| == |Kept(s[..k], st)| + if st[s[k]].cancel then 0 else 1
    ensures Partly(s, st, k + 1) == if st[s[k]].cancel then Without(Partly(s, st, k), s[k]) else Partly(s, st, k)
  {
    hide Kept, Distinct;
    var kept, p := Kept(s[..k], st), Partly(s, st, k);
    KeptSnoc(s[..k], s[k], st);
    assert s[..k + 1] == s[..k] + [s[k]];
    PartlyDistinct(s, st, k);
    SpliceOne(kept, s, k);
    WithoutAtIf(p, |kept|);
  }

  lemma WithoutAtIf(s: seq<int>, i: nat)
    ensures Distinct(s) && i < |s| ==> Without(s, s[i]) == s[..i] + s[i + 1..]
  {
    if Distinct(s) && i < |s| { WithoutAt(s, i); }
  }

  lemma SpliceOne(kept: seq<int>, s: seq<int>, k: nat)
    requires k < |s|
    ensures var p := kept + s[k..];
      && p[|kept|] == s[k] && p[..|kept|] + p[|kept| + 1..] == kept + s[k + 1..]
      && (kept + [s[k]]) + s[k + 1..] == p
  {}

  lemma SweepStat(s: seq<int>, st: map<int, Stat>, k: nat)
    requires k < |s| && Distinct(s) && s[k] in st
    ensures PartlyStat(s, st, k)[s[k]] == st[s[k]]
    ensures PartlyStat(s, st, k + 1) ==
            if st[s[k]].cancel then PartlyStat(s, st, k)[s[k] := Released(Canceled)] else PartlyStat(s, st, k)
  {
    assert s[..k + 1] == s[..k] + [s[k]];
    assert s[k] !in s[..k];
  }

  /** Nothing in the swept queue is still marked. */
  lemma SweepDone(s: seq<int>, st: map<int, Stat>, i: nat)
    requires (forall f :: f in s ==> f in st) && i < |Partly(s, st, |s|)|
    ensures var f := Partly(s, st, |s|)[i]; f in st && !PartlyStat(s, st, |s|)[f].cancel
  {
    assert s[..|s|] == s;
    assert Kept(s, st)[i] in Kept(s, st);
  }

  /** Loop invariant of the sweep, at position `i` of the queue after `k` files of `s` were looked at. */
  ghost predicate SweepAt(s: seq<int>, st: map<int, Stat>, k: nat, i: nat, fs: seq<int>, stat: map<int, Stat>) {
    && k <= |s| && i <= |fs| && Distinct(s) && (forall f :: f in s ==> f in st)
    && fs == Partly(s, st, k) && stat == PartlyStat(s, st, k)
    && (i == |Kept(s[..k], st)| || k == |s|)
  }

  lemma SweepStart(s: seq<int>, st: map<int, Stat>)
    requires Distinct(s) && forall f :: f in s ==> f in st
    ensures SweepAt(s, st, 0, 0, s, st)
  {
    assert s[..0] == [] && s[0..] == s;
  }

  lemma SweepStop(s: seq<int>, st: map<int, Stat>, k: nat, i: nat, fs: seq<int>, stat: map<int, Stat>)
    requires SweepAt(s, st, k, i, fs, stat) && i == |fs|
    ensures fs == Kept(s, st) && stat == PartlyStat(s, st, |s|)
  {
    assert s[..|s|] == s && s[|s|..] == [];
  }

  lemma SweptStat(s: seq<int>, st: map<int, Stat>)
    ensures PartlyStat(s, st, |s|) == map f | f in st :: if f in s && st[f].cancel then Released(Canceled) else st[f]
  {
    assert s[..|s|] == s;
  }

  lemma SweepMove(s: seq<int>, st: map<int, Stat>, k: nat, i: nat, fs: seq<int>, stat: map<int, Stat>)
    returns (k2: nat, i2: nat)
    requires SweepAt(s, st, k, i, fs, stat) && i < |fs|
    ensures fs[i] in stat
    ensures var f := fs[i];
            var fs2 := if stat[f].cancel then Without(fs, f) else fs;
            var stat2 := if stat[f].cancel then stat[f := Released(Canceled)] else stat;
            && SweepAt(s, st, k2, i2, fs2, stat2) && (k < k2 <= |s| || (k == k2 && |fs2| - i2 < |fs| - i))
            && At(fs2, i2) == if stat[f].cancel && i + 1 == |fs| then At(fs2, 0) else At(fs, i + 1)
  {
    if k < |s| {
      SweepList(s, st, k);
      SweepStat(s, st, k);
      k2 := k + 1;
      i2 := if !stat[fs[i]].cancel then i + 1 else if i + 1 < |fs| then i else 0;
    } else {
      SweepDone(s, st, i);
      k2, i2 := k, i + 1;
    }
  }

  // ---- the loop of FS_UnloadArchive --------------------------------------------------

  ghost function AllReleased(s: seq<int>, st: map<int, Stat>, k: nat): map<int, Stat>
    requires k <= |s|
  {
    map f | f in st :: if f in s[..k] then Released(Canceled) else st[f]
  }

  lemma ReleasedStart(s: seq<int>, st: map<int, Stat>)
    ensures AllReleased(s, st, 0) == st
  {}

  ghost function Emptied(q: Queue<int>): Queue<int> {
    q.(unloading := true, list := [], files := AllReleased(q.list, q.files, |q.list|))
  }

  lemma AcceptIs(q: Queue<int>, f: int, bit: bool)
    requires f in q.files && !q.unloading
    ensures var sync := q.files[f].sync || bit;
      && Enqueue(q, f, bit).0 == q.(list := Without(q.list, f) + [f], files := q.files[f := q.files[f].(sync := sync)],
                                    running := q.running || !q.suspend)
      && Enqueue(q, f, bit).1 == if !q.suspend && !q.running then StartNow else if !sync then Queued else Sleep
  {
    hide Without;
  }

  /** The queue after FS_UnloadArchive has called FS_ResumeArchive, if it does. */
  ghost function Reopened(q: Queue<int>, resume: bool): Queue<int> {
    if resume then Resume(Emptied(q)).q else Emptied(q)
  }

  lemma UnloadIs(q: Queue<int>, resume: bool)
    requires ListOk(q)
    ensures Unload(q, resume) == Reopened(q, resume).(canceling := false, loaded := false, unloading := false)
  {
    assert q.list[..|q.list|] == q.list;
    assert AllReleased(q.list, q.files, |q.list|)
        == map f | f in q.files :: if f in q.list then Released(Canceled) else q.files[f];
  }

  lemma ReleasedStep(s: seq<int>, st: map<int, Stat>, k: nat)
    requires k < |s| && Distinct(s) && s[k] in st
    ensures AllReleased(s, st, k + 1) == AllReleased(s, st, k)[s[k] := Released(Canceled)]
    ensures s[k..][0] == s[k] && Without(s[k..], s[k]) == s[k + 1..]
  {
    assert s[..k + 1] == s[..k] + [s[k]];
    assert Distinct(s[k..]) && s[k..] == [s[k]] + s[k + 1..];
    assert s[k..][1..] == s[k + 1..] && s[k] !in s[k + 1..];
  }

  lemma NextOfHead(handles: set<int>, fs: seq<int>, l: Links)
    ensures LinksOk(handles, fs, l, {}) && fs != [] ==> fs[0] in l.next && l.next[fs[0]] == At(fs, 1)
  {}

  // ---- the object --------------------------------------------------------------------

  class FSArchive {
    ghost const handles: set<int>
    ghost var files: seq<int>      // the queued commands, head first

    var first: Ref                 // list.next
    var next: map<int, Ref>        // FSFile.link.next
    var prev: map<int, Ref>        // FSFile.link.prev
    var stat: map<int, Stat>       // FSFile.stat and FSFile.error

    var running: bool
    var suspend: bool
    var suspending: bool
    var canceling: bool
    var unloading: bool
    var loaded: bool
    var isAsync: bool
    var isSync: bool

    ghost function Snapshot(): Links
      reads this
    {
      Links(first, next, prev)
    }

    ghost predicate Valid()
      reads this
    {
      stat.Keys == handles && LinksOk(handles, files, Snapshot(), {})
    }

    /** The state that the state machine works on. */
    ghost function View(): Queue<int>
      reads this
    {
      Queue(files, stat, running, suspend, suspending, canceling, unloading, loaded, isAsync, isSync)
    }

    /** FS_InitArchive, with the file handles that will be used with the archive after FS_InitFile. */
    constructor (handles: set<int>)
      ensures Valid() && this.handles == handles
      ensures View() == Queue([], map f | f in handles :: Released(Success),
                              false, false, false, false, false, false, false, false)
    {
      this.handles := handles;
      files := [];
      first := Null;
      next := map f | f in handles :: Null;
      prev := map f | f in handles :: Null;
      stat := map f | f in handles :: Released(Success);
      running, suspend, suspending, canceling := false, false, false, false;
      unloading, loaded, isAsync, isSync := false, false, false, false;
    }

    // ---- util.h ----------------------------------------------------------------------

    method SetNext(at: Ref, to: Ref)
      requires !at.Null?
      modifies `first, `next
      ensures first == if at == List then to else old(first)
      ensures next == if at.File? then old(next)[at.id := to] else old(next)
    {
      if at == List { first := to; } else { next := next[at.id := to]; }
    }

    /** FSi_CutFromListCore */
    method CutFromListCore(elem: int)
      requires elem in next && elem in prev
      modifies `first, `next, `prev
      ensures Snapshot() == CutOut(old(Snapshot()), old(prev[elem]), old(next[elem]))
    {
      var pr, nx := prev[elem], next[elem];
      if pr != Null { SetNext(pr, nx); }
      if nx.File? { prev := prev[nx.id := pr]; }
    }

    /** FSi_CutFromList: `elem` leaves the queue, wherever it was in it. */
    method CutFromList(elem: int)
      requires elem in handles
      requires (LinksOk(handles, files, Snapshot(), {}) || HeadSkipped(handles, files, Snapshot(), elem))
      modifies `first, `next, `prev, `files
      ensures LinksOk(handles, files, Snapshot(), {}) && files == Without(old(files), elem)
    {
      CutKeeps(handles, files, Snapshot(), elem);
      CutFromListCore(elem);
      files := Without(files, elem);
      DetachKeeps(handles, files, Snapshot(), elem);
      next, prev := next[elem := Null], prev[elem := Null];
    }

    /** FSi_AppendToList: wherever `elem` was, it is now at the end. */
    method AppendToList(elem: int)
      requires LinksOk(handles, files, Snapshot(), {}) && elem in handles
      modifies `first, `next, `prev, `files
      ensures LinksOk(handles, files, Snapshot(), {}) && files == Without(old(files), elem) + [elem]
    {
      CutKeeps(handles, files, Snapshot(), elem);
      CutFromListCore(elem);
      files := Without(files, elem);
      AppendKeeps(handles, files, Snapshot(), elem);
      var tail := FindTail();
      SetNext(tail, File(elem));
      prev := prev[elem := tail];
      next := next[elem := Null];
      files := files + [elem];
    }

    method FindTail() returns (tail: Ref)
      requires Forward(files, Snapshot())
      ensures tail == Before(files, |files|)
    {
      tail := List;
      var behind := first;
      ghost var i := 0;
      while behind != Null
        invariant 0 <= i <= |files| && tail == Before(files, i) && behind == At(files, i)
        decreases |files| - i
      {
        tail := behind;
        assert tail == File(files[i]) && Snapshot().next[files[i]] == At(files, i + 1);
        behind := next[tail.id];
        i := i + 1;
      }
    }

    // ---- fs_command.c ----------------------------------------------------------------

    /** FSi_ReleaseCommand */
    method ReleaseCommand(f: int, ret: FsResult)
      requires stat.Keys == handles && f in handles
      requires LinksOk(handles, files, Snapshot(), {}) || HeadSkipped(handles, files, Snapshot(), f)
      modifies `first, `next, `prev, `files, `stat
      ensures LinksOk(handles, files, Snapshot(), {}) && stat.Keys == handles
      ensures files == Without(old(files), f) && stat == old(stat)[f := Released(ret)]
    {
      hide LinksOk, HeadSkipped, Without;
      CutFromList(f);
      stat := stat[f := stat[f].(cancel := false, busy := false, sync := false, isAsync := false, operating := false)];
      stat := stat[f := stat[f].(error := ret)];
      assert stat == old(stat)[f := Released(ret)];
    }

    /** FSi_TranslateCommand, up to the call of the command function */
    method TranslateBegin(f: int)
      requires Valid() && f in handles
      modifies `isSync, `isAsync
      ensures Valid() && f in View().files && View() == CommandQueue.TranslateBegin(old(View()), f)
    {
      if stat[f].sync { isSync := true; } else { isAsync := true; }
    }

    /** FSi_TranslateCommand, after a command function that did not return PROC_ASYNC */
    method TranslateEnd(f: int, ret: FsResult)
      requires Valid() && f in handles
      modifies this
      ensures Valid() && f in old(View()).files && View() == CommandQueue.TranslateEnd(old(View()), f, ret)
    {
      hide LinksOk, Without;
      if !stat[f].sync {
        FinishAsync(f, ret);
      } else {
        isSync := false;
        stat := stat[f := stat[f].(error := ret)];
      }
    }

    method FinishAsync(f: int, ret: FsResult)
      requires Valid() && f in handles
      modifies `first, `next, `prev, `files, `stat, `isAsync
      ensures Valid() && View() == Release(old(View()).(isAsync := false), f, ret)
    {
      hide LinksOk, Without;
      isAsync := false;
      ReleaseCommand(f, ret);
    }

    // ---- fs_archive.c ----------------------------------------------------------------

    /** FSi_SendCommand before its first region, with the SYNC bit of a blocking read or write */
    method PrepareCommand(f: int, blocking: bool)
      requires Valid() && f in handles
      modifies `stat
      ensures Valid() && f in old(View()).files && View() == Prepare(old(View()), f, blocking)
    {
      stat := stat[f := stat[f].(busy := true, error := Busy, sync := stat[f].sync || blocking)];
    }

    /** One iteration of the cancel sweep, at the file in position `i`. */
    method SweepOne(p: int, ghost i: nat) returns (q: Ref)
      requires Valid() && i < |files| && files[i] == p
      modifies `first, `next, `prev, `files, `stat
      ensures Valid() && p in old(stat)
      ensures if old(stat)[p].cancel
              then files == Without(old(files), p) && stat == old(stat)[p := Released(Canceled)]
                   && q == if i + 1 < |old(files)| then File(old(files)[i + 1]) else At(files, 0)
              else files == old(files) && stat == old(stat) && q == At(files, i + 1)
    {
      assert Snapshot().next[files[i]] == At(files, i + 1);
      q := next[p];
      if stat[p].cancel {
        if first == File(p) { first := q; }
        ReleaseCommand(p, Canceled);
        if q == Null { q := first; }
      }
    }

    /** The cancel sweep of FSi_NextCommand. It restarts at the head when it released the last file,
        and still ends. */
    method CancelSweep()
      requires Valid()
      modifies `first, `next, `prev, `files, `stat
      ensures Valid()
      ensures files == Kept(old(files), old(stat)) && stat == PartlyStat(old(files), old(stat), |old(files)|)
    {
      hide LinksOk, Kept, Without, PartlyStat, Partly, Distinct;
      ghost var s, st := files, stat;
      ghost var k, i := 0, 0;
      var p := first;
      ListShape(handles, files, Snapshot());
      SweepStart(s, st);
      while p != Null
        invariant Valid() && 0 <= i <= |files| && 0 <= k <= |s|
        invariant SweepAt(s, st, k, i, files, stat) && p == At(files, i)
        decreases |s| - k, |files| - i
      {
        ghost var j := i;
        k, i := SweepMove(s, st, k, i, files, stat);
        p := SweepOne(p.id, j);
      }
      SweepStop(s, st, k, i, files, stat);
    }

    method SweepIfCanceling()
      requires Valid()
      modifies `first, `next, `prev, `files, `stat, `canceling
      ensures Valid() && ListOk(old(View())) && View() == Sweep(old(View()))
    {
      hide LinksOk, Kept, PartlyStat, Distinct;
      ListShape(handles, files, Snapshot());
      if canceling {
        canceling := false;
        SweptStat(files, stat);
        CancelSweep();
      }
    }

    /** FSi_NextCommand, first region. */
    method NextCommand() returns (chosen: Ref, start: bool, idle: bool)
      requires Valid()
      modifies this
      ensures Valid()
      ensures ListOk(old(View())) && var pick := Next(old(View()));
        View() == pick.q && start == pick.start && idle == pick.idle
        && chosen == if pick.chosen.Some? then File(pick.chosen.value) else Null
    {
      hide LinksOk, Sweep, Distinct;
      SweepIfCanceling();
      ListShape(handles, files, Snapshot());
      if !suspending && !suspend && first != Null {
        start := !running;
        running := true;
        chosen, idle := first, false;
        return;
      }
      start, idle, chosen := false, running, Null;
      running := false;
      if suspending {
        suspending := false;
        suspend := true;
      }
    }

    /** The OPERATING bit, second region of FSi_NextCommand and of FSi_SendCommand. */
    method SetOperating(f: int)
      requires Valid() && f in handles
      modifies `stat
      ensures Valid() && View() == Operate(old(View()), f)
    {
      stat := stat[f := stat[f].(operating := true)];
    }

    /** The region of FSi_ExecuteAsyncCommand; `mine` is false when the command became synchronous. */
    method BeginAsync(f: int) returns (mine: bool)
      requires Valid() && f in handles
      modifies `stat
      ensures Valid() && mine == !old(stat[f]).sync
      ensures View() == if mine then MarkAsync(old(View()), f) else Operate(old(View()), f)
    {
      stat := stat[f := stat[f].(operating := true)];
      mine := !stat[f].sync;
      if mine {
        ghost var before := old(stat);
        stat := stat[f := stat[f].(isAsync := true)];
        assert stat == before[f := before[f].(operating := true, isAsync := true)];
      }
    }

    /** FSi_SendCommand, first region; `bit` is set for the commands of FS_ARCHIVE_PROC_SYNC. */
    method SendCommand(f: int, bit: bool) returns (sent: Sent)
      requires Valid() && f in handles
      modifies this
      ensures Valid() && View() == Enqueue(old(View()), f, bit).0 && sent == Enqueue(old(View()), f, bit).1
    {
      hide LinksOk, Without;
      if unloading {
        ReleaseCommand(f, Canceled);
        sent := Rejected;
      } else {
        sent := Accept(f, bit);
      }
    }

    method Accept(f: int, bit: bool) returns (sent: Sent)
      requires Valid() && f in handles && !unloading
      modifies this
      ensures Valid() && View() == Enqueue(old(View()), f, bit).0 && sent == Enqueue(old(View()), f, bit).1
    {
      hide LinksOk, Without, Enqueue;
      AcceptIs(View(), f, bit);
      Admit(f, bit);
      if !suspend && !running {
        running := true;
        sent := StartNow;
      } else {
        sent := if !stat[f].sync then Queued else Sleep;
      }
    }

    method Admit(f: int, bit: bool)
      requires Valid() && f in handles
      modifies `first, `next, `prev, `files, `stat
      ensures Valid() && files == Without(old(files), f) + [f]
      ensures stat == old(stat)[f := old(stat)[f].(sync := old(stat)[f].sync || bit)]
    {
      hide LinksOk, Without;
      if bit { stat := stat[f := stat[f].(sync := true)]; }
      assert stat == old(stat)[f := old(stat)[f].(sync := old(stat)[f].sync || bit)];
      AppendToList(f);
    }

    /** FS_SuspendArchive up to its sleep. */
    method SuspendArchive() returns (sleep: bool)
      requires Valid()
      modifies `suspend, `suspending
      ensures Valid() && (View(), sleep) == Suspend(old(View()))
    {
      sleep := false;
      if !suspend {
        if running { suspending := true; sleep := true; } else { suspend := true; }
      }
    }

    /** FS_ResumeArchive, with the first region of the FSi_NextCommand it calls. */
    method ResumeArchive() returns (chosen: Ref, start: bool, idle: bool)
      requires Valid()
      modifies this
      ensures Valid()
      ensures ListOk(old(View())) && var pick := Resume(old(View()));
        View() == pick.q && start == pick.start && idle == pick.idle
        && chosen == if pick.chosen.Some? then File(pick.chosen.value) else Null
    {
      hide LinksOk, Next, Distinct;
      ListShape(handles, files, Snapshot());
      chosen, start, idle := Null, false, false;
      if suspend {
        suspend := false;
        chosen, start, idle := NextCommand();
      }
    }

    /** The loop of FS_UnloadArchive, which releases every queued command. */
    method ReleaseAll()
      requires Valid()
      modifies `first, `next, `prev, `files, `stat
      ensures Valid() && files == []
      ensures stat == AllReleased(old(files), old(stat), |old(files)|)
    {
      hide LinksOk, AllReleased, Without;
      ghost var s, st := files, stat;
      ghost var k := 0;
      var p := first;
      ListShape(handles, files, Snapshot());
      ReleasedStart(s, st);
      while p != Null
        invariant 0 <= k <= |s| && Valid() && Distinct(s) && (forall f :: f in s ==> f in st)
        invariant files == s[k..] && stat == AllReleased(s, st, k) && p == At(files, 0)
        decreases |s| - k
      {
        ReleasedStep(s, st, k);
        NextOfHead(handles, files, Snapshot());
        var q := next[p.id];
        ReleaseCommand(p.id, Canceled);
        p := q;
        k := k + 1;
      }
      ListShape(handles, files, Snapshot());
      ghost var l := Snapshot();
      first := Null;
      assert Snapshot() == l;
    }

    method CancelQueue()
      requires Valid()
      modifies `first, `next, `prev, `files, `stat, `unloading
      ensures Valid() && ListOk(old(View())) && View() == Emptied(old(View()))
    {
      hide LinksOk, AllReleased, Distinct;
      ListShape(handles, files, Snapshot());
      unloading := true;
      ReleaseAll();
    }

    method CancelAndResume(resume: bool)
      requires Valid()
      modifies this
      ensures Valid() && ListOk(old(View())) && View() == Reopened(old(View()), resume)
    {
      hide LinksOk, Distinct, Resume, Emptied;
      ListShape(handles, files, Snapshot());
      CancelQueue();
      if resume { var _, _, _ := ResumeArchive(); }
    }

    /** FS_UnloadArchive behind its call of FS_SuspendArchive. */
    method UnloadArchive(resume: bool)
      requires Valid()
      modifies this
      ensures Valid() && ListOk(old(View())) && View() == Unload(old(View()), resume)
    {
      hide LinksOk, Distinct, Reopened, Unload;
      ListShape(handles, files, Snapshot());
      UnloadIs(View(), resume);
      CancelAndResume(resume);
      canceling, loaded, unloading := false, false, false;
    }

    /** FS_NotifyArchiveAsyncEnd up to its call of FSi_NextCommand. */
    method NotifyAsyncEnd(ret: FsResult)
      requires Valid() && first != Null
      modifies this
      ensures Valid() && ListOk(old(View())) && old(files) != [] && View() == Notify(old(View()), ret)
    {
      hide LinksOk, Distinct, Without;
      ListShape(handles, files, Snapshot());
      if isAsync {
        FinishAsync(first.id, ret);
      } else {
        stat := stat[first.id := stat[first.id].(error := ret)];
        isSync := false;
      }
    }

    // ---- fs_file.c -------------------------------------------------------------------

    /** FS_WaitAsync: the caller becomes the owner of a command that nobody executes yet. */
    method WaitAsync(f: int) returns (owner: bool)
      requires Valid() && f in handles
      modifies `stat
      ensures Valid()
      ensures owner == (old(stat[f]).busy && !old(stat[f]).sync && !old(stat[f]).operating)
      ensures View() == if owner then TakeOver(old(View()), f) else old(View())
    {
      owner := false;
      if stat[f].busy {
        owner := !(stat[f].sync || stat[f].operating);
        if owner { stat := stat[f := stat[f].(sync := true)]; }
      }
    }

    /** FS_CancelFile */
    method CancelFile(f: int)
      requires Valid() && f in handles
      modifies `stat, `canceling
      ensures Valid() && View() == Cancel(old(View()), f)
    {
      if stat[f].busy {
        stat := stat[f := stat[f].(cancel := true)];
        canceling := true;
      }
    }
  }
}
