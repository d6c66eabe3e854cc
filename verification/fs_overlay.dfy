/** FS_EndOverlay of fs_overlay.c: the entries of the global destructor chain that belong to an overlay
    are unlinked in place, keeping both orders, and their destructors run; this repeats until nothing
    belongs any more. */
module OverlayEnd {
  import opened Basics
  import opened Bytes

  /** MWiDestructorChain */
  class Entry {
    var next: Entry?
    const dtor: nat
    const obj: nat

    constructor (dtor: nat, obj: nat, next: Entry?)
      ensures this.dtor == dtor && this.obj == obj && this.next == next
    {
      this.dtor, this.obj, this.next := dtor, obj, next;
    }
  }

  datatype Region = Region(top: nat, bottom: nat)

  predicate Belongs(e: Entry, r: Region) {
    || (e.obj == 0 && r.top <= e.dtor < r.bottom)
    || r.top <= e.obj < r.bottom
  }

  /** The entries that belong to `r` (or do not), in chain order. */
  function Select(s: seq<Entry>, r: Region, belonging: bool): (t: seq<Entry>)
    ensures forall e | e in t :: e in s && Belongs(e, r) == belonging
    ensures forall e | e in s && Belongs(e, r) == belonging :: e in t
  {
    if s == [] then []
    else
      var e := s[|s| - 1];
      assert s == s[..|s| - 1] + [e];
      Select(s[..|s| - 1], r, belonging) + if Belongs(e, r) == belonging then [e] else []
  }

  /** The calls that running the destructors of `s` in order makes; an entry without destructor is skipped. */
  function Calls(s: seq<Entry>): seq<(nat, nat)> {
    if s == [] then [] else (if s[0].dtor != 0 then [(s[0].dtor, s[0].obj)] else []) + Calls(s[1..])
  }

  function At(s: seq<Entry>, i: int): Entry? {
    if 0 <= i < |s| then s[i] else null
  }

  function Last(s: seq<Entry>): Entry? {
    At(s, |s| - 1)
  }

  lemma AtHead(s: seq<Entry>)
    ensures At(s, 0) == if s == [] then null else s[0]
    ensures At(s, |s|) == null && Last([]) == null
  {}

  lemma AtEnd(s: seq<Entry>, i: nat)
    ensures At(s, i) == null && i <= |s| ==> s[..i] == s && s[i..] == []
  {}

  /** `s` is linked through `next` and ends with NULL. */
  ghost predicate Linked(s: seq<Entry>)
    reads s
  {
    Distinct(s) && forall i {:trigger s[i].next} :: 0 <= i < |s| ==> s[i].next == At(s, i + 1)
  }

  class Chain {
    var first: Entry?             // __global_destructor_chain
    ghost var entries: seq<Entry>
    ghost const nodes: set<Entry> // all entries that are or were in the chain
    var ran: seq<(nat, nat)>      // the destructor calls so far

    ghost predicate Valid()
      reads this, nodes, entries
    {
      first == At(entries, 0) && Linked(entries) && forall e | e in entries :: e in nodes
    }

    constructor (ghost entries: seq<Entry>, first: Entry?)
      requires first == At(entries, 0) && Linked(entries)
      ensures Valid() && this.entries == entries && ran == []
    {
      this.first, this.entries, ran := first, entries, [];
      nodes := set e | e in entries;
    }

    /** One entry moves from position `k` of the chain to the end of the list of removed entries. */
    method Move(p: Entry, prev: Entry?, tail: Entry?, ghost k: nat, ghost removed: seq<Entry>)
      requires Valid() && Linked(removed) && (forall e | e in entries :: e !in removed)
      requires (forall e | e in removed :: e in nodes)
      requires k < |entries| && p == entries[k] && prev == At(entries, k - 1) && tail == At(removed, |removed| - 1)
      modifies this`first, this`entries, nodes
      ensures Valid() && Linked(removed + [p])
      ensures entries == old(entries)[..k] + old(entries)[k + 1..]
    {
      var next := p.next;
      ghost var was := entries;
      assert next == At(was, k + 1);
      if tail != null { tail.next := p; }
      if first == p { first := next; }
      p.next := null;
      if prev != null { prev.next := next; }
      entries := was[..k] + was[k + 1..];
      Unlinked(was, k, entries);
      forall i {:trigger entries[i].next} | 0 <= i < |entries|
        ensures entries[i].next == At(entries, i + 1)
      {
        ghost var j := if i < k then i else i + 1;
        assert entries[i] == was[j] && was[j] != p && was[j] !in removed
            && (j != k - 1 && k > 0 ==> was[j] != was[k - 1]);
        assert i == k - 1 || entries[i].next == old(was[j].next) == At(was, j + 1);
      }
      ghost var r := removed + [p];
      forall i {:trigger r[i].next} | 0 <= i < |r|
        ensures r[i].next == At(r, i + 1)
      {
        if i < |removed| {
          assert r[i] == removed[i] && removed[i] in removed && removed[i] !in was;
          assert i < |removed| - 1 ==>
            removed[i] != removed[|removed| - 1] && removed[i].next == old(removed[i].next) == At(removed, i + 1);
        }
      }
      assert Distinct(r);
    }

    /** One entry of the walk, behind the `kept` ones: it moves to the removed entries if it belongs to the
        region. */
    method Visit(p: Entry, prev: Entry?, tail: Entry?, head: Entry?, ghost kept: seq<Entry>, ghost rest: seq<Entry>,
                 ghost removed: seq<Entry>, r: Region)
      returns (p2: Entry?, prev2: Entry?, tail2: Entry?, head2: Entry?)
      requires Valid() && Linked(removed) && entries == kept + rest && rest != [] && p == rest[0]
      requires (forall e | e in entries :: e !in removed) && (forall e | e in removed :: e in nodes)
      requires prev == Last(kept) && tail == Last(removed) && head == At(removed, 0)
      modifies this`first, this`entries, nodes
      ensures Valid() && p2 == At(rest, 1)
      ensures if Belongs(p, r)
              then entries == kept + rest[1..] && Linked(removed + [p])
                   && prev2 == prev && tail2 == p && head2 == (removed + [p])[0]
              else entries == (kept + [p]) + rest[1..] && Linked(removed)
                   && prev2 == p && tail2 == tail && head2 == head
    {
      ghost var k := |kept|;
      assert entries[k] == p && entries[..k] + entries[k + 1..] == kept + rest[1..]
          && At(entries, k + 1) == At(rest, 1);
      assert entries == (kept + [p]) + rest[1..];
      p2, prev2, tail2, head2 := p.next, prev, tail, head;
      if Belongs(p, r) {
        if tail == null { head2 := p; }
        Move(p, prev, tail, k, removed);
        tail2 := p;
      } else {
        prev2 := p;
      }
    }

    /** The first half of the loop of FS_EndOverlay: one walk over the chain that takes out what belongs
        to the region. */
    method Detach(r: Region) returns (head: Entry?, ghost removed: seq<Entry>)
      requires Valid()
      modifies this`first, this`entries, nodes
      ensures Valid() && entries == Select(old(entries), r, false)
      ensures removed == Select(old(entries), r, true) && Linked(removed) && head == At(removed, 0)
    {
      hide Select, Linked, At;
      ghost var s, i := entries, 0;
      ghost var kept := [];
      head, removed := null, [];
      var tail: Entry?, prev: Entry?, p := null, null, first;
      SelectStart(s, r);
      assert Distinct(s) && Linked(removed) by { EmptyLinked(s); }
      AtHead([]);
      while p != null
        invariant 0 <= i <= |s| && p == At(s, i) && Valid() && Linked(removed) && (forall e | e in s :: e in nodes)
        invariant kept == Select(s[..i], r, false) && removed == Select(s[..i], r, true) && entries == kept + s[i..]
        invariant prev == Last(kept) && tail == Last(removed) && head == At(removed, 0)
        decreases |s| - i
      {
        ghost var e := p;
        StepFacts(s, r, i);
        p, prev, tail, head := Visit(p, prev, tail, head, kept, s[i..], removed, r);
        if Belongs(e, r) { removed := removed + [e]; } else { kept := kept + [e]; }
        AtHead(removed);
        i := i + 1;
      }
      AtEnd(s, i);
    }

    /** The second half: the destructors of the removed entries run in order. They register nothing. */
    method RunAll(head0: Entry, ghost removed: seq<Entry>)
      requires Linked(removed) && removed != [] && head0 == removed[0]
      modifies `ran
      ensures ran == old(ran) + Calls(removed)
    {
      var head: Entry? := head0;
      ghost var i := 0;
      assert removed[0..] == removed;
      while head != null
        invariant 0 <= i <= |removed| && head == At(removed, i)
        invariant ran + Calls(removed[i..]) == old(ran) + Calls(removed)
        decreases |removed| - i
      {
        var next := head.next;
        assert removed[i..][0] == head && removed[i..][1..] == removed[i + 1..];
        if head.dtor != 0 { ran := ran + [(head.dtor, head.obj)]; }
        head := next;
        i := i + 1;
      }
    }

    /** FS_EndOverlay: it ends, every destructor of the overlay runs exactly once in chain order, none of
        its entries stays in the chain, and the others keep their order. */
    method EndOverlay(top: nat, size: nat)
      requires Valid()
      modifies this, nodes
      ensures var r := Region(top, (top + size) % WORD);
        && entries == Select(old(entries), r, false)
        && ran == old(ran) + Calls(Select(old(entries), r, true))
      ensures var bottom := (top + size) % WORD;
        forall e | e in entries :: !(top <= e.obj < bottom) && !(e.obj == 0 && top <= e.dtor < bottom)
      ensures Valid()
    {
      hide Select, Linked, Calls;
      ghost var s := entries;
      var r := Region(top, (top + size) % WORD);
      while true
        invariant Valid()
        invariant Select(entries, r, false) == Select(s, r, false)
        invariant ran + Calls(Select(entries, r, true)) == old(ran) + Calls(Select(s, r, true))
        decreases |Select(entries, r, true)|
      {
        SelectTwice(entries, r);
        SelectFrom(entries, r);
        var head;
        ghost var removed;
        head, removed := Detach(r);
        if head == null { break; }
        RunAll(head, removed);
      }
    }
  }

  /** Exactly the destructors of the entries that have one are called, each with its entry's object. */
  lemma {:induction false} CallsExact(s: seq<Entry>, dtor: nat, obj: nat)
    ensures (dtor, obj) in Calls(s) <==> dtor != 0 && exists e :: e in s && e.dtor == dtor && e.obj == obj
  {
    if s != [] {
      CallsExact(s[1..], dtor, obj);
      assert s == [s[0]] + s[1..];
    }
  }

  /** The call for an entry comes behind those for the entries in front of it and before all others. */
  lemma {:induction false} CallPlace(s: seq<Entry>, i: nat)
    requires i < |s|
    ensures Calls(s)
         == Calls(s[..i]) + (if s[i].dtor != 0 then [(s[i].dtor, s[i].obj)] else []) + Calls(s[i + 1..])
  {
    if i > 0 {
      CallPlace(s[1..], i - 1);
      assert s[1..][..i - 1] == s[..i][1..] && s[1..][i..] == s[i + 1..];
    }
  }

  /** What stays and what runs are together the old chain, nothing twice and nothing lost. */
  lemma {:induction false} SelectSplits(s: seq<Entry>, r: Region)
    ensures multiset(Select(s, r, false)) + multiset(Select(s, r, true)) == multiset(s)
  {
    if s != [] {
      var init, e := s[..|s| - 1], s[|s| - 1];
      assert s == init + [e];
      SelectSplits(init, r);
      SelectEnd(init, e, r);
    }
  }

  ghost predicate InOrder(s: seq<Entry>, a: Entry, b: Entry) {
    exists i, j :: 0 <= i < j < |s| && s[i] == a && s[j] == b
  }

  /** Both parts keep the order of the chain. */
  lemma {:induction false} SelectOrders(s: seq<Entry>, r: Region, b: bool, i: nat, j: nat)
    requires i < j < |Select(s, r, b)|
    ensures InOrder(s, Select(s, r, b)[i], Select(s, r, b)[j])
  {
    var init, e := s[..|s| - 1], s[|s| - 1];
    var t := Select(init, r, b);
    assert s == init + [e];
    SelectEnd(init, e, r);
    if j < |t| {
      SelectOrders(init, r, b, i, j);
      var x, y :| 0 <= x < y < |init| && init[x] == t[i] && init[y] == t[j];
      assert s[x] == t[i] && s[y] == t[j];
    } else {
      assert t[i] in init;
      var x :| 0 <= x < |init| && init[x] == t[i];
      assert s[x] == t[i] && s[|s| - 1] == e;
    }
  }

  lemma SelectStart(s: seq<Entry>, r: Region)
    ensures s[..0] == [] && s[0..] == s && Select(s[..0], r, false) == [] && Select(s[..0], r, true) == []
  {}

  lemma SelectStep(s: seq<Entry>, r: Region, i: nat)
    requires i < |s|
    ensures s[i..] == [s[i]] + s[i + 1..]
    ensures forall b ::
      Select(s[..i + 1], r, b) == if Belongs(s[i], r) == b then Select(s[..i], r, b) + [s[i]] else Select(s[..i], r, b)
  {
    assert s[..i + 1][..i] == s[..i];
  }

  /** Nothing is both removed and still in the chain. */
  lemma Apart(s: seq<Entry>, r: Region, i: nat)
    requires i <= |s| && Distinct(s)
    ensures forall e | e in Select(s[..i], r, false) + s[i..] :: e !in Select(s[..i], r, true)
  {}

  lemma EmptyLinked(s: seq<Entry>)
    ensures (Linked(s) ==> Distinct(s)) && Linked([])
  {}

  lemma SelectEnd(s: seq<Entry>, e: Entry, r: Region)
    ensures forall b :: Select(s + [e], r, b) == if Belongs(e, r) == b then Select(s, r, b) + [e] else Select(s, r, b)
  {
    assert (s + [e])[..|s|] == s;
  }

  lemma StepFacts(s: seq<Entry>, r: Region, i: nat)
    requires Distinct(s)
    ensures At(s, i) != null ==>
      && i < |s| && At(s, i) == s[i] && s[i..] != [] && s[i..][0] == s[i]
      && s[i..][1..] == s[i + 1..] && At(s[i..], 1) == At(s, i + 1)
      && (forall b :: Select(s[..i + 1], r, b) ==
           if Belongs(s[i], r) == b then Select(s[..i], r, b) + [s[i]] else Select(s[..i], r, b))
      && (forall e | e in Select(s[..i], r, false) + s[i..] :: e !in Select(s[..i], r, true))
      && (forall e | e in Select(s[..i], r, true) :: e in s)
    ensures forall t: seq<Entry>, e: Entry :: Last(t + [e]) == e
  {
    if i < |s| {
      SelectStep(s, r, i);
      Apart(s, r, i);
      SelectFrom(s[..i], r);
    }
  }

  lemma SelectFrom(s: seq<Entry>, r: Region)
    ensures forall b, e | e in Select(s, r, b) :: e in s
    ensures forall b :: Select([], r, b) == []
    ensures Calls([]) == []
  {}

  lemma {:induction false} SelectTwice(s: seq<Entry>, r: Region)
    ensures Select(Select(s, r, false), r, false) == Select(s, r, false) && Select(Select(s, r, false), r, true) == []
    ensures Select(s, r, true) == [] ==> Select(s, r, false) == s
  {
    hide Select;
    SelectFrom(s, r);
    if s != [] {
      var init, e := s[..|s| - 1], s[|s| - 1];
      SelectTwice(init, r);
      assert s == init + [e];
      SelectEnd(init, e, r);
      SelectEnd(Select(init, r, false), e, r);
      if Belongs(e, r) {
        assert Select(s, r, false) == Select(init, r, false);
      } else {
        assert Select(s, r, false) == Select(init, r, false) + [e];
      }
    }
  }

  lemma Unlinked(was: seq<Entry>, k: nat, rest: seq<Entry>)
    requires k < |was| && Distinct(was) && rest == was[..k] + was[k + 1..]
    ensures Distinct(rest) && was[k] !in rest && forall e | e in rest :: e in was
    ensures At(rest, 0) == if k == 0 then At(was, 1) else At(was, 0)
    ensures k > 0 ==> At(rest, k) == At(was, k + 1)
  {}
}
