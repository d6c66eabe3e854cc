/** The memory class of a section in makelcf (RecgSectionMemTypeByName of createlcf.c): a section
    without a fixed address takes the class of the sections it is placed after, and a mark on the
    sections that are being looked at stops the recursion on cycles. */
module LcfMemType {

  /** tMemType; DUMMY marks a section whose class is being looked for. */
  datatype MemType = None | Dummy | Class(id: nat)

  /** tOverlay: its name, the class its address gives (None without an address), and its AFTER names. */
  datatype Section = Section(name: string, fixed: MemType, afters: seq<string>)

  datatype Target = Main | Unknown | At(index: nat)

  /** The static module and the lists OverlayList and AutoloadList, one behind the other. */
  datatype Layout = Layout(mainName: string, mainType: MemType, sections: seq<Section>) {
    /** Addresses never give the class DUMMY. */
    ghost predicate Proper() {
      mainType != Dummy && forall i | 0 <= i < |sections| :: sections[i].fixed != Dummy
    }

    /** The first section with that name, from `i` on: GetOverlayByName */
    function IndexOf(name: string, i: nat): (r: Target)
      requires i <= |sections|
      ensures r.At? ==> r.index < |sections| && sections[r.index].name == name
      ensures r != Main
      decreases |sections| - i
    {
      if i == |sections| then Unknown else if sections[i].name == name then At(i) else IndexOf(name, i + 1)
    }

    function Find(name: string): (r: Target)
      ensures r.At? ==> r.index < |sections| && sections[r.index].name == name
    {
      if name == mainName then Main else IndexOf(name, 0)
    }

    ghost function Open(m: seq<MemType>): set<nat> {
      set i | 0 <= i < |m| && m[i] == None
    }

    /** What a call may do to the marks: what is known or being looked for stays, and nothing is left
        being looked for. */
    ghost predicate Settles(before: seq<MemType>, after: seq<MemType>) {
      && |after| == |before|
      && forall i | 0 <= i < |before| :: if before[i] == None then after[i] != Dummy else after[i] == before[i]
    }

    // ---- graphs without cycles ---------------------------------------------------------

    /** `rank` falls along every AFTER name that is looked at. */
    ghost predicate Acyclic(rank: seq<nat>) {
      && |rank| == |sections|
      && forall i, k | 0 <= i < |sections| && 0 <= k < |sections[i].afters| && sections[i].fixed == None ::
           var t := Find(sections[i].afters[k]); t.At? ==> rank[t.index] < rank[i]
    }

    /** The class of a name in an acyclic graph. */
    ghost function Ideal(rank: seq<nat>, name: string): (m: MemType)
      requires Acyclic(rank) && Proper()
      ensures m != Dummy
      decreases match Find(name) case At(i) => rank[i] + 1 case _ => 0, 1, 0
    {
      match Find(name)
      case Main => mainType
      case Unknown => None
      case At(i) => if sections[i].fixed != None then sections[i].fixed else Agreed(rank, i, |sections[i].afters|).0
    }

    /** The class on which the first `k` sections before section `i` agree, and whether they do. The
        first class found counts; a later name must have the same one. */
    ghost function Agreed(rank: seq<nat>, i: nat, k: nat): (r: (MemType, bool))
      ensures r.0 != Dummy
      requires Acyclic(rank) && Proper() && i < |sections| && k <= |sections[i].afters| && sections[i].fixed == None
      decreases rank[i] + 1, 0, k
    {
      if k == 0 then (None, true)
      else
        var (m, ok) := Agreed(rank, i, k - 1);
        if !ok then (None, false)
        else
          var mt := Ideal(rank, sections[i].afters[k - 1]);
          if m == None then (mt, true) else if m == mt then (m, true) else (None, false)
    }

    /** What is marked is what the graph says. */
    ghost predicate Consistent(rank: seq<nat>, m: seq<MemType>)
      requires Acyclic(rank) && Proper()
    {
      |m| == |sections| && forall i | 0 <= i < |m| :: m[i].Class? ==>
        m[i] == Ideal(rank, sections[i].name) && Find(sections[i].name) == At(i)
    }

    /** What is being looked for lies above `name`. */
    ghost predicate Above(rank: seq<nat>, m: seq<MemType>, name: string)
      requires Acyclic(rank) && |m| == |sections|
    {
      Find(name).At? ==> forall i | 0 <= i < |m| :: m[i] == Dummy ==> rank[Find(name).index] < rank[i]
    }

    /** Where the result is sure: no cycles, and marks that say nothing wrong. */
    ghost predicate Sure(rank: seq<nat>, m: seq<MemType>, name: string) {
      Proper() && |m| == |sections| && Acyclic(rank) && Consistent(rank, m) && Above(rank, m, name)
    }

    /** A disagreement is final. */
    lemma {:induction false} Disagreed(rank: seq<nat>, i: nat, j: nat, k: nat)
      requires Acyclic(rank) && Proper() && i < |sections|
      requires j <= k <= |sections[i].afters| && sections[i].fixed == None
      requires !Agreed(rank, i, j).1
      ensures Agreed(rank, i, k) == (None, false) || (j == k && Agreed(rank, i, k).0 == None)
      decreases k
    {
      if j < k { Disagreed(rank, i, j, k - 1); }
    }

    /** The first `k` names in front of section `i` are some without a class, up to number `p`, and then at least one of
        class `c` and no others. */
    ghost predicate NoneThen(rank: seq<nat>, i: nat, k: nat, p: nat, c: MemType)
      requires Acyclic(rank) && Proper() && i < |sections| && k <= |sections[i].afters|
    {
      && p < k
      && (forall j | 0 <= j < p :: Ideal(rank, sections[i].afters[j]) == None)
      && (forall j | p <= j < k :: Ideal(rank, sections[i].afters[j]) == c)
    }

    ghost predicate AllNone(rank: seq<nat>, i: nat, k: nat)
      requires Acyclic(rank) && Proper() && i < |sections| && k <= |sections[i].afters|
    {
      forall j | 0 <= j < k :: Ideal(rank, sections[i].afters[j]) == None
    }

    /** A section without an address has class `c` exactly if the names it is placed after have none, up to one of
        them, and class `c` from that one on. */
    lemma ClassExact(rank: seq<nat>, name: string, i: nat, c: MemType)
      requires Acyclic(rank) && Proper() && c.Class? && Find(name) == At(i) && sections[i].fixed == None
      ensures Ideal(rank, name) == c <==> exists p: nat :: NoneThen(rank, i, |sections[i].afters|, p, c)
    {
      AgreedExact(rank, i, |sections[i].afters|, c);
    }

    lemma {:induction false} AgreedExact(rank: seq<nat>, i: nat, k: nat, c: MemType)
      requires Acyclic(rank) && Proper() && c.Class? && i < |sections|
      requires k <= |sections[i].afters| && sections[i].fixed == None
      ensures Agreed(rank, i, k) == (c, true) <==> exists p: nat :: NoneThen(rank, i, k, p, c)
      ensures Agreed(rank, i, k) == (None, true) <==> AllNone(rank, i, k)
      ensures !Agreed(rank, i, k).1 ==> Agreed(rank, i, k).0 == None
      decreases k
    {
      hide Ideal;
      if k > 0 {
        var l := k - 1;
        AgreedExact(rank, i, l, c);
        var mt := Ideal(rank, sections[i].afters[l]);
        if mt == c && AllNone(rank, i, l) { assert NoneThen(rank, i, k, l, c); }
        if p: nat :| NoneThen(rank, i, l, p, c) {
          if mt == c { assert NoneThen(rank, i, k, p, c); }
        }
        if p: nat :| NoneThen(rank, i, k, p, c) {
          if p < l { assert NoneThen(rank, i, l, p, c); } else { assert AllNone(rank, i, l); }
        }
      }
    }

    /** If every section that has no address is placed after known sections, and every class that an address
        gives is `c`, then every known section gets the class `c`. */
    lemma {:induction false} OneClass(rank: seq<nat>, c: MemType, name: string)
      requires Acyclic(rank) && Proper() && c.Class? && mainType == c
      requires forall i | 0 <= i < |sections| ::
        if sections[i].fixed != None then sections[i].fixed == c
        else sections[i].afters != [] &&
             forall k | 0 <= k < |sections[i].afters| :: Find(sections[i].afters[k]) != Unknown
      requires Find(name) != Unknown
      ensures Ideal(rank, name) == c
      decreases match Find(name) case At(i) => rank[i] + 1 case _ => 0
    {
      match Find(name)
      case At(i) =>
        if sections[i].fixed == None {
          var n := |sections[i].afters|;
          forall k | 0 <= k < n ensures Ideal(rank, sections[i].afters[k]) == c {
            OneClass(rank, c, sections[i].afters[k]);
          }
          AllAgree(rank, c, i, n);
        }
      case _ =>
    }

    lemma {:induction false} AllAgree(rank: seq<nat>, c: MemType, i: nat, k: nat)
      requires Acyclic(rank) && Proper() && c.Class? && i < |sections|
      requires k <= |sections[i].afters| && sections[i].fixed == None
      requires forall j | 0 <= j < k :: Ideal(rank, sections[i].afters[j]) == c
      ensures Agreed(rank, i, k) == (if k == 0 then None else c, true)
      decreases k
    {
      if k > 0 { AllAgree(rank, c, i, k - 1); }
    }

    lemma Fewer(before: seq<MemType>, i: nat, now: seq<MemType>)
      requires i < |before| && before[i] == None && Settles(before[i := Dummy], now)
      ensures Open(now) < Open(before)
    {
      assert i in Open(before) && i !in Open(now);
    }

    // ---- the recursive search ----------------------------------------------------------

    /** What RecgSectionMemTypeByName returns, and the marks it leaves. It is defined for every graph. */
    ghost function Recg(mark: seq<MemType>, name: string): (r: (MemType, seq<MemType>))
      requires Proper() && |mark| == |sections|
      ensures Settles(mark, r.1)
      ensures r.0 == Dummy ==> Find(name).At? && mark[Find(name).index] == Dummy
      decreases Open(mark), 0, 0
    {
      match Find(name)
      case Main => (mainType, mark)
      case Unknown => (None, mark)
      case At(i) =>
        if mark[i] != None then (mark[i], mark)
        else if sections[i].fixed != None then (sections[i].fixed, mark[i := sections[i].fixed])
        else
          assert i in Open(mark) && i !in Open(mark[i := Dummy]);
          var (m, now) := RecgAfters(mark[i := Dummy], i, 0, None);
          (m, now[i := m])
    }

    /** The loop over the AFTER names of section `i` from number `k` on, with the class found so far. */
    ghost function RecgAfters(mark: seq<MemType>, i: nat, k: nat, memType: MemType): (r: (MemType, seq<MemType>))
      requires Proper() && |mark| == |sections| && i < |mark| && mark[i] == Dummy
      requires k <= |sections[i].afters| && memType != Dummy
      ensures Settles(mark, r.1) && r.0 != Dummy
      decreases Open(mark), 1, |sections[i].afters| - k
    {
      if k == |sections[i].afters| then (memType, mark)
      else
        var (mt, now) := Recg(mark, sections[i].afters[k]);
        assert Open(now) <= Open(mark);
        if mt == Dummy then (None, now)
        else if memType == None then RecgAfters(now, i, k + 1, mt)
        else if memType != mt then (None, now)
        else RecgAfters(now, i, k + 1, memType)
    }

    /** On a graph without cycles the search finds the class, and leaves marks that are right. */
    lemma {:induction false} RecgSure(rank: seq<nat>, mark: seq<MemType>, name: string)
      requires Sure(rank, mark, name)
      ensures Recg(mark, name).0 == Ideal(rank, name) && Consistent(rank, Recg(mark, name).1)
      decreases Open(mark), 0, 0
    {
      match Find(name)
      case At(i) =>
        if mark[i] == None && sections[i].fixed == None {
          assert i in Open(mark) && i !in Open(mark[i := Dummy]);
          AftersSure(rank, mark[i := Dummy], i, 0, None);
        }
      case _ =>
    }

    lemma {:induction false} AftersSure(rank: seq<nat>, mark: seq<MemType>, i: nat, k: nat, memType: MemType)
      requires Proper() && Acyclic(rank) && Consistent(rank, mark) && i < |mark| && mark[i] == Dummy
      requires forall j | 0 <= j < |mark| :: mark[j] == Dummy ==> rank[i] <= rank[j]
      requires sections[i].fixed == None && k <= |sections[i].afters|
      requires Agreed(rank, i, k) == (memType, true)
      ensures RecgAfters(mark, i, k, memType).0 == Agreed(rank, i, |sections[i].afters|).0
      ensures Consistent(rank, RecgAfters(mark, i, k, memType).1)
      decreases Open(mark), 1, |sections[i].afters| - k
    {
      if k < |sections[i].afters| {
        RecgSure(rank, mark, sections[i].afters[k]);
        var (mt, now) := Recg(mark, sections[i].afters[k]);
        assert Open(now) <= Open(mark);
        if memType == None || memType == mt {
          AftersSure(rank, now, i, k + 1, mt);
        } else {
          Disagreed(rank, i, k + 1, |sections[i].afters|);
        }
      }
    }
  }

  /** The sections of a run of makelcf, whose marks outlive the calls. */
  class Marker {
    const layout: Layout
    var mark: seq<MemType>          // tOverlay.memtype

    ghost predicate Valid()
      reads this
    {
      |mark| == |layout.sections| && layout.Proper()
    }

    constructor (layout: Layout)
      requires layout.Proper()
      ensures Valid() && this.layout == layout && forall i | 0 <= i < |mark| :: mark[i] == None
    {
      this.layout := layout;
      mark := seq(|layout.sections|, i => None);
    }

    /** RecgSectionMemTypeByName */
    method Recg(name: string) returns (mt: MemType)
      requires Valid()
      modifies `mark
      ensures Valid() && (mt, mark) == layout.Recg(old(mark), name)
      decreases layout.Open(mark), 1
    {
      if name == layout.mainName { return layout.mainType; }
      var t := layout.Find(name);
      if t == Unknown { return None; }
      var i := t.index;
      if mark[i] == None {
        var memType := layout.sections[i].fixed;
        if memType == None {
          memType := RecgAfters(i);
        }
        mark := mark[i := memType];
      }
      mt := mark[i];
    }

    /** The loop over the AFTER names of section `i`. */
    method RecgAfters(i: nat) returns (memType: MemType)
      requires Valid() && i < |mark| && mark[i] == None
      modifies `mark
      ensures Valid() && |mark| == |old(mark)|
      ensures (memType, mark) == layout.RecgAfters(old(mark)[i := Dummy], i, 0, None)
      decreases layout.Open(mark), 0
    {
      ghost var before := mark;
      mark := mark[i := Dummy];
      memType := None;
      var k := 0;
      while k < |layout.sections[i].afters|
        invariant k <= |layout.sections[i].afters| && Valid() && memType != Dummy
        invariant layout.Settles(before[i := Dummy], mark)
        invariant layout.RecgAfters(mark, i, k, memType) == layout.RecgAfters(before[i := Dummy], i, 0, None)
      {
        layout.Fewer(before, i, mark);
        var mt := Recg(layout.sections[i].afters[k]);
        if mt == Dummy {           // "Recursive AFTER reference in section"
          return None;
        } else if memType == None {
          memType := mt;
        } else if memType != mt {  // "Bad address mapping in section"
          return None;
        }
        k := k + 1;
      }
    }

    /** A call from outside, on any graph: it leaves no section marked DUMMY and does not return DUMMY. On a
        graph without cycles it returns the class, and the marks stay right for the next call. */
    method SectionMemType(name: string, ghost rank: seq<nat>) returns (mt: MemType)
      requires Valid() && forall i | 0 <= i < |mark| :: mark[i] != Dummy
      modifies `mark
      ensures Valid() && (forall i | 0 <= i < |mark| :: mark[i] != Dummy) && mt != Dummy
      ensures layout.Acyclic(rank) && layout.Consistent(rank, old(mark)) ==>
        mt == layout.Ideal(rank, name) && layout.Consistent(rank, mark)
    {
      if layout.Acyclic(rank) && layout.Consistent(rank, mark) { layout.RecgSure(rank, mark, name); }
      mt := Recg(name);
    }
  }
}
