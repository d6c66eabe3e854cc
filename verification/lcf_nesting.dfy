/** Where the interpreter of makelcf and nested loops part: a token behind the last loop inside a loop of the same
    kind. */
module LcfNesting {
  import opened LcfMemType
  import opened LcfTokens

  // ---- what a run prints -------------------------------------------------------------

  /** A run is the run of its first part and then that of the rest. */
  lemma {:induction false} RunAppend(mode: Mode, spec: Spec, a: seq<Node>, b: seq<Node>, s: State)
    requires Fits(spec, s)
    ensures Run(mode, spec, a + b, s) == Run(mode, spec, b, Run(mode, spec, a, s))
    decreases |a|
  {
    if a == [] {
      assert a + b == b;
    } else {
      assert (a + b)[0] == a[0] && (a + b)[1..] == a[1..] + b;
      RunAppend(mode, spec, a[1..], b, RunNode(mode, spec, a[0], s));
    }
  }

  /** What is asked of the view of every printed token: nothing, or that a loop has or has not a current item. */
  datatype Mark = Anything | Has(kind: Kind) | Lacks(kind: Kind)

  predicate Shows(mark: Mark, v: View) {
    match mark
    case Anything => true
    case Has(k) => k in v.cursor
    case Lacks(k) => k !in v.cursor
  }

  /** There is no loop of this kind. */
  predicate Free(nodes: seq<Node>, k: Kind) {
    forall i | 0 <= i < |nodes| :: nodes[i].Loop? ==> nodes[i].kind != k && Free(nodes[i].body, k)
  }

  /** Nested loops keep what is current; the interpreter sets nothing that it does not loop over. */
  predicate Fine(mark: Mark, mode: Mode, nodes: seq<Node>) {
    match mark
    case Anything => true
    case Has(_) => mode == Lexical
    case Lacks(k) => mode == Interpreted && Free(nodes, k)
  }

  /** From `s` to `r` only tokens with the mark were printed. */
  ghost predicate Longer(mark: Mark, s: State, r: State) {
    && s.out <= r.out && Shows(mark, r.view)
    && forall j | |s.out| <= j < |r.out| :: Shows(mark, r.out[j].1)
  }

  lemma LongerOn(mark: Mark, s: State, p: State, r: State)
    requires Longer(mark, s, p) && Longer(mark, p, r)
    ensures Longer(mark, s, r)
  {
    assert forall j | 0 <= j < |p.out| :: r.out[j] == p.out[j];
  }

  lemma {:induction false} Prints(mode: Mode, spec: Spec, nodes: seq<Node>, s: State, mark: Mark)
    requires Fits(spec, s) && Fine(mark, mode, nodes) && Shows(mark, s.view)
    ensures Longer(mark, s, Run(mode, spec, nodes, s))
    decreases nodes, 0, 0
  {
    if nodes != [] {
      var p := RunNode(mode, spec, nodes[0], s);
      PrintsNode(mode, spec, nodes[0], s, mark);
      assert Fine(mark, mode, nodes[1..]);
      Prints(mode, spec, nodes[1..], p, mark);
      LongerOn(mark, s, p, Run(mode, spec, nodes[1..], p));
    }
  }

  lemma {:induction false} PrintsNode(mode: Mode, spec: Spec, node: Node, s: State, mark: Mark)
    requires Fits(spec, s) && Fine(mark, mode, [node]) && Shows(mark, s.view)
    ensures Longer(mark, s, RunNode(mode, spec, node, s))
    decreases node, 0
  {
    assert [node][0] == node;
    match node
    case Text(_) =>
    case Loop(kind, param, body) =>
      if kind.Sections? {
        var from, behind := First(spec, kind.owner), Behind(spec, kind.owner);
        var (num, marks) := WantedCount(spec, from, behind, param, s.marks);
        PrintsSections(mode, spec, kind, param, body, num, behind, s.(marks := marks), mark);
      } else if HasOwner(kind, s.view.cursor) {
        var list := MemberList(spec, kind, s.view.cursor);
        PrintsSteps(mode, spec, kind, body, MemberSteps(list, param, |list|), s, mark);
      }
  }

  lemma {:induction false} PrintsSteps(mode: Mode, spec: Spec, kind: Kind, body: seq<Node>, steps: seq<Step>, s: State,
                                       mark: Mark)
    requires Fits(spec, s) && Fine(mark, mode, body) && (mark.Lacks? ==> mark.kind != kind) && Shows(mark, s.view)
    ensures Longer(mark, s, RunSteps(mode, spec, kind, body, steps, s))
    decreases body, 1, |steps|
  {
    hide Run, Fine;
    if steps != [] {
      var n := |steps| - 1;
      PrintsSteps(mode, spec, kind, body, steps[..n], s, mark);
      var p := RunSteps(mode, spec, kind, body, steps[..n], s);
      PrintsBody(mode, spec, kind, body, steps[n], p, mark);
      LongerOn(mark, s, p, Run(mode, spec, body, Enter(kind, steps[n], p)));
    }
  }

  lemma {:induction false} PrintsBody(mode: Mode, spec: Spec, kind: Kind, body: seq<Node>, step: Step, s: State,
                                      mark: Mark)
    requires Fits(spec, s) && (mark.Lacks? ==> mark.kind != kind) && Shows(mark, s.view)
    ensures Fine(mark, mode, body) ==> Longer(mark, s, Run(mode, spec, body, Enter(kind, step, s)))
    decreases body, 0, 1
  {
    if Fine(mark, mode, body) { Prints(mode, spec, body, Enter(kind, step, s), mark); }
  }

  lemma {:induction false} PrintsSections(mode: Mode, spec: Spec, kind: Kind, param: nat, body: seq<Node>, num: nat,
                                          i: nat, s: State, mark: Mark)
    requires Fits(spec, s) && kind.Sections? && First(spec, kind.owner) <= i <= |s.marks|
    requires Fine(mark, mode, body) && (mark.Lacks? ==> mark.kind != kind) && Shows(mark, s.view)
    ensures Longer(mark, s, RunSections(mode, spec, kind, param, body, num, i, s).0)
    decreases body, 1, i
  {
    hide Run, Fine, Look;
    if i > First(spec, kind.owner) {
      PrintsSections(mode, spec, kind, param, body, num, i - 1, s, mark);
      var (before, count) := RunSections(mode, spec, kind, param, body, num, i - 1, s);
      var (wanted, marks) := Look(spec, i - 1, param, before.marks);
      if wanted {
        var now, step := before.(marks := marks), Step(i - 1, Status(count == 0, count == num - 1, count));
        PrintsBody(mode, spec, kind, body, step, now, mark);
        assert Longer(mark, s, now);
        LongerOn(mark, s, now, Run(mode, spec, body, Enter(kind, step, now)));
      }
    }
  }

  // ---- a specification on which a loop runs once -------------------------------------

  /** One overlay, one autoload and one member of every kind, which the parameter `p` selects. */
  function OneOfEach(p: nat): Spec {
    Spec(Layout("static", Class(p), [Section("overlay", Class(p), []), Section("autoload", Class(p), [])]), 1,
         map[Objects := [{p}], Libraries := [{p}], SearchSymbols := [{p}]], [map[], map[]])
  }

  const RANK: seq<nat> := [0, 0]

  /** The loops that run at the top level of a template. */
  predicate TopLevel(k: Kind) {
    if k.Sections? then k.owner != Static else k.owner == Static
  }

  lemma OneOfEachValid(p: nat)
    ensures var spec := OneOfEach(p);
      && spec.Valid() && spec.layout.Acyclic(RANK) && Settled(spec, RANK, [MemType.None, MemType.None])
      && spec.layout.Ideal(RANK, "overlay") == spec.layout.Ideal(RANK, "autoload") == Class(p)
  {
    var l := OneOfEach(p).layout;
    assert |"static"| == 6 && |"overlay"| == 7 && |"autoload"| == 8;
    assert l.IndexOf("autoload", 1) == At(1);
    assert l.Find("overlay") == At(0) && l.Find("autoload") == At(1);
  }

  lemma Selected(p: nat, i: nat)
    requires i < 2
    ensures OneOfEach(p).Valid() && OneOfEach(p).layout.Acyclic(RANK) && OfClass(OneOfEach(p), RANK, i, p)
  {
    OneOfEachValid(p);
    var l := OneOfEach(p).layout;
    assert l.sections[i].name == if i == 0 then "overlay" else "autoload";
  }

  /** A loop over the section `from` alone runs its body once, in both modes from the same state. */
  lemma SectionOnce(spec: Spec, owner: Owner, p: nat, s: State, from: nat) returns (e: State)
    requires Fits(spec, s) && Settled(spec, RANK, s.marks) && from < |s.marks| && OfClass(spec, RANK, from, p)
    requires First(spec, owner) == from && Behind(spec, owner) == from + 1
    ensures Fits(spec, e) && e.out == s.out
    ensures e.view.cursor == s.view.cursor[Sections(owner) := from]
    ensures forall mode: Mode, body: seq<Node> ::
      RunNode(mode, spec, Loop(Sections(owner), p, body), s) ==
      Leave(mode, Sections(owner), s, Run(mode, spec, body, e))
  {
    var k := Sections(owner);
    LookSettled(spec, RANK, from, p, s.marks);
    var m1 := Look(spec, from, p, s.marks).1;
    LookSettled(spec, RANK, from, p, m1);
    var m2 := Look(spec, from, p, m1).1;
    hide Look, Settled, OfClass;
    e := Enter(k, Step(from, Status(true, true, 0)), s.(marks := m2));
    forall mode: Mode, body: seq<Node>
      ensures RunNode(mode, spec, Loop(k, p, body), s) == Leave(mode, k, s, Run(mode, spec, body, e))
    {
      assert WantedCount(spec, from, from, p, s.marks) == (0, s.marks);
      assert WantedCount(spec, from, from + 1, p, s.marks) == (1, m1);
      var t := s.(marks := m1);
      assert RunSections(mode, spec, k, p, body, 1, from, t) == (t, 0);
      assert t.(marks := m2) == s.(marks := m2);
      assert RunSections(mode, spec, k, p, body, 1, from + 1, t).0 == Run(mode, spec, body, e);
      assert RunAllSections(mode, spec, k, p, body, s) == Run(mode, spec, body, e);
    }
  }

  lemma MemberOnce(spec: Spec, m: Members, p: nat, s: State) returns (e: State)
    requires Fits(spec, s) && m in spec.main && spec.main[m] == [{p}]
    ensures Fits(spec, e) && e.out == s.out
    ensures e.view.cursor == s.view.cursor[MembersOf(Static, m) := 0]
    ensures forall mode: Mode, body: seq<Node> ::
      RunNode(mode, spec, Loop(MembersOf(Static, m), p, body), s) ==
      Leave(mode, MembersOf(Static, m), s, Run(mode, spec, body, e))
  {
    var k, step := MembersOf(Static, m), Step(0, Status(true, true, 0));
    var list := MemberList(spec, k, s.view.cursor);
    assert MemberSteps(list, p, 0) == [] && MemberSteps(list, p, 1) == [] + [step];
    e := Enter(k, step, s);
    forall mode: Mode, body: seq<Node>
      ensures RunNode(mode, spec, Loop(k, p, body), s) == Leave(mode, k, s, Run(mode, spec, body, e))
    {
      StepRuns(mode, spec, k, body, [], step, s);
    }
  }

  /** On that specification a loop of the top level with the parameter `p` runs its body once. */
  lemma RunsOnce(k: Kind, p: nat, s: State) returns (e: State)
    requires TopLevel(k) && Fits(OneOfEach(p), s) && Settled(OneOfEach(p), RANK, s.marks)
    ensures Fits(OneOfEach(p), e) && e.out == s.out && e.view.cursor.Keys == s.view.cursor.Keys + {k}
    ensures forall mode: Mode, body: seq<Node> ::
      RunNode(mode, OneOfEach(p), Loop(k, p, body), s) ==
      Leave(mode, k, s, Run(mode, OneOfEach(p), body, e))
  {
    if k.Sections? {
      var from := if k.owner == Overlay then 0 else 1;
      Selected(p, from);
      e := SectionOnce(OneOfEach(p), k.owner, p, s, from);
    } else {
      assert OneOfEach(p).main[k.members] == [{p}] by {
        match k.members case Objects => case Libraries => case SearchSymbols =>
      }
      e := MemberOnce(OneOfEach(p), k.members, p, s);
    }
  }

  // ---- where the meanings part -------------------------------------------------------

  /** The inner loop: what it does is the same, but only nested loops restore what was current. */
  lemma InnerLoop(spec: Spec, k: Kind, q: nat, b: seq<Node>, s: State) returns (lexical: State, interpreted: State)
    requires TopLevel(k) && Fits(spec, s) && s.view.cursor.Keys == {k} && NoOwnNesting(b, {k})
    ensures lexical == RunNode(Lexical, spec, Loop(k, q, b), s)
    ensures interpreted == RunNode(Interpreted, spec, Loop(k, q, b), s)
    ensures lexical.out == interpreted.out && k in lexical.view.cursor && k !in interpreted.view.cursor
  {
    lexical := RunNode(Lexical, spec, Loop(k, q, b), s);
    interpreted := RunNode(Interpreted, spec, Loop(k, q, b), s);
    assert {} + {k} == {k};
    if k.Sections? {
      var from, behind := First(spec, k.owner), Behind(spec, k.owner);
      var (num, marks) := WantedCount(spec, from, behind, q, s.marks);
      SameSections(spec, k, q, b, num, behind, s.(marks := marks), {});
    } else {
      var list := MemberList(spec, k, s.view.cursor);
      SameSteps(spec, k, b, MemberSteps(list, q, |list|), s, {});
    }
  }

  /** Behind the inner loop: the next token that is printed shows the difference. */
  lemma NextToken(spec: Spec, k: Kind, c: seq<Node>, id: nat, d: seq<Node>, lexical: State, interpreted: State)
    requires Fits(spec, lexical) && Fits(spec, interpreted) && lexical.out == interpreted.out
    requires k in lexical.view.cursor && k !in interpreted.view.cursor && Free(c, k)
    ensures var n, rest := |lexical.out|, c + [Text(id)] + d;
            var l, i := Run(Lexical, spec, rest, lexical).out, Run(Interpreted, spec, rest, interpreted).out;
            n < |l| && n < |i| && k in l[n].1.cursor && k !in i[n].1.cursor
  {
    var n := |lexical.out|;
    TailPrints(Lexical, spec, c, id, d, lexical, Has(k));
    TailPrints(Interpreted, spec, c, id, d, interpreted, Lacks(k));
  }

  lemma TailPrints(mode: Mode, spec: Spec, c: seq<Node>, id: nat, d: seq<Node>, s: State, mark: Mark)
    requires Fits(spec, s) && Fine(mark, mode, c) && Shows(mark, s.view)
    ensures var r := Run(mode, spec, c + [Text(id)] + d, s).out;
      |s.out| < |r| && Shows(mark, r[|s.out|].1)
  {
    hide Run, RunNode;
    var p := Run(mode, spec, c, s);
    var t := Run(mode, spec, [Text(id)], p);
    Prints(mode, spec, c, s, mark);
    OneNode(mode, spec, Text(id), p);
    TextRuns(mode, spec, id, p);
    RunAppend(mode, spec, c, [Text(id)], s);
    RunAppend(mode, spec, c + [Text(id)], d, s);
    assert Longer(mark, s, t);
    Prints(mode, spec, d, t, Anything);
  }

  /** What is printed stays printed. */
  lemma StaysPrinted(mode: Mode, spec: Spec, k: Kind, before: State, inside: State, post: seq<Node>)
    requires Fits(spec, inside)
    ensures var after := Leave(mode, k, before, inside);
      Fits(spec, after) && inside.out <= Run(mode, spec, post, after).out
  {
    Prints(mode, spec, post, Leave(mode, k, before, inside), Anything);
  }

  /** The state in which a new writer for two sections begins. */
  function Begin(): State {
    State(View(map[], map[]), [MemType.None, MemType.None], [])
  }

  /** The other half of SameMeaning: if inside a loop of the top level there is a loop of its own kind, the first in
      the template, and behind the last such loop a token follows, then there is a valid specification on which
      the interpreter prints something else than nested loops. */
  lemma TokenBehindDiffers(k: Kind, p: nat, pre: seq<Node>, a: seq<Node>, q: nat, b: seq<Node>, c: seq<Node>, id: nat,
                           d: seq<Node>, post: seq<Node>)
    requires TopLevel(k) && NoOwnNesting(pre, {}) && NoOwnNesting(a, {k}) && NoOwnNesting(b, {k}) && Free(c, k)
    ensures var spec, body := OneOfEach(p), a + [Loop(k, q, b)] + (c + [Text(id)] + d);
            var nodes := pre + [Loop(k, p, body)] + post;
            && Fits(spec, Begin())
            && Run(Interpreted, spec, nodes, Begin()).out != Run(Lexical, spec, nodes, Begin()).out
  {
    OneOfEachValid(p);
    var spec, body := OneOfEach(p), a + [Loop(k, q, b)] + (c + [Text(id)] + d);
    var s := Run(Lexical, spec, pre, Begin());
    SameMeaning(spec, pre, Begin(), {});
    RunSettled(Lexical, spec, RANK, pre, Begin());
    var e := RunsOnce(k, p, s);
    hide OneOfEach, Run, RunNode, Settled, NoOwnNesting, Free;
    var n := InBody(spec, k, a, q, b, c, id, d, e);
    Outside(Lexical, spec, k, p, pre, body, post, s, e);
    Outside(Interpreted, spec, k, p, pre, body, post, s, e);
  }

  lemma InBody(spec: Spec, k: Kind, a: seq<Node>, q: nat, b: seq<Node>, c: seq<Node>, id: nat, d: seq<Node>, e: State)
    returns (n: nat)
    requires Fits(spec, e) && e.view.cursor.Keys == {k}
    requires TopLevel(k) && NoOwnNesting(a, {k}) && NoOwnNesting(b, {k}) && Free(c, k)
    ensures var body := a + [Loop(k, q, b)] + (c + [Text(id)] + d);
            var l, i := Run(Lexical, spec, body, e).out, Run(Interpreted, spec, body, e).out;
            n < |l| && n < |i| && k in l[n].1.cursor && k !in i[n].1.cursor
  {
    var rest := c + [Text(id)] + d;
    SameMeaning(spec, a, e, {k});
    var e2 := Run(Lexical, spec, a, e);
    var lexical, interpreted := InnerLoop(spec, k, q, b, e2);
    n := |lexical.out|;
    NextToken(spec, k, c, id, d, lexical, interpreted);
    hide Run, RunNode;
    ThreeParts(Lexical, spec, a, Loop(k, q, b), rest, e);
    ThreeParts(Interpreted, spec, a, Loop(k, q, b), rest, e);
  }

  lemma ThreeParts(mode: Mode, spec: Spec, a: seq<Node>, node: Node, rest: seq<Node>, s: State)
    requires Fits(spec, s)
    ensures Run(mode, spec, a + [node] + rest, s)
         == Run(mode, spec, rest, RunNode(mode, spec, node, Run(mode, spec, a, s)))
  {
    hide Run, RunNode;
    RunAppend(mode, spec, a + [node], rest, s);
    RunAppend(mode, spec, a, [node], s);
    OneNode(mode, spec, node, Run(mode, spec, a, s));
  }

  /** The loop and what stands around it. */
  lemma Outside(mode: Mode, spec: Spec, k: Kind, p: nat, pre: seq<Node>, body: seq<Node>, post: seq<Node>, s: State,
                e: State)
    requires Fits(spec, Begin()) && Fits(spec, e) && s == Run(mode, spec, pre, Begin())
    requires RunNode(mode, spec, Loop(k, p, body), s) == Leave(mode, k, s, Run(mode, spec, body, e))
    ensures Run(mode, spec, body, e).out <= Run(mode, spec, pre + [Loop(k, p, body)] + post, Begin()).out
  {
    hide Run, RunNode;
    ThreeParts(mode, spec, pre, Loop(k, p, body), post, Begin());
    StaysPrinted(mode, spec, k, s, Run(mode, spec, body, e), post);
  }
}
