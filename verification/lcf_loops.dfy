/** What the loops of a template select: which sections or members the body sees, in which order, and which of them
    are the first and the last. */
module LcfLoops {
  import opened LcfMemType
  import opened LcfTokens

  // ---- members -----------------------------------------------------------------------

  predicate Runs(steps: seq<Step>, item: nat) {
    exists k :: 0 <= k < |steps| && steps[k].item == item
  }

  /** `steps` are the members up to number `i` whose tags allow `param`, in the order of the list; parameter 0 is
      allowed by all. */
  ghost predicate Selects(steps: seq<Step>, list: seq<set<nat>>, param: nat, i: nat)
    requires i <= |list|
  {
    && (forall k | 0 <= k < |steps| :: steps[k].item < i)
    && (forall j, k | 0 <= j < k < |steps| :: steps[j].item < steps[k].item)
    && (forall m: nat | m < i :: Runs(steps, m) <==> param == 0 || param in list[m])
  }

  /** The count runs from 0, the first step is the first one, and the last is the last member of the list. */
  ghost predicate Numbered(steps: seq<Step>, last: int) {
    forall k | 0 <= k < |steps| :: steps[k].status == Status(k == 0, steps[k].item == last, k)
  }

  lemma RunsNext(steps: seq<Step>, step: Step, m: nat)
    ensures Runs(steps + [step], m) <==> Runs(steps, m) || step.item == m
  {
    var more := steps + [step];
    if k :| 0 <= k < |steps| && steps[k].item == m { assert more[k].item == m; }
    if step.item == m { assert more[|steps|].item == m; }
  }

  lemma {:induction false} MembersExact(list: seq<set<nat>>, param: nat, i: nat)
    requires i <= |list|
    ensures Selects(MemberSteps(list, param, i), list, param, i)
    ensures Numbered(MemberSteps(list, param, i), |list| - 1)
  {
    hide Runs;
    if i > 0 {
      var before := MemberSteps(list, param, i - 1);
      var step := Step(i - 1, Status(|before| == 0, i == |list|, |before|));
      MembersExact(list, param, i - 1);
      NotRun(before, i - 1);
      forall m: nat | m < i
        ensures Runs(before + [step], m) <==> Runs(before, m) || step.item == m
      {
        RunsNext(before, step, m);
      }
    } else {
      assert MemberSteps(list, param, 0) == [];
    }
  }

  lemma NotRun(steps: seq<Step>, i: nat)
    requires forall k | 0 <= k < |steps| :: steps[k].item < i
    ensures !Runs(steps, i)
  {}

  // ---- what is printed ---------------------------------------------------------------

  /** What a loop whose body is one token prints: the token once for every step, with the item of the step. */
  function Printed(id: nat, kind: Kind, view: View, steps: seq<Step>): (r: seq<(nat, View)>)
    ensures |r| == |steps|
  {
    seq(|steps|, k requires 0 <= k < |steps| =>
      (id, View(view.cursor[kind := steps[k].item], view.status[kind := steps[k].status])))
  }

  /** The members whose list a loop runs over: those of the static module, or those of the current section. */
  ghost predicate ListOf(spec: Spec, kind: Kind, cursor: map<Kind, nat>, list: seq<set<nat>>) {
    && kind.MembersOf?
    && if kind.owner == Static then kind.members in spec.main && list == spec.main[kind.members]
       else
         && Sections(kind.owner) in cursor
         && var i := cursor[Sections(kind.owner)];
            i < |spec.members| && kind.members in spec.members[i] && list == spec.members[i][kind.members]
  }

  /** A loop over members with a token in it prints the token for exactly the selected members of that list, in
      order. */
  lemma MembersPrinted(mode: Mode, spec: Spec, kind: Kind, param: nat, id: nat, list: seq<set<nat>>, s: State)
    requires Fits(spec, s) && ListOf(spec, kind, s.view.cursor, list)
    ensures var steps := MemberSteps(list, param, |list|);
      && Selects(steps, list, param, |list|) && Numbered(steps, |list| - 1)
      && RunNode(mode, spec, Loop(kind, param, [Text(id)]), s).out == s.out + Printed(id, kind, s.view, steps)
    ensures mode == Interpreted ==> kind !in RunNode(mode, spec, Loop(kind, param, [Text(id)]), s).view.cursor
  {
    MembersExact(list, param, |list|);
    StepsPrinted(mode, spec, kind, id, MemberSteps(list, param, |list|), s);
  }

  lemma {:induction false} StepsPrinted(mode: Mode, spec: Spec, kind: Kind, id: nat, steps: seq<Step>, s: State)
    requires Fits(spec, s)
    ensures var r := RunSteps(mode, spec, kind, [Text(id)], steps, s);
      && r.out == s.out + Printed(id, kind, s.view, steps) && r.marks == s.marks
      && (forall step :: Enter(kind, step, r).view == Enter(kind, step, s).view)
  {
    if steps != [] {
      var n := |steps| - 1;
      StepsPrinted(mode, spec, kind, id, steps[..n], s);
      var before := RunSteps(mode, spec, kind, [Text(id)], steps[..n], s);
      var now := Enter(kind, steps[n], before);
      OneNode(mode, spec, Text(id), now);
      TextRuns(mode, spec, id, now);
      PrintedNext(id, kind, s.view, steps);
      forall step
        ensures Enter(kind, step, now).view == Enter(kind, step, s).view
      {
        EnterAgain(kind, steps[n], step, s);
        assert now.view == Enter(kind, steps[n], s).view;
      }
    }
  }

  lemma EnterAgain(kind: Kind, one: Step, two: Step, s: State)
    ensures Enter(kind, two, Enter(kind, one, s)) == Enter(kind, two, s)
  {}

  lemma PrintedNext(id: nat, kind: Kind, view: View, steps: seq<Step>)
    requires steps != []
    ensures var n := |steps| - 1;
      Printed(id, kind, view, steps) == Printed(id, kind, view, steps[..n])
        + [(id, View(view.cursor[kind := steps[n].item], view.status[kind := steps[n].status]))]
  {}

  // ---- sections ----------------------------------------------------------------------

  /** The sections of one list. */
  predicate InList(spec: Spec, owner: Owner, i: nat) {
    match owner
    case Static => false
    case Autoload => spec.overlayNum <= i < |spec.layout.sections|
    case Overlay => i < spec.overlayNum
  }

  lemma SettledGraph(spec: Spec, rank: seq<nat>, marks: seq<MemType>)
    requires Settled(spec, rank, marks)
    ensures spec.Valid() && spec.layout.Acyclic(rank)
  {}

  lemma ListRange(spec: Spec, owner: Owner, i: nat)
    requires spec.Valid() && First(spec, owner) <= i
    ensures i < Behind(spec, owner) <==> InList(spec, owner, i)
  {}

  /** `steps` are the sections up to number `i` of a list that have the class, in order, counted from 0; the first is
      the first one, and the last is the one that makes `num`. */
  ghost predicate SelectsSections(steps: seq<Step>, spec: Spec, rank: seq<nat>, owner: Owner, param: nat, num: int,
                                  i: nat)
    requires spec.Valid() && spec.layout.Acyclic(rank)
  {
    && (forall k | 0 <= k < |steps| :: steps[k].item < i)
    && (forall j, k | 0 <= j < k < |steps| :: steps[j].item < steps[k].item)
    && (forall k | 0 <= k < |steps| :: steps[k].status == Status(k == 0, k == num - 1, k))
    && (forall m: nat | m < |spec.layout.sections| ::
          Runs(steps, m) <==> m < i && InList(spec, owner, m) && OfClass(spec, rank, m, param))
  }

  lemma SelectsNext(steps: seq<Step>, spec: Spec, rank: seq<nat>, owner: Owner, param: nat, num: int, i: nat)
    requires spec.Valid() && spec.layout.Acyclic(rank) && i < |spec.layout.sections| && InList(spec, owner, i)
    ensures var step := Step(i, Status(|steps| == 0, |steps| == num - 1, |steps|));
      SelectsSections(steps, spec, rank, owner, param, num, i) ==>
      SelectsSections(if OfClass(spec, rank, i, param) then steps + [step] else steps, spec, rank, owner, param, num,
                      i + 1)
  {
    hide Runs, OfClass;
    var step := Step(i, Status(|steps| == 0, |steps| == num - 1, |steps|));
    forall m: nat | m < |spec.layout.sections|
      ensures Runs(steps + [step], m) <==> Runs(steps, m) || step.item == m
    {
      RunsNext(steps, step, m);
    }
  }

  lemma {:induction false} SectionSteps(mode: Mode, spec: Spec, rank: seq<nat>, kind: Kind, param: nat, id: nat,
                                        num: nat, i: nat, s: State)
    returns (steps: seq<Step>)
    requires Fits(spec, s) && Settled(spec, rank, s.marks) && kind.Sections?
    requires First(spec, kind.owner) <= i <= Behind(spec, kind.owner)
    ensures SelectsSections(steps, spec, rank, kind.owner, param, num, i)
    ensures var (r, n) := RunSections(mode, spec, kind, param, [Text(id)], num, i, s);
      && n == |steps| && r.out == s.out + Printed(id, kind, s.view, steps)
      && (forall step :: Enter(kind, step, r).view == Enter(kind, step, s).view)
  {
    hide Settled, SelectsSections, Look, OfClass, InList, Behind, Run, Printed;
    SettledGraph(spec, rank, s.marks);
    if i == First(spec, kind.owner) {
      steps := [];
      SelectsNone(spec, rank, kind.owner, param, num, i);
      assert Printed(id, kind, s.view, []) == [];
    } else {
      var m := i - 1;
      steps := SectionSteps(mode, spec, rank, kind, param, id, num, m, s);
      SectionsSettled(mode, spec, rank, kind, param, [Text(id)], num, m, s);
      var (before, count) := RunSections(mode, spec, kind, param, [Text(id)], num, m, s);
      LookSettled(spec, rank, m, param, before.marks);
      ListRange(spec, kind.owner, m);
      SelectsNext(steps, spec, rank, kind.owner, param, num, m);
      var (wanted, marks) := Look(spec, m, param, before.marks);
      var step := Step(m, Status(count == 0, count == num - 1, count));
      var now := before.(marks := marks);
      if wanted {
        TokenPrinted(mode, spec, kind, id, step, now, s);
        steps := steps + [step];
        PrintedNext(id, kind, s.view, steps);
        assert steps[..|steps| - 1] == steps[..count];
      }
    }
  }

  lemma SelectsNone(spec: Spec, rank: seq<nat>, owner: Owner, param: nat, num: int, i: nat)
    requires spec.Valid() && spec.layout.Acyclic(rank) && i == First(spec, owner)
    ensures SelectsSections([], spec, rank, owner, param, num, i)
  {}

  lemma TokenPrinted(mode: Mode, spec: Spec, kind: Kind, id: nat, step: Step, now: State, s: State)
    requires Fits(spec, now) && forall any :: Enter(kind, any, now).view == Enter(kind, any, s).view
    ensures var r := Run(mode, spec, [Text(id)], Enter(kind, step, now));
      && r.out == now.out + [(id, View(s.view.cursor[kind := step.item], s.view.status[kind := step.status]))]
      && (forall any :: Enter(kind, any, r).view == Enter(kind, any, s).view)
  {
    var e := Enter(kind, step, now);
    OneNode(mode, spec, Text(id), e);
    TextRuns(mode, spec, id, e);
    forall any
      ensures Enter(kind, any, e).view == Enter(kind, any, s).view
    {
      EnterAgain(kind, step, any, now);
    }
  }

  /** A loop over sections with a token in it prints the token for exactly the sections of its list that have the
      class, in order, on a graph of AFTER names without cycles; with parameter 0 for all of them. The first is the
      first one and the last the last one. */
  lemma SectionsPrinted(mode: Mode, spec: Spec, rank: seq<nat>, kind: Kind, param: nat, id: nat, s: State)
    returns (steps: seq<Step>)
    requires Fits(spec, s) && Settled(spec, rank, s.marks) && kind.Sections?
    ensures SelectsSections(steps, spec, rank, kind.owner, param, |steps|, |spec.layout.sections|)
    ensures RunNode(mode, spec, Loop(kind, param, [Text(id)]), s).out == s.out + Printed(id, kind, s.view, steps)
  {
    hide Settled, SelectsSections, RunSections, Printed;
    SettledGraph(spec, rank, s.marks);
    var from, behind := First(spec, kind.owner), Behind(spec, kind.owner);
    var (num, marks) := WantedCount(spec, from, behind, param, s.marks);
    CountSettled(spec, rank, from, behind, param, s.marks);
    PassesAgree(mode, spec, rank, kind, param, [Text(id)], s);
    steps := SectionSteps(mode, spec, rank, kind, param, id, num, behind, s.(marks := marks));
    SelectsAll(steps, spec, rank, kind.owner, param, num);
  }

  lemma SelectsAll(steps: seq<Step>, spec: Spec, rank: seq<nat>, owner: Owner, param: nat, num: int)
    requires spec.Valid() && spec.layout.Acyclic(rank)
    ensures SelectsSections(steps, spec, rank, owner, param, num, Behind(spec, owner))
      ==> SelectsSections(steps, spec, rank, owner, param, num, |spec.layout.sections|)
  {}
}
