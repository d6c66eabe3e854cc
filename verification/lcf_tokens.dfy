/** The token buffer of makelcf: the parser actions of tlcf.y that fill it, the interpreter of
    createlcf.c that runs over it with loop ends, and the nested template both stand for. */
module LcfTokens {
  import opened LcfMemType

  datatype Owner = Static | Autoload | Overlay

  datatype Members = Objects | Libraries | SearchSymbols

  /** The loops of a template: over the overlays or autoloads, or over the members of one of them. */
  datatype Kind = Sections(owner: Owner) | MembersOf(owner: Owner, members: Members)

  /** tTokenBuffer: a token to print, or the start of a loop whose last token has index `loopEnd`. */
  datatype Token = Plain(id: nat) | Foreach(kind: Kind, param: nat, loopEnd: nat)

  /** A template as the grammar nests it. */
  datatype Node = Text(id: nat) | Loop(kind: Kind, param: nat, body: seq<Node>)

  /** tForeachStatus */
  datatype Status = Status(isFirst: bool, isLast: bool, count: nat)

  /** For each kind of member, the members with the parameters that select them. */
  type MemberLists = map<Members, seq<set<nat>>>

  /** The specification that the template is filled with: the sections of `layout`, of which the first
      `overlayNum` are overlays and the others autoloads, and the members of the static module and of each. */
  datatype Spec = Spec(layout: Layout, overlayNum: nat, main: MemberLists, members: seq<MemberLists>) {
    ghost predicate Valid() {
      layout.Proper() && overlayNum <= |layout.sections| == |members|
    }
  }

  /** What printing a token can see: the current section or member of every running loop, and how far
      each loop has come. */
  datatype View = View(cursor: map<Kind, nat>, status: map<Kind, Status>)

  /** The marks are those of the search for memory classes, which the loops over sections call. */
  datatype State = State(view: View, marks: seq<MemType>, out: seq<(nat, View)>)

  // ---- what a loop runs over ---------------------------------------------------------

  datatype Step = Step(item: nat, status: Status)

  /** The numbers of the sections of one list, from the first to behind the last. */
  function First(spec: Spec, owner: Owner): nat {
    if owner == Autoload then spec.overlayNum else 0
  }

  ghost function Behind(spec: Spec, owner: Owner): (n: nat)
    requires spec.Valid()
    ensures First(spec, owner) <= n <= |spec.layout.sections|
  {
    match owner
    case Static => 0
    case Autoload => |spec.layout.sections|
    case Overlay => spec.overlayNum
  }

  /** Parameter 0 selects every section without a look at its class; the look changes the marks. */
  ghost function Look(spec: Spec, i: nat, param: nat, marks: seq<MemType>): (r: (bool, seq<MemType>))
    requires spec.Valid() && |marks| == |spec.layout.sections| && i < |marks|
    ensures |r.1| == |marks|
  {
    if param == 0 then (true, marks)
    else
      var (mt, now) := spec.layout.Recg(marks, spec.layout.sections[i].name);
      (mt == Class(param), now)
  }

  /** The first pass over the sections from `from` up to `i`: how many are wanted. */
  ghost function WantedCount(spec: Spec, from: nat, i: nat, param: nat, marks: seq<MemType>): (r: (nat, seq<MemType>))
    requires spec.Valid() && |marks| == |spec.layout.sections| && from <= i <= |marks|
    ensures |r.1| == |marks|
  {
    if i == from then (0, marks)
    else
      var (n, before) := WantedCount(spec, from, i - 1, param, marks);
      var (wanted, now) := Look(spec, i - 1, param, before);
      (if wanted then n + 1 else n, now)
  }

  predicate WantedMember(tags: set<nat>, param: nat) {
    param == 0 || param in tags
  }

  /** The loop has a section whose members it runs over; without one it says "No <FOREACH.OVERLAYS> Ignored." */
  predicate HasOwner(kind: Kind, cursor: map<Kind, nat>)
    requires kind.MembersOf?
  {
    kind.owner == Static || Sections(kind.owner) in cursor
  }

  function MemberList(spec: Spec, kind: Kind, cursor: map<Kind, nat>): seq<set<nat>>
    requires kind.MembersOf? && HasOwner(kind, cursor)
  {
    if kind.owner == Static then Found(spec.main, kind.members)
    else
      var i := cursor[Sections(kind.owner)];
      if i < |spec.members| then Found(spec.members[i], kind.members) else []
  }

  function Found(lists: MemberLists, m: Members): seq<set<nat>> {
    if m in lists then lists[m] else []
  }

  /** The wanted ones among the first `i` members; the last one is the last of the whole list. */
  function MemberSteps(list: seq<set<nat>>, param: nat, i: nat): seq<Step>
    requires i <= |list|
  {
    if i == 0 then []
    else
      var before := MemberSteps(list, param, i - 1);
      if WantedMember(list[i - 1], param) then before + [Step(i - 1, Status(|before| == 0, i == |list|, |before|))]
      else before
  }

  // ---- the meaning of a template -----------------------------------------------------

  /** What is current behind a loop: for a nested loop what was current before it (`lexical`), for the
      interpreter nothing of the loop's kind. */
  datatype Mode = Lexical | Interpreted

  ghost function Leave(mode: Mode, kind: Kind, before: State, after: State): State {
    after.(view := after.view.(cursor := if mode == Lexical then before.view.cursor else after.view.cursor - {kind}))
  }

  ghost predicate Fits(spec: Spec, s: State) {
    spec.Valid() && |s.marks| == |spec.layout.sections|
  }

  /** A template run as nested loops. */
  ghost function Run(mode: Mode, spec: Spec, nodes: seq<Node>, s: State): (r: State)
    requires Fits(spec, s)
    ensures Fits(spec, r)
    decreases nodes, 0
  {
    if nodes == [] then s else Run(mode, spec, nodes[1..], RunNode(mode, spec, nodes[0], s))
  }

  ghost function RunNode(mode: Mode, spec: Spec, node: Node, s: State): (r: State)
    requires Fits(spec, s)
    ensures Fits(spec, r)
    decreases node, 0
  {
    match node
    case Text(id) => s.(out := s.out + [(id, s.view)])
    case Loop(kind, param, body) =>
      if kind.Sections? then Leave(mode, kind, s, RunAllSections(mode, spec, kind, param, body, s))
      else if !HasOwner(kind, s.view.cursor) then s
      else
        var list := MemberList(spec, kind, s.view.cursor);
        Leave(mode, kind, s, RunSteps(mode, spec, kind, body, MemberSteps(list, param, |list|), s))
  }

  ghost function Enter(kind: Kind, step: Step, s: State): State {
    s.(view := View(s.view.cursor[kind := step.item], s.view.status[kind := step.status]))
  }

  ghost function RunSteps(mode: Mode, spec: Spec, kind: Kind, body: seq<Node>, steps: seq<Step>, s: State): (r: State)
    requires Fits(spec, s)
    ensures Fits(spec, r)
    decreases body, 1, |steps|
  {
    if steps == [] then s
    else
      var n := |steps| - 1;
      Run(mode, spec, body, Enter(kind, steps[n], RunSteps(mode, spec, kind, body, steps[..n], s)))
  }

  /** Both passes over the sections of a list. */
  ghost function RunAllSections(mode: Mode, spec: Spec, kind: Kind, param: nat, body: seq<Node>, s: State): (r: State)
    requires Fits(spec, s) && kind.Sections?
    ensures Fits(spec, r)
    decreases body, 2, 0
  {
    var from, behind := First(spec, kind.owner), Behind(spec, kind.owner);
    var (num, marks) := WantedCount(spec, from, behind, param, s.marks);
    RunSections(mode, spec, kind, param, body, num, behind, s.(marks := marks)).0
  }

  /** The second pass up to section `i`, when the first one has counted `num`; how many sections it has run. */
  ghost function RunSections(mode: Mode, spec: Spec, kind: Kind, param: nat, body: seq<Node>, num: nat, i: nat,
                             s: State)
    : (r: (State, nat))
    requires Fits(spec, s) && kind.Sections? && First(spec, kind.owner) <= i <= |s.marks|
    ensures Fits(spec, r.0)
    decreases body, 1, i
  {
    if i == First(spec, kind.owner) then (s, 0)
    else
      var (before, count) := RunSections(mode, spec, kind, param, body, num, i - 1, s);
      var (wanted, marks) := Look(spec, i - 1, param, before.marks);
      var now := before.(marks := marks);
      if wanted then
        var step := Step(i - 1, Status(count == 0, count == num - 1, count));
        (Run(mode, spec, body, Enter(kind, step, now)), count + 1)
      else (now, count)
  }

  // ---- the flat form -----------------------------------------------------------------

  function NodeLen(node: Node): (n: nat)
    ensures n > 0
  {
    match node
    case Text(_) => 1
    case Loop(_, _, body) => 1 + Len(body)
  }

  function Len(nodes: seq<Node>): nat {
    if nodes == [] then 0 else NodeLen(nodes[0]) + Len(nodes[1..])
  }

  function FlatNode(node: Node, base: nat): (t: seq<Token>)
    ensures |t| == NodeLen(node)
    decreases node, 0
  {
    match node
    case Text(id) => [Plain(id)]
    case Loop(kind, param, body) => [Foreach(kind, param, base + Len(body))] + Flat(body, base + 1)
  }

  function Flat(nodes: seq<Node>, base: nat): (t: seq<Token>)
    ensures |t| == Len(nodes)
    decreases nodes, 0
  {
    if nodes == [] then [] else FlatNode(nodes[0], base) + Flat(nodes[1..], base + NodeLen(nodes[0]))
  }

  /** No loop stands inside a loop of its own kind; `open` are the loops around. */
  predicate NoOwnNesting(nodes: seq<Node>, open: set<Kind>) {
    forall i | 0 <= i < |nodes| :: nodes[i].Loop? ==>
      nodes[i].kind !in open && NoOwnNesting(nodes[i].body, open + {nodes[i].kind})
  }

  // ---- filling the buffer ------------------------------------------------------------

  const TOKEN_LEN := 65536
  const LOOP_STACK_MAX := 32

  function Depth(nodes: seq<Node>): nat {
    if nodes == [] then 0
    else
      var here := if nodes[0].Loop? then 1 + Depth(nodes[0].body) else 0;
      var rest := Depth(nodes[1..]);
      if here > rest then here else rest
  }

  class TokenBuffer {
    var tokens: seq<Token>                       // tokenBuffer[..tokenBufferEnd]
    var stack: seq<(Kind, nat)>                  // loop_stack[..loop_stack_level]

    constructor ()
      ensures tokens == [] && stack == []
    {
      tokens, stack := [], [];
    }

    /** StoreToken, outside a skipped condition */
    method StoreToken(token: Token) returns (ok: bool)
      modifies `tokens
      ensures ok == (|old(tokens)| < TOKEN_LEN) && tokens == if ok then old(tokens) + [token] else old(tokens)
    {
      ok := |tokens| < TOKEN_LEN;
      if ok { tokens := tokens + [token]; }
    }

    /** PushLoopStack */
    method PushLoopStack(kind: Kind, param: nat) returns (ok: bool)
      modifies this
      ensures ok == (|old(stack)| < LOOP_STACK_MAX && |old(tokens)| < TOKEN_LEN)
      ensures ok ==> tokens == old(tokens) + [Foreach(kind, param, 0)] && stack == old(stack) + [(kind, |old(tokens)|)]
    {
      if |stack| >= LOOP_STACK_MAX { return false; }
      stack := stack + [(kind, |tokens|)];
      ok := StoreToken(Foreach(kind, param, 0));
    }

    /** PopLoopStack */
    method PopLoopStack(kind: Kind) returns (ok: bool)
      requires stack != [] ==> stack[|stack| - 1].1 < |tokens| && tokens[stack[|stack| - 1].1].Foreach?
      modifies this
      ensures ok == (old(stack) != [] && old(stack)[|old(stack)| - 1].0 == kind)
      ensures ok ==>
        && stack == old(stack)[..|old(stack)| - 1]
        && var start := old(stack)[|old(stack)| - 1].1;
           tokens == old(tokens)[start := old(tokens)[start].(loopEnd := |old(tokens)| - 1)]
    {
      if |stack| == 0 || kind != stack[|stack| - 1].0 { return false; }
      var start := stack[|stack| - 1].1;
      stack := stack[..|stack| - 1];
      tokens := tokens[start := tokens[start].(loopEnd := |tokens| - 1)];
      ok := true;
    }

    /** The actions that the grammar runs for a template: they build its flat form if it fits. */
    method Parse(nodes: seq<Node>) returns (ok: bool)
      modifies this
      ensures ok ==> tokens == old(tokens) + Flat(nodes, |old(tokens)|) && stack == old(stack)
      ensures |old(tokens)| + Len(nodes) <= TOKEN_LEN && |old(stack)| + Depth(nodes) <= LOOP_STACK_MAX ==> ok
      decreases nodes, 0
    {
      hide FlatNode;
      if nodes == [] { return true; }
      ghost var before := tokens;
      ok := ParseNode(nodes[0]);
      if ok {
        ghost var rest := Flat(nodes[1..], |tokens|);
        assert before + Flat(nodes, |before|) == (before + FlatNode(nodes[0], |before|)) + rest;
        ok := Parse(nodes[1..]);
      }
    }

    method ParseNode(node: Node) returns (ok: bool)
      modifies this
      ensures ok ==> tokens == old(tokens) + FlatNode(node, |old(tokens)|) && stack == old(stack)
      ensures |old(tokens)| + NodeLen(node) <= TOKEN_LEN
              && (node.Loop? ==> |old(stack)| + 1 + Depth(node.body) <= LOOP_STACK_MAX)
              ==> ok
      decreases node, 0
    {
      match node {
        case Text(id) => ok := StoreToken(Plain(id));
        case Loop(kind, param, body) =>
          ghost var before, base := tokens, |tokens|;
          ok := PushLoopStack(kind, param);
          if !ok { return; }
          ok := Parse(body);
          if !ok { return; }
          assert tokens[base] == Foreach(kind, param, 0);
          ok := PopLoopStack(kind);
          assert tokens == before + ([Foreach(kind, param, base + Len(body))] + Flat(body, base + 1));
      }
    }
  }

  // ---- interpreting the buffer -------------------------------------------------------

  /** A flat template starts with the tokens of its first node. */
  lemma FirstNode(tokens: seq<Token>, i: nat, nodes: seq<Node>)
    requires nodes != [] && i + Len(nodes) <= |tokens| && tokens[i..i + Len(nodes)] == Flat(nodes, i)
    ensures var n := i + NodeLen(nodes[0]);
      tokens[i..n] == FlatNode(nodes[0], i) && tokens[n..n + Len(nodes[1..])] == Flat(nodes[1..], n)
  {
    var k := NodeLen(nodes[0]);
    assert tokens[i..i + k] == tokens[i..i + Len(nodes)][..k];
    assert tokens[i + k..i + k + Len(nodes[1..])] == tokens[i..i + Len(nodes)][k..];
  }

  /** The nodes from `j` on: the first of them, and then the rest. */
  lemma NodesFrom(mode: Mode, spec: Spec, nodes: seq<Node>, j: nat, s: State)
    requires Fits(spec, s)
    ensures j < |nodes| ==>
      && nodes[j..][0] == nodes[j] && nodes[j..][1..] == nodes[j + 1..]
      && Len(nodes[j..]) == NodeLen(nodes[j]) + Len(nodes[j + 1..])
      && Run(mode, spec, nodes[j..], s) == Run(mode, spec, nodes[j + 1..], RunNode(mode, spec, nodes[j], s))
    ensures j == |nodes| ==> Len(nodes[j..]) == 0
  {
    if j < |nodes| { assert nodes[j..][1..] == nodes[j + 1..]; }
  }

  lemma RunNothing(mode: Mode, spec: Spec, nodes: seq<Node>, s: State)
    requires Fits(spec, s)
    ensures Len(nodes) == 0 ==> Run(mode, spec, nodes, s) == s
  {}

  lemma StepRuns(mode: Mode, spec: Spec, kind: Kind, body: seq<Node>, steps: seq<Step>, step: Step, s: State)
    requires Fits(spec, s)
    ensures RunSteps(mode, spec, kind, body, steps + [step], s)
         == Run(mode, spec, body, Enter(kind, step, RunSteps(mode, spec, kind, body, steps, s)))
  {
    assert (steps + [step])[..|steps|] == steps;
  }

  class Writer {
    const spec: Spec
    const tokens: seq<Token>
    const marker: Marker
    var cursor: map<Kind, nat>      // Overlay, Autoload, OverlayObject and so on; absent is NULL
    var status: map<Kind, Status>   // Foreach
    var out: seq<(nat, View)>

    ghost predicate Valid()
      reads marker
    {
      spec.Valid() && marker.layout == spec.layout && marker.Valid()
    }

    ghost function Now(): (s: State)
      requires Valid()
      reads this, marker
      ensures Fits(spec, s)
    {
      State(View(cursor, status), marker.mark, out)
    }

    /** The tokens from `start` on are those of `nodes`. */
    ghost predicate Holds(start: nat, nodes: seq<Node>) {
      start + Len(nodes) <= |tokens| && tokens[start..start + Len(nodes)] == Flat(nodes, start)
    }

    constructor (spec: Spec, tokens: seq<Token>)
      requires spec.Valid()
      ensures this.spec == spec && this.tokens == tokens && fresh(marker) && Valid()
      ensures Now() == State(View(map[], map[]), seq(|spec.layout.sections|, i => None), [])
    {
      this.spec, this.tokens := spec, tokens;
      marker := new Marker(spec.layout);
      cursor, status, out := map[], map[], [];
    }

    /** PutTokenBuffer, for every well-nested buffer */
    method PutTokenBuffer(start: nat, end: int, ghost nodes: seq<Node>)
      requires Valid() && Holds(start, nodes) && end == start + Len(nodes) - 1
      modifies this, marker
      ensures Valid() && Now() == Run(Interpreted, spec, nodes, old(Now()))
      decreases nodes, 0
    {
      hide Run, RunNode, Flat, FlatNode;
      var i: int := start;
      ghost var j := 0;
      assert nodes[0..] == nodes;
      while i <= end
        invariant Valid() && 0 <= j <= |nodes| && start <= i && i + Len(nodes[j..]) == end + 1
        invariant Holds(i, nodes[j..])
        invariant Run(Interpreted, spec, nodes[j..], Now()) == Run(Interpreted, spec, nodes, old(Now()))
        decreases |nodes| - j
      {
        NodesFrom(Interpreted, spec, nodes, j, Now());
        FirstNode(tokens, i, nodes[j..]);
        i := PutToken(i, nodes[j]);
        i := i + 1;
        j := j + 1;
      }
      RunNothing(Interpreted, spec, nodes[j..], Now());
    }

    /** PutToken: the index of the last token that it has dealt with. */
    method PutToken(n: nat, ghost node: Node) returns (last: nat)
      requires Valid() && n + NodeLen(node) <= |tokens| && tokens[n..n + NodeLen(node)] == FlatNode(node, n)
      modifies this, marker
      ensures Valid() && Now() == RunNode(Interpreted, spec, node, old(Now())) && last + 1 == n + NodeLen(node)
      decreases node, 3
    {
      assert tokens[n] == tokens[n..n + NodeLen(node)][0];
      match tokens[n] {
        case Plain(id) =>
          out := out + [(id, View(cursor, status))];
          last := n;
        case Foreach(kind, param, loopEnd) =>
          assert tokens[n + 1..n + 1 + Len(node.body)] == tokens[n..n + NodeLen(node)][1..];
          if kind.Sections? {
            last := ForeachSections(n, kind, param, loopEnd, node);
          } else {
            last := ForeachMembers(n, kind, param, loopEnd, node);
          }
      }
    }

    /** The body of a loop for one item. */
    method PutBody(n: nat, kind: Kind, step: Step, loopEnd: nat, ghost node: Node)
      requires Valid() && node.Loop? && loopEnd == n + Len(node.body) && Holds(n + 1, node.body)
      modifies this, marker
      ensures Valid() && Now() == Run(Interpreted, spec, node.body, Enter(kind, step, old(Now())))
      decreases node, 0
    {
      cursor, status := cursor[kind := step.item], status[kind := step.status];
      PutTokenBuffer(n + 1, loopEnd, node.body);
    }

    /** Whether the loop runs for section `i`: the class is looked for in both passes. */
    method IsWanted(i: nat, param: nat) returns (wanted: bool)
      requires Valid() && i < |spec.layout.sections|
      modifies marker
      ensures Valid() && (wanted, marker.mark) == Look(spec, i, param, old(marker.mark))
    {
      if param == 0 { return true; }
      var memType := marker.Recg(spec.layout.sections[i].name);
      wanted := memType == Class(param);
    }

    /** The first pass of ForeachOverlays and ForeachAutoloads */
    method CountWanted(from: nat, behind: nat, param: nat) returns (num: nat)
      requires Valid() && from <= behind <= |spec.layout.sections|
      modifies marker
      ensures Valid() && (num, marker.mark) == WantedCount(spec, from, behind, param, old(marker.mark))
    {
      num := 0;
      var i := from;
      while i < behind
        invariant from <= i <= behind && Valid()
        invariant (num, marker.mark) == WantedCount(spec, from, i, param, old(marker.mark))
      {
        var wanted := IsWanted(i, param);
        if wanted { num := num + 1; }
        i := i + 1;
      }
    }

    /** ForeachOverlays and ForeachAutoloads */
    method ForeachSections(n: nat, kind: Kind, param: nat, loopEnd: nat, ghost node: Node) returns (last: nat)
      requires Valid() && kind.Sections? && node.Loop? && node == Loop(kind, param, node.body)
      requires loopEnd == n + Len(node.body) && Holds(n + 1, node.body)
      modifies this, marker
      ensures Valid() && Now() == RunNode(Interpreted, spec, node, old(Now())) && last == loopEnd
      decreases node, 2
    {
      var from := First(spec, kind.owner);
      var behind := if kind.owner == Static then 0
        else if kind.owner == Autoload then |spec.layout.sections| else spec.overlayNum;
      var num := CountWanted(from, behind, param);
      RunWanted(n, kind, param, loopEnd, node, num, behind);
      cursor := cursor - {kind};
      last := loopEnd;
    }

    /** The second pass */
    method RunWanted(n: nat, kind: Kind, param: nat, loopEnd: nat, ghost node: Node, num: nat, behind: nat)
      requires Valid() && kind.Sections? && node.Loop?
      requires loopEnd == n + Len(node.body) && Holds(n + 1, node.body)
      requires First(spec, kind.owner) <= behind <= |spec.layout.sections|
      modifies this, marker
      ensures Valid() && Now() == RunSections(Interpreted, spec, kind, param, node.body, num, behind, old(Now())).0
      decreases node, 1
    {
      hide Run, Flat, Look;
      var i, count := First(spec, kind.owner), 0;
      while i < behind
        invariant First(spec, kind.owner) <= i <= behind && Valid()
        invariant (Now(), count) == RunSections(Interpreted, spec, kind, param, node.body, num, i, old(Now()))
      {
        var wanted := IsWanted(i, param);
        if wanted {
          PutBody(n, kind, Step(i, Status(count == 0, count == num - 1, count)), loopEnd, node);
          count := count + 1;
        }
        i := i + 1;
      }
    }

    /** ForeachObjects, and the tests of the loops over overlay and autoload members before it */
    method ForeachMembers(n: nat, kind: Kind, param: nat, loopEnd: nat, ghost node: Node) returns (last: nat)
      requires Valid() && kind.MembersOf? && node.Loop? && node == Loop(kind, param, node.body)
      requires loopEnd == n + Len(node.body) && Holds(n + 1, node.body)
      modifies this, marker
      ensures Valid() && Now() == RunNode(Interpreted, spec, node, old(Now())) && last == loopEnd
      decreases node, 1
    {
      last := loopEnd;
      if !HasOwner(kind, cursor) { return; }
      var list := MemberList(spec, kind, cursor);
      var i, count := 0, 0;
      hide Run, Flat;
      ghost var s, steps := Now(), [];
      while i < |list|
        invariant i <= |list| && steps == MemberSteps(list, param, i) && count == |steps|
        invariant Valid() && Now() == RunSteps(Interpreted, spec, kind, node.body, steps, s)
      {
        if WantedMember(list[i], param) {
          var step := Step(i, Status(count == 0, i + 1 == |list|, count));
          StepRuns(Interpreted, spec, kind, node.body, steps, step, s);
          PutBody(n, kind, step, loopEnd, node);
          count := count + 1;
          steps := steps + [step];
        }
        i := i + 1;
      }
      cursor := cursor - {kind};
    }

    /** PutTokenBufferAll: without a loop inside a loop of its own kind, the flat buffer prints what the
        nested template means. */
    method PutTokenBufferAll(ghost nodes: seq<Node>)
      requires Valid() && tokens == Flat(nodes, 0)
      modifies this, marker
      ensures Valid() && Now() == Run(Interpreted, spec, nodes, old(Now()))
      ensures NoOwnNesting(nodes, old(cursor).Keys) ==> Now() == Run(Lexical, spec, nodes, old(Now()))
    {
      assert tokens[0..Len(nodes)] == tokens;
      if NoOwnNesting(nodes, cursor.Keys) { SameMeaning(spec, nodes, Now(), cursor.Keys); }
      PutTokenBuffer(0, |tokens| - 1, nodes);
    }
  }

  // ---- interpreting is running nested loops ------------------------------------------

  /** If no loop stands inside a loop of its own kind, the interpreter does what nested loops do, and the
      cursors are the same before and after. */
  lemma {:induction false} SameMeaning(spec: Spec, nodes: seq<Node>, s: State, open: set<Kind>)
    requires Fits(spec, s) && NoOwnNesting(nodes, open) && s.view.cursor.Keys <= open
    ensures Run(Interpreted, spec, nodes, s) == Run(Lexical, spec, nodes, s)
    ensures Run(Lexical, spec, nodes, s).view.cursor == s.view.cursor
    decreases nodes, 0
  {
    if nodes != [] {
      SameNode(spec, nodes[0], s, open);
      assert NoOwnNesting(nodes[1..], open);
      SameMeaning(spec, nodes[1..], RunNode(Lexical, spec, nodes[0], s), open);
    }
  }

  lemma {:induction false} SameNode(spec: Spec, node: Node, s: State, open: set<Kind>)
    requires Fits(spec, s) && NoOwnNesting([node], open) && s.view.cursor.Keys <= open
    ensures RunNode(Interpreted, spec, node, s) == RunNode(Lexical, spec, node, s)
    ensures RunNode(Lexical, spec, node, s).view.cursor == s.view.cursor
    decreases node, 0
  {
    match node
    case Text(_) =>
    case Loop(kind, param, body) =>
      assert [node][0] == node && kind !in open;
      assert s.view.cursor - {kind} == s.view.cursor;
      if kind.Sections? {
        var from, behind := First(spec, kind.owner), Behind(spec, kind.owner);
        var (num, marks) := WantedCount(spec, from, behind, param, s.marks);
        SameSections(spec, kind, param, body, num, behind, s.(marks := marks), open);
      } else if HasOwner(kind, s.view.cursor) {
        var list := MemberList(spec, kind, s.view.cursor);
        SameSteps(spec, kind, body, MemberSteps(list, param, |list|), s, open);
      }
  }

  /** Inside a loop the cursors are those from outside, but for the loop's own. */
  ghost predicate Inside(kind: Kind, open: set<Kind>, s: State, now: State) {
    now.view.cursor.Keys <= open + {kind} && now.view.cursor - {kind} == s.view.cursor - {kind}
  }

  lemma {:induction false} SameSteps(spec: Spec, kind: Kind, body: seq<Node>, steps: seq<Step>, s: State,
                                     open: set<Kind>)
    requires Fits(spec, s) && NoOwnNesting(body, open + {kind}) && s.view.cursor.Keys <= open + {kind}
    ensures RunSteps(Interpreted, spec, kind, body, steps, s) == RunSteps(Lexical, spec, kind, body, steps, s)
    ensures Inside(kind, open, s, RunSteps(Lexical, spec, kind, body, steps, s))
    decreases body, 1, |steps|
  {
    if steps != [] {
      var n := |steps| - 1;
      SameSteps(spec, kind, body, steps[..n], s, open);
      var r := Enter(kind, steps[n], RunSteps(Lexical, spec, kind, body, steps[..n], s));
      SameMeaning(spec, body, r, open + {kind});
    }
  }

  lemma {:induction false} SameSections(spec: Spec, kind: Kind, param: nat, body: seq<Node>, num: nat, i: nat, s: State,
                                        open: set<Kind>)
    requires Fits(spec, s) && kind.Sections? && First(spec, kind.owner) <= i <= |s.marks|
    requires NoOwnNesting(body, open + {kind}) && s.view.cursor.Keys <= open + {kind}
    ensures RunSections(Interpreted, spec, kind, param, body, num, i, s)
         == RunSections(Lexical, spec, kind, param, body, num, i, s)
    ensures Inside(kind, open, s, RunSections(Lexical, spec, kind, param, body, num, i, s).0)
    decreases body, 1, i
  {
    hide Look, Run;
    if i > First(spec, kind.owner) {
      SameSections(spec, kind, param, body, num, i - 1, s, open);
      var (before, count) := RunSections(Lexical, spec, kind, param, body, num, i - 1, s);
      var (wanted, marks) := Look(spec, i - 1, param, before.marks);
      if wanted {
        var step := Step(i - 1, Status(count == 0, count == num - 1, count));
        SameMeaning(spec, body, Enter(kind, step, before.(marks := marks)), open + {kind});
      }
    }
  }

  // ---- the two passes over the sections ----------------------------------------------

  /** Marks that are right, on a graph of AFTER names without cycles; those of a new writer are. */
  ghost predicate Settled(spec: Spec, rank: seq<nat>, marks: seq<MemType>) {
    && spec.Valid() && spec.layout.Acyclic(rank) && spec.layout.Consistent(rank, marks)
    && forall i | 0 <= i < |marks| :: marks[i] != Dummy
  }

  /** The loop's sections by their classes. */
  ghost predicate OfClass(spec: Spec, rank: seq<nat>, i: nat, param: nat)
    requires spec.Valid() && spec.layout.Acyclic(rank) && i < |spec.layout.sections|
  {
    param == 0 || spec.layout.Ideal(rank, spec.layout.sections[i].name) == Class(param)
  }

  ghost function ClassCount(spec: Spec, rank: seq<nat>, from: nat, i: nat, param: nat): nat
    requires spec.Valid() && spec.layout.Acyclic(rank) && from <= i <= |spec.layout.sections|
  {
    if i == from then 0
    else ClassCount(spec, rank, from, i - 1, param) + if OfClass(spec, rank, i - 1, param) then 1 else 0
  }

  lemma LookSettled(spec: Spec, rank: seq<nat>, i: nat, param: nat, marks: seq<MemType>)
    requires Settled(spec, rank, marks) && i < |marks|
    ensures Look(spec, i, param, marks).0 == OfClass(spec, rank, i, param)
    ensures Settled(spec, rank, Look(spec, i, param, marks).1)
  {
    spec.layout.RecgSure(rank, marks, spec.layout.sections[i].name);
  }

  lemma {:induction false} CountSettled(spec: Spec, rank: seq<nat>, from: nat, i: nat, param: nat, marks: seq<MemType>)
    requires Settled(spec, rank, marks) && from <= i <= |marks|
    ensures WantedCount(spec, from, i, param, marks).0 == ClassCount(spec, rank, from, i, param)
    ensures Settled(spec, rank, WantedCount(spec, from, i, param, marks).1)
  {
    hide Look, OfClass;
    if i > from {
      CountSettled(spec, rank, from, i - 1, param, marks);
      LookSettled(spec, rank, i - 1, param, WantedCount(spec, from, i - 1, param, marks).1);
    }
  }

  lemma {:induction false} RunSettled(mode: Mode, spec: Spec, rank: seq<nat>, nodes: seq<Node>, s: State)
    requires Fits(spec, s) && Settled(spec, rank, s.marks)
    ensures Settled(spec, rank, Run(mode, spec, nodes, s).marks)
    decreases nodes, 0
  {
    if nodes != [] {
      NodeSettled(mode, spec, rank, nodes[0], s);
      RunSettled(mode, spec, rank, nodes[1..], RunNode(mode, spec, nodes[0], s));
    }
  }

  lemma {:induction false} NodeSettled(mode: Mode, spec: Spec, rank: seq<nat>, node: Node, s: State)
    requires Fits(spec, s) && Settled(spec, rank, s.marks)
    ensures Settled(spec, rank, RunNode(mode, spec, node, s).marks)
    decreases node, 0
  {
    hide Settled;
    match node
    case Text(_) =>
    case Loop(kind, param, body) =>
      if kind.Sections? {
        var from, behind := First(spec, kind.owner), Behind(spec, kind.owner);
        var (num, marks) := WantedCount(spec, from, behind, param, s.marks);
        CountSettled(spec, rank, from, behind, param, s.marks);
        SectionsSettled(mode, spec, rank, kind, param, body, num, behind, s.(marks := marks));
      } else if HasOwner(kind, s.view.cursor) {
        var list := MemberList(spec, kind, s.view.cursor);
        StepsSettled(mode, spec, rank, kind, body, MemberSteps(list, param, |list|), s);
      }
  }

  lemma {:induction false} StepsSettled(mode: Mode, spec: Spec, rank: seq<nat>, kind: Kind, body: seq<Node>,
                                        steps: seq<Step>, s: State)
    requires Fits(spec, s) && Settled(spec, rank, s.marks)
    ensures Settled(spec, rank, RunSteps(mode, spec, kind, body, steps, s).marks)
    decreases body, 1, |steps|
  {
    hide Settled, Run;
    if steps != [] {
      var n := |steps| - 1;
      StepsSettled(mode, spec, rank, kind, body, steps[..n], s);
      RunSettled(mode, spec, rank, body, Enter(kind, steps[n], RunSteps(mode, spec, kind, body, steps[..n], s)));
    }
  }

  lemma {:induction false} SectionsSettled(mode: Mode, spec: Spec, rank: seq<nat>, kind: Kind, param: nat,
                                           body: seq<Node>, num: nat, i: nat, s: State)
    requires Fits(spec, s) && Settled(spec, rank, s.marks)
    requires kind.Sections? && First(spec, kind.owner) <= i <= |s.marks|
    ensures Settled(spec, rank, RunSections(mode, spec, kind, param, body, num, i, s).0.marks)
    ensures RunSections(mode, spec, kind, param, body, num, i, s).1
         == ClassCount(spec, rank, First(spec, kind.owner), i, param)
    decreases body, 1, i
  {
    hide Settled, Look, Run, OfClass;
    if i > First(spec, kind.owner) {
      SectionsSettled(mode, spec, rank, kind, param, body, num, i - 1, s);
      var (before, count) := RunSections(mode, spec, kind, param, body, num, i - 1, s);
      LookSettled(spec, rank, i - 1, param, before.marks);
      var (wanted, marks) := Look(spec, i - 1, param, before.marks);
      if wanted {
        var step := Step(i - 1, Status(count == 0, count == num - 1, count));
        RunSettled(mode, spec, rank, body, Enter(kind, step, before.(marks := marks)));
      }
    }
  }

  /** On a graph of AFTER names without cycles the second pass runs as many sections as the first has counted,
      whatever the body does, so that `isLast` stands at the last one: they are those of the wanted class. */
  lemma PassesAgree(mode: Mode, spec: Spec, rank: seq<nat>, kind: Kind, param: nat, body: seq<Node>, s: State)
    requires Fits(spec, s) && Settled(spec, rank, s.marks) && kind.Sections?
    ensures var from, behind := First(spec, kind.owner), Behind(spec, kind.owner);
            var (num, marks) := WantedCount(spec, from, behind, param, s.marks);
            && num == ClassCount(spec, rank, from, behind, param)
            && RunSections(mode, spec, kind, param, body, num, behind, s.(marks := marks)).1 == num
  {
    hide Settled, RunSections, ClassCount, WantedCount;
    var from, behind := First(spec, kind.owner), Behind(spec, kind.owner);
    var (num, marks) := WantedCount(spec, from, behind, param, s.marks);
    CountSettled(spec, rank, from, behind, param, s.marks);
    SectionsSettled(mode, spec, rank, kind, param, body, num, behind, s.(marks := marks));
  }

  /** Overlay B is placed after A, and A after B and the static module, which has class 1. */
  function Cycle(): Spec {
    Spec(Layout("main", Class(1), [Section("B", MemType.None, ["A"]), Section("A", MemType.None, ["B", "main"])]),
         2, map[], [map[], map[]])
  }

  lemma CycleNames()
    ensures var l := Cycle().layout;
      && Cycle().Valid() && l.Find("B") == At(0) && l.Find("A") == At(1) && l.Find("main") == Main
      && l.sections[0].afters == ["A"] && l.sections[1].afters == ["B", "main"]
  {
    var l := Cycle().layout;
    assert "A"[0] != "B"[0] && |"main"| == 4;
    assert l.IndexOf("A", 1) == At(1);
  }

  /** The search for B comes back to B by A and gives up on both, as long as neither has a class. */
  lemma CycleB()
    ensures Cycle().Valid()
    ensures Cycle().layout.Recg([MemType.None, MemType.None], "B") == (MemType.None, [MemType.None, MemType.None])
  {
    var l := Cycle().layout;
    var o, d := MemType.None, Dummy;
    CycleNames();
    assert [o, o][0 := d] == [d, o] && [d, o][1 := d] == [d, d] && [d, d][1 := o] == [d, o] && [d, o][0 := o] == [o, o];
    assert l.Recg([d, d], "B") == (d, [d, d]);
    assert l.RecgAfters([d, d], 1, 0, o) == (o, [d, d]);
    assert l.Recg([d, o], "A") == (o, [d, o]);
    assert l.RecgAfters([d, o], 0, 1, o) == (o, [d, o]);
    assert l.RecgAfters([d, o], 0, 0, o) == (o, [d, o]);
  }

  /** The search for A then finds the class of the static module. */
  lemma CycleA()
    ensures Cycle().Valid()
    ensures Cycle().layout.Recg([MemType.None, MemType.None], "A") == (Class(1), [MemType.None, Class(1)])
  {
    var l := Cycle().layout;
    var o, d, c := MemType.None, Dummy, Class(1);
    CycleNames();
    assert [o, o][1 := d] == [o, d] && [o, d][0 := d] == [d, d] && [d, d][0 := o] == [o, d] && [o, d][1 := c] == [o, c];
    assert l.Recg([d, d], "A") == (d, [d, d]);
    assert l.RecgAfters([d, d], 0, 0, o) == (o, [d, d]);
    assert l.Recg([o, d], "B") == (o, [o, d]);
    assert l.Recg([o, d], "main") == (c, [o, d]);
    assert l.RecgAfters([o, d], 1, 2, c) == (c, [o, d]);
    assert l.RecgAfters([o, d], 1, 1, o) == (c, [o, d]);
    assert l.RecgAfters([o, d], 1, 0, o) == (c, [o, d]);
  }

  /** After that B has the class, too. */
  lemma CycleAgain()
    ensures Cycle().Valid() && Cycle().layout.Recg([MemType.None, Class(1)], "B") == (Class(1), [Class(1), Class(1)])
    ensures Cycle().layout.Recg([Class(1), Class(1)], "A") == (Class(1), [Class(1), Class(1)])
  {
    var l := Cycle().layout;
    var o, d, c := MemType.None, Dummy, Class(1);
    CycleNames();
    assert [o, c][0 := d] == [d, c] && [d, c][0 := c] == [c, c];
    assert l.Recg([d, c], "A") == (c, [d, c]);
    assert l.RecgAfters([d, c], 0, 1, c) == (c, [d, c]);
    assert l.RecgAfters([d, c], 0, 0, o) == (c, [d, c]);
  }

  /** On this cycle the passes differ: the first one counts one overlay of class 1, the second one runs two, and
      `isLast` stands at the first of them. */
  lemma CycleDiffers(mode: Mode, s: State)
    requires Fits(Cycle(), s) && s.marks == [MemType.None, MemType.None]
    ensures var (num, marks) := WantedCount(Cycle(), 0, 2, 1, s.marks);
      var k, t := Sections(Overlay), s.(marks := marks);
      && num == 1 && RunSections(mode, Cycle(), k, 1, [], num, 2, t).1 == 2
      && RunSections(mode, Cycle(), k, 1, [], num, 1, t).0.view.status[k].isLast
  {
    var o, c := MemType.None, Class(1);
    CycleB();
    CycleA();
    CycleAgain();
    CycleNames();
    assert Look(Cycle(), 0, 1, [o, o]) == (false, [o, o]) && Look(Cycle(), 1, 1, [o, o]) == (true, [o, c]);
    assert Look(Cycle(), 0, 1, [o, c]) == (true, [c, c]) && Look(Cycle(), 1, 1, [c, c]) == (true, [c, c]);
    TwoPasses(mode, Cycle(), s, [o, c], [c, c]);
  }

  lemma TwoPasses(mode: Mode, spec: Spec, s: State, one: seq<MemType>, two: seq<MemType>)
    requires Fits(spec, s) && |s.marks| == |one| == |two| == 2 && spec.overlayNum == 2
    requires Look(spec, 0, 1, s.marks) == (false, s.marks) && Look(spec, 1, 1, s.marks) == (true, one)
    requires Look(spec, 0, 1, one) == (true, two) && Look(spec, 1, 1, two) == (true, two)
    ensures WantedCount(spec, 0, 2, 1, s.marks) == (1, one)
    ensures var k, t := Sections(Overlay), s.(marks := one);
      && RunSections(mode, spec, k, 1, [], 1, 2, t).1 == 2
      && RunSections(mode, spec, k, 1, [], 1, 1, t).0.view.status[k].isLast
  {
    hide Look;
    assert WantedCount(spec, 0, 0, 1, s.marks) == (0, s.marks);
    assert WantedCount(spec, 0, 1, 1, s.marks) == (0, s.marks);
    var k, t := Sections(Overlay), s.(marks := one);
    assert RunSections(mode, spec, k, 1, [], 1, 0, t) == (t, 0);
    var first := Enter(k, Step(0, Status(true, true, 0)), t.(marks := two));
    assert RunSections(mode, spec, k, 1, [], 1, 1, t) == (first, 1);
  }

  // ---- a loop inside a loop of its own kind ------------------------------------------

  ghost predicate OneOverlay(spec: Spec) {
    spec.Valid() && spec.overlayNum == 1
  }

  lemma OneNode(mode: Mode, spec: Spec, node: Node, s: State)
    requires Fits(spec, s)
    ensures Run(mode, spec, [node], s) == RunNode(mode, spec, node, s)
  {
    assert [node][1..] == [];
  }

  /** A loop over the one overlay runs its body once. */
  lemma RunsOnce(mode: Mode, spec: Spec, body: seq<Node>, s: State)
    requires Fits(spec, s) && OneOverlay(spec)
    ensures var k := Sections(Overlay);
      RunNode(mode, spec, Loop(k, 0, body), s)
        == Leave(mode, k, s, Run(mode, spec, body, Enter(k, Step(0, Status(true, true, 0)), s)))
  {
    var k := Sections(Overlay);
    assert WantedCount(spec, 0, 0, 0, s.marks) == (0, s.marks) && WantedCount(spec, 0, 1, 0, s.marks) == (1, s.marks);
    assert s.(marks := s.marks) == s;
    assert RunSections(mode, spec, k, 0, body, 1, 0, s) == (s, 0);
    assert RunAllSections(mode, spec, k, 0, body, s) == RunSections(mode, spec, k, 0, body, 1, 1, s).0;
  }

  /** What a loop over the one overlay prints whose body is another such loop, without a body, and a token. */
  lemma InnerLoop(mode: Mode, spec: Spec, s: State)
    requires Fits(spec, s) && OneOverlay(spec) && s.view == View(map[], map[]) && s.out == []
    ensures var k := Sections(Overlay);
            var r := Run(mode, spec, [Loop(k, 0, [Loop(k, 0, []), Text(7)])], s);
            r.out == [(7, View(if mode == Lexical then map[k := 0] else map[], map[k := Status(true, true, 0)]))]
  {
    hide RunNode;
    var k, step := Sections(Overlay), Step(0, Status(true, true, 0));
    var inner := Loop(k, 0, []);
    var body := [inner, Text(7)];
    var e := Enter(k, step, s);
    OneNode(mode, spec, Loop(k, 0, body), s);
    RunsOnce(mode, spec, body, s);
    NodesFrom(mode, spec, body, 0, e);
    assert body[0..] == body && body[1..] == [Text(7)];
    RunsOnce(mode, spec, [], e);
    assert Enter(k, step, e) == e;
    var f := RunNode(mode, spec, inner, e);
    assert f == Leave(mode, k, e, e);
    OneNode(mode, spec, Text(7), f);
    TextRuns(mode, spec, 7, f);
    assert map[k := 0] - {k} == map[];
  }

  lemma TextRuns(mode: Mode, spec: Spec, id: nat, s: State)
    requires Fits(spec, s)
    ensures RunNode(mode, spec, Text(id), s) == s.(out := s.out + [(id, s.view)])
  {}

  /** With a loop inside a loop of its own kind they can differ: behind the inner loop the interpreter has lost
      the current overlay. */
  lemma OwnNestingDiffers(spec: Spec, s: State)
    requires Fits(spec, s) && OneOverlay(spec) && s.view == View(map[], map[]) && s.out == []
    ensures var k := Sections(Overlay);
            var nodes := [Loop(k, 0, [Loop(k, 0, []), Text(7)])];
            !NoOwnNesting(nodes, {}) && Run(Interpreted, spec, nodes, s) != Run(Lexical, spec, nodes, s)
  {
    var k := Sections(Overlay);
    var body := [Loop(k, 0, []), Text(7)];
    var nodes := [Loop(k, 0, body)];
    InnerLoop(Interpreted, spec, s);
    InnerLoop(Lexical, spec, s);
    var none: map<Kind, nat> := map[];
    assert k in none[k := 0] && k !in none;
    assert nodes[0].body == body && body[0].kind in {} + {k};
    assert !NoOwnNesting(body, {} + {k});
  }
}
