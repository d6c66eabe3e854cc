/** What holds in every run of the command queue: order of execution, exactly one executor per
    command, alternation of ACTIVATE and IDLE. */
module QueueRuns {
  import opened Basics
  import opened CommandQueue
  import opened QueueMachine
  import opened QueueSafety

  // ---- the recorded run --------------------------------------------------------------

  ghost predicate Increasing(s: seq<nat>) {
    forall i, j :: 0 <= i < j < |s| ==> s[i] < s[j]
  }

  /** The tickets executed so far, in order. */
  function Executed(log: seq<Event>): seq<nat> {
    if log == [] then []
    else
      var e := log[|log| - 1];
      Executed(log[..|log| - 1]) + if e.Execute? then [e.ticket] else []
  }

  function Tickets(list: seq<FileId>, ticket: map<FileId, nat>): (r: seq<nat>)
    ensures |r| == |list|
    ensures forall i :: 0 <= i < |r| ==> r[i] == if list[i] in ticket then ticket[list[i]] else 0
  {
    seq(|list|, i requires 0 <= i < |list| => if list[i] in ticket then ticket[list[i]] else 0)
  }

  /** The head of the list has been handed to its command function. */
  ghost predicate Started(m: Machine, k: Token)
    requires k.Held? ==> k.t < |m.pc|
  {
    k.Flight? || (k.Held? && (m.pc[k.t].Translating? || m.pc[k.t].AwaitSync? || m.pc[k.t].Releasing?))
  }

  /** The tickets of the queued files that have not been started, in order. */
  ghost function Waiting(m: Machine, k: Token): seq<nat>
    requires k.Held? ==> k.t < |m.pc|
  {
    Tickets(if Started(m, k) && m.q.list != [] then m.q.list[1..] else m.q.list, m.ticket)
  }

  /** Executed, waiting and dropped tickets: each submission is in exactly one of the three, and the
      executed ones followed by the waiting ones are in submission order. */
  ghost predicate Ordered(executed: seq<nat>, waiting: seq<nat>, dropped: set<nat>, next: nat) {
    && Increasing(executed + waiting)
    && (forall x :: x in executed + waiting ==> x < next && x !in dropped)
    && (forall x :: x in dropped ==> x < next)
    && (forall x: nat :: x < next ==> x in executed + waiting || x in dropped)
  }

  /** (ACTIVATE EXECUTE* IDLE)*, with `active` telling whether an IDLE is still due. */
  predicate Alternates(log: seq<Event>, active: bool) {
    if log == [] then !active
    else
      var before := log[..|log| - 1];
      match log[|log| - 1]
      case Activate => active && Alternates(before, false)
      case Execute(_, _) => active && Alternates(before, true)
      case GoIdle => !active && Alternates(before, true)
  }

  ghost predicate Active(m: Machine, k: Token)
    requires k.Held? ==> k.t < |m.pc|
  {
    m.q.running && !(k.Held? && (m.pc[k.t].Starting? || m.pc[k.t].Chosen?) && !m.pc[k.t].activated)
  }

  /** The last command executed is the head of the list. */
  ghost predicate Underway(m: Machine) {
    var e := Executed(m.log);
    m.q.list != [] && m.q.list[0] in m.ticket && e != [] && e[|e| - 1] == m.ticket[m.q.list[0]]
  }

  ghost predicate History(m: Machine, k: Token)
    requires k.Held? ==> k.t < |m.pc|
  {
    && (forall f | f in m.q.list :: f in m.ticket)
    && (Started(m, k) ==> Underway(m))
    && Ordered(Executed(m.log), Waiting(m, k), m.dropped, m.nextTicket)
    && (m.procActivate && m.procIdle ==> Alternates(m.log, Active(m, k)))
  }

  ghost predicate Good(m: Machine, k: Token) {
    Inv(m, k) && History(m, k)
  }

  // ---- how a region changes the record -----------------------------------------------

  /** The list and the record stay, and so does what the token says about them. */
  lemma StillHistory(m: Machine, k: Token, n: Machine, l: Token)
    requires (k.Held? ==> k.t < |m.pc|) && (l.Held? ==> l.t < |n.pc|) && History(m, k)
    requires n.log == m.log && n.dropped == m.dropped && n.nextTicket == m.nextTicket && n.ticket == m.ticket
    requires n.procActivate == m.procActivate && n.procIdle == m.procIdle && n.q.list == m.q.list
    requires Started(n, l) == Started(m, k) && Active(n, l) == Active(m, k)
    ensures History(n, l)
  {}

  lemma ExecutedSnoc(log: seq<Event>, e: Event)
    ensures Executed(log + [e]) == Executed(log) + if e.Execute? then [e.ticket] else []
    ensures Alternates(log + [e], true) <==>
      (e.Activate? && Alternates(log, false)) || (e.Execute? && Alternates(log, true))
    ensures Alternates(log + [e], false) <==> e.GoIdle? && Alternates(log, true)
  {
    assert (log + [e])[..|log|] == log;
  }

  /** Without its first element, a distinct list is its tail. */
  lemma WithoutHead(s: seq<FileId>)
    requires Distinct(s) && s != []
    ensures Without(s, s[0]) == s[1..]
  {
    assert s[0] !in s[1..];
    assert s == [s[0]] + s[1..];
  }

  lemma OrderedAppend(e: seq<nat>, w: seq<nat>, d: set<nat>, next: nat)
    requires Ordered(e, w, d, next)
    ensures Ordered(e, w + [next], d, next + 1)
  {
    var s := e + w;
    assert e + (w + [next]) == s + [next];
    forall i, j | 0 <= i < j < |s| + 1
      ensures (s + [next])[i] < (s + [next])[j]
    {
      assert s[i] in s;
    }
    forall x: nat | x < next + 1
      ensures x in e + (w + [next]) || x in d
    {
      assert x < next ==> x in e + w || x in d;
    }
  }

  lemma OrderedStart(e: seq<nat>, x: nat, w: seq<nat>, d: set<nat>, next: nat)
    ensures Ordered(e, [x] + w, d, next) ==> Ordered(e + [x], w, d, next)
  {
    assert (e + [x]) + w == e + ([x] + w);
  }

  /** Appending a file with a new ticket to the list. */
  lemma TicketsSnoc(list: seq<FileId>, ticket: map<FileId, nat>, f: FileId, x: nat)
    requires f !in list
    ensures Tickets(list + [f], ticket[f := x]) == Tickets(list, ticket) + [x]
  {}

  lemma EnqueueHistory(m: Machine, k: Token, t: nat)
    requires Control(m, k) && History(m, k) && CanEnqueue(m, t) && ThreadOk(m.q, m.pc[t])
    ensures History(AfterEnqueue(m, t), if m.q.running || m.q.suspend then k else Held(t))
  {
    var n := AfterEnqueue(m, t);
    var l := if m.q.running || m.q.suspend then k else Held(t);
    EnqueueShape(m, t);
    EnqueueRecord(m, t);
    AppendHistory(m, k, n, l, t, m.pc[t].f);
  }

  lemma AppendHistory(m: Machine, k: Token, n: Machine, l: Token, t: nat, f: FileId)
    requires TokenOk(m, k) && FlagsOk(m.q) && History(m, k) && t < |m.pc| && m.pc[t].Sending?
    requires n.q.list == m.q.list + [f] && f !in m.q.list
    requires n.ticket == m.ticket[f := m.nextTicket] && n.nextTicket == m.nextTicket + 1
    requires n.log == m.log && n.dropped == m.dropped
    requires n.procActivate == m.procActivate && n.procIdle == m.procIdle
    requires |n.pc| == |m.pc| && n.pc == m.pc[t := n.pc[t]]
    requires k == Flight ==> m.q.list != []
    requires k.Held? && Started(m, k) ==> m.q.list != []
    requires if m.q.running || m.q.suspend then l == k && n.q.running == m.q.running
             else l == Held(t) && n.q.running && n.pc[t] == Starting(f, false) && m.q.list == []
    ensures History(n, l)
  {
    assert k.Held? ==> k.t != t;
    assert Started(n, l) == Started(m, k) && Active(n, l) == Active(m, k);
    var rest := if Started(m, k) && m.q.list != [] then m.q.list[1..] else m.q.list;
    assert (if Started(n, l) && n.q.list != [] then n.q.list[1..] else n.q.list) == rest + [f];
    TicketsSnoc(rest, m.ticket, f, m.nextTicket);
    OrderedAppend(Executed(m.log), Waiting(m, k), m.dropped, m.nextTicket);
  }

  lemma ActivateHistory(m: Machine, k: Token, t: nat)
    requires Control(m, k) && History(m, k) && CanActivate(m, t)
    ensures History(AfterActivate(m, t), k)
  {
    var n := AfterActivate(m, t);
    ActivateControl(m, k, t);
    assert k == Held(t) && n.q == m.q;
    ExecutedSnoc(m.log, Activate);
    assert !Active(m, k) && Active(n, k) && !Started(n, k) && !Started(m, k);
    assert Executed(n.log) == Executed(m.log);
  }

  lemma TranslateShape(m: Machine, k: Token, t: nat)
    requires Control(m, k) && CanTranslate(m, t)
    ensures var n := AfterTranslate(m, t);
      && k == Held(t) && n.q.list == m.q.list && n.ticket == m.ticket
      && m.q.list != [] && m.q.list[0] == m.pc[t].f && m.q.running && n.q.running
      && n.log == m.log + [Execute(m.ticket[m.pc[t].f], m.pc[t].own)]
      && n.pc[t].Translating? && n.dropped == m.dropped && n.nextTicket == m.nextTicket
      && n.procActivate == m.procActivate && n.procIdle == m.procIdle && |n.pc| == |m.pc|
  {
    TranslateControl(m, k, t);
  }

  lemma TranslateHistory(m: Machine, k: Token, t: nat)
    requires Control(m, k) && History(m, k) && CanTranslate(m, t)
    ensures History(AfterTranslate(m, t), k)
  {
    TranslateShape(m, k, t);
    StartHistory(m, AfterTranslate(m, t), t, m.pc[t].own);
  }

  lemma StartHistory(m: Machine, n: Machine, t: nat, own: bool)
    requires t < |m.pc| == |n.pc| && History(m, Held(t)) && m.pc[t].Ready? && n.pc[t].Translating?
    requires m.q.list != [] && n.q.list == m.q.list && n.ticket == m.ticket && m.q.list[0] in m.ticket
    requires n.log == m.log + [Execute(m.ticket[m.q.list[0]], own)]
    requires n.dropped == m.dropped && n.nextTicket == m.nextTicket && m.q.running && n.q.running
    requires n.procActivate == m.procActivate && n.procIdle == m.procIdle
    ensures History(n, Held(t))
  {
    hide Ordered, Alternates, Executed, Tickets;
    var k := Held(t);
    var x := m.ticket[m.q.list[0]];
    ExecutedSnoc(m.log, Execute(x, own));
    assert Executed(n.log) == Executed(m.log) + [x];
    WaitingHead(m.q.list, m.ticket);
    assert Waiting(m, k) == [x] + Waiting(n, k);
    OrderedStart(Executed(m.log), x, Waiting(n, k), m.dropped, m.nextTicket);
    assert Underway(n);
  }

  lemma WaitingHead(list: seq<FileId>, ticket: map<FileId, nat>)
    requires list != [] && list[0] in ticket
    ensures Tickets(list, ticket) == [ticket[list[0]]] + Tickets(list[1..], ticket)
  {}

  lemma OperateHistory(m: Machine, k: Token, t: nat, l: Token)
    requires Control(m, k) && History(m, k) && CanOperate(m, t) && (l == k || l.Handed?) && k == Held(t)
    requires l == k ==> AfterOperate(m, t).pc[t].Ready?
    ensures History(AfterOperate(m, t), l)
  {
    var n := AfterOperate(m, t);
    assert |n.pc| == |m.pc| && n.q.list == m.q.list && n.q.running == m.q.running;
    hide AfterOperate, Control, History;
    StillHistory(m, k, n, l);
  }

  lemma HandoverHistory(m: Machine, t: nat)
    requires History(m, Handed(t)) && CanHandover(m, t)
    ensures History(AfterHandover(m, t), Held(t))
  {
    StillHistory(m, Handed(t), AfterHandover(m, t), Held(t));
  }

  lemma StartIoHistory(m: Machine, t: nat, inner: bool)
    requires CanStartIo(m, t, inner) && History(m, Held(t)) && m.q.running
    ensures History(AfterStartIo(m, t, inner), if m.q.files[m.pc[t].f].sync then Held(t) else Flight)
  {
    var n := AfterStartIo(m, t, inner);
    assert |n.pc| == |m.pc| && n.q.list == m.q.list && n.q.running == m.q.running;
    assert n.pc[t] == if m.q.files[m.pc[t].f].sync then AwaitSync(m.pc[t].f, inner) else Idle;
    StillHistory(m, Held(t), n, if m.q.files[m.pc[t].f].sync then Held(t) else Flight);
  }

  lemma SyncWakeHistory(m: Machine, t: nat)
    requires CanSyncWake(m, t) && History(m, Held(t)) && m.q.running
    ensures History(AfterSyncWake(m, t), Held(t))
  {
    StillHistory(m, Held(t), AfterSyncWake(m, t), Held(t));
  }

  /** The file at the head leaves the list after it was executed. */
  lemma HeadGone(m: Machine, k: Token, n: Machine, l: Token)
    requires Control(m, k) && History(m, k) && Control(n, l) && Started(m, k) && !Started(n, l) && m.q.list != []
    requires n.q.list == Without(m.q.list, m.q.list[0]) && n.ticket == m.ticket && n.log == m.log
    requires n.dropped == m.dropped && n.nextTicket == m.nextTicket
    requires n.procActivate == m.procActivate && n.procIdle == m.procIdle && Active(n, l) == Active(m, k)
    ensures History(n, l)
  {
    WithoutHead(m.q.list);
    assert Waiting(n, l) == Waiting(m, k);
  }

  /** `a` is increasing and taken from `b`. */
  ghost predicate Thinner(a: seq<nat>, b: seq<nat>) {
    Increasing(a) && forall x | x in a :: x in b
  }

  lemma TicketsHead(f: FileId, rest: seq<FileId>, ticket: map<FileId, nat>)
    ensures Tickets([f] + rest, ticket) == [if f in ticket then ticket[f] else 0] + Tickets(rest, ticket)
  {}

  lemma KeptHead(s: seq<FileId>, files: map<FileId, Stat>)
    requires s != [] && forall f :: f in s ==> f in files
    ensures s == [s[0]] + s[1..] && (forall f :: f in s[1..] ==> f in files)
    ensures Kept(s, files) == if files[s[0]].cancel then Kept(s[1..], files) else [s[0]] + Kept(s[1..], files)
  {
    assert s[0] in s;
  }

  lemma {:induction false} KeptTickets(s: seq<FileId>, ticket: map<FileId, nat>, files: map<FileId, Stat>)
    requires forall f :: f in s ==> f in files
    requires Increasing(Tickets(s, ticket))
    ensures Thinner(Tickets(Kept(s, files), ticket), Tickets(s, ticket))
  {
    hide Thinner, Kept, Tickets;
    if s == [] {
      KeptNothing(files, ticket);
    } else {
      KeptHead(s, files);
      var x := if s[0] in ticket then ticket[s[0]] else 0;
      TicketsHead(s[0], s[1..], ticket);
      assert Increasing(Tickets(s[1..], ticket)) by { IncreasingTail(x, Tickets(s[1..], ticket)); }
      KeptTickets(s[1..], ticket, files);
      TicketsHead(s[0], Kept(s[1..], files), ticket);
      ThinnerHead(x, Tickets(Kept(s[1..], files), ticket), Tickets(s[1..], ticket));
    }
  }

  lemma KeptNothing(files: map<FileId, Stat>, ticket: map<FileId, nat>)
    ensures Thinner(Tickets(Kept([], files), ticket), Tickets([], ticket))
  {}

  lemma IncreasingTail(x: nat, s: seq<nat>)
    requires Increasing([x] + s)
    ensures Increasing(s)
  {
    forall i, j | 0 <= i < j < |s|
      ensures s[i] < s[j]
    {
      assert ([x] + s)[i + 1] < ([x] + s)[j + 1];
    }
  }

  lemma ThinnerHead(x: nat, a: seq<nat>, b: seq<nat>)
    requires Increasing([x] + b)
    ensures Thinner(a, b) ==> Thinner(a, [x] + b) && Thinner([x] + a, [x] + b)
  {
    if Thinner(a, b) {
      assert ([x] + b)[1..] == b;
      AboveHead([x] + b, a);
    }
  }

  lemma AboveHead(ts: seq<nat>, rest: seq<nat>)
    requires ts != [] && Increasing(ts) && Increasing(rest) && forall x :: x in rest ==> x in ts[1..]
    ensures Increasing([ts[0]] + rest) && forall x :: x in [ts[0]] + rest ==> x in ts
  {
    forall x | x in rest
      ensures ts[0] < x
    {
      var i :| 0 <= i < |ts[1..]| && ts[1..][i] == x;
      assert ts[i + 1] == x;
    }
    var all := [ts[0]] + rest;
    forall i, j | 0 <= i < j < |all|
      ensures all[i] < all[j]
    {
      assert all[j] == rest[j - 1] && rest[j - 1] in rest;
      if i > 0 { assert all[i] == rest[i - 1]; }
    }
  }

  lemma OrderedThin(e: seq<nat>, w: seq<nat>, w': seq<nat>, d: set<nat>, d': set<nat>, next: nat)
    requires Ordered(e, w, d, next) && Increasing(w')
    requires forall x :: x in w' ==> x in w
    requires forall x :: x in d' <==> x in d || (x in w && x !in w')
    ensures Ordered(e, w', d', next)
  {
    var s := e + w;
    forall i, j | 0 <= i < j < |e + w'|
      ensures (e + w')[i] < (e + w')[j]
    {
      if j < |e| {
        assert s[i] < s[j];
      } else if i < |e| {
        assert w'[j - |e|] in w;
        var h :| 0 <= h < |w| && w[h] == w'[j - |e|];
        assert s[i] < s[|e| + h];
      }
    }
    forall x | x in e
      ensures x !in w
    {
      var i :| 0 <= i < |e| && e[i] == x;
      assert s[i] == x;
      forall h | 0 <= h < |w|
        ensures w[h] != x
      {
        assert s[|e| + h] == w[h] && s[i] < s[|e| + h];
      }
    }
    forall x | x in d' || x in w'
      ensures x < next
    {
      assert x in d || x in s;
    }
    forall x: nat | x < next
      ensures x in e + w' || x in d'
    {
      assert x in s || x in d;
    }
  }

  lemma LostExact(m: Machine, after: seq<FileId>)
    requires forall f :: f in m.q.list ==> f in m.ticket
    requires forall f :: f in after ==> f in m.q.list
    requires Increasing(Tickets(m.q.list, m.ticket))
    ensures forall x :: x in Lost(m, after) <==> x in Tickets(m.q.list, m.ticket) && x !in Tickets(after, m.ticket)
  {
    var ts := Tickets(m.q.list, m.ticket);
    forall f, g | f in m.q.list && g in m.q.list && f != g
      ensures m.ticket[f] != m.ticket[g]
    {
      var i :| 0 <= i < |m.q.list| && m.q.list[i] == f;
      var j :| 0 <= j < |m.q.list| && m.q.list[j] == g;
      assert ts[i] == m.ticket[f] && ts[j] == m.ticket[g] && (ts[i] < ts[j] || ts[j] < ts[i]);
    }
    forall x
      ensures x in Lost(m, after) <==> x in ts && x !in Tickets(after, m.ticket)
    {
      if x in Lost(m, after) {
        var f :| f in m.q.list && f !in after && f in m.ticket && m.ticket[f] == x;
        var i :| 0 <= i < |m.q.list| && m.q.list[i] == f;
        assert ts[i] == x;
      }
      if x in ts && x !in Tickets(after, m.ticket) {
        var i :| 0 <= i < |ts| && ts[i] == x;
        var f := m.q.list[i];
        assert f !in after by {
          forall j | 0 <= j < |after|
            ensures after[j] != f
          {
            assert Tickets(after, m.ticket)[j] in Tickets(after, m.ticket);
          }
        }
      }
    }
  }

  lemma ThinOrdered(m: Machine, after: seq<FileId>, e: seq<nat>)
    requires ListOk(m.q) && forall f | f in m.q.list :: f in m.ticket
    requires Ordered(e, Tickets(m.q.list, m.ticket), m.dropped, m.nextTicket)
    requires after == m.q.list || after == [] || after == Kept(m.q.list, m.q.files)
    ensures Ordered(e, Tickets(after, m.ticket), m.dropped + Lost(m, after), m.nextTicket)
  {
    var w := Tickets(m.q.list, m.ticket);
    forall i, j | 0 <= i < j < |w|
      ensures w[i] < w[j]
    {
      assert (e + w)[|e| + i] < (e + w)[|e| + j];
    }
    KeptTickets(m.q.list, m.ticket, m.q.files);
    assert after == Kept(m.q.list, m.q.files) ==> Thinner(Tickets(after, m.ticket), w);
    LostExact(m, after);
    OrderedThin(e, w, Tickets(after, m.ticket), m.dropped, m.dropped + Lost(m, after), m.nextTicket);
  }

  /** Queued commands that have not been started are released. */
  lemma ThinHistory(m: Machine, k: Token, n: Machine, l: Token)
    requires (k.Held? ==> k.t < |m.pc|) && (l.Held? ==> l.t < |n.pc|)
    requires History(m, k) && !Started(m, k) && !Started(n, l) && ListOk(m.q)
    requires n.q.list == m.q.list || n.q.list == [] || n.q.list == Kept(m.q.list, m.q.files)
    requires n.ticket == m.ticket && n.nextTicket == m.nextTicket && n.dropped == m.dropped + Lost(m, n.q.list)
    requires n.procActivate == m.procActivate && n.procIdle == m.procIdle
    requires if Active(m, k) && !Active(n, l) then n.log == if m.procIdle then m.log + [GoIdle] else m.log
             else n.log == m.log && Active(m, k) == Active(n, l)
    ensures History(n, l)
  {
    ThinOrdered(m, n.q.list, Executed(m.log));
    ExecutedSnoc(m.log, GoIdle);
    assert Executed(n.log) == Executed(m.log);
  }

  lemma NextShape(q: Queue<FileId>)
    requires ListOk(q)
    ensures var p := Next(q);
      && (p.q.list == q.list || p.q.list == Kept(q.list, q.files))
      && p.idle == (q.running && p.chosen.None?) && p.q.running == p.chosen.Some?
      && p.start == (p.chosen.Some? && !q.running)
  {}

  lemma NextHistory(m: Machine, k: Token, t: nat)
    requires Control(m, k) && History(m, k) && CanNext(m, t)
    ensures History(AfterNext(m, t), if AfterNext(m, t).pc[t] == Idle then Free else k)
  {
    var n := AfterNext(m, t);
    NextControl(m, k, t);
    NextShape(m.q);
    hide Next;
    ThinHistory(m, k, n, if n.pc[t] == Idle then Free else k);
  }

  lemma ResumeHistory(m: Machine, k: Token, t: nat)
    requires Control(m, k) && History(m, k) && CanResume(m, t)
    ensures History(AfterResume(m, t), if AfterResume(m, t).pc[t] == Idle then k else Held(t))
  {
    var n := AfterResume(m, t);
    ResumeControl(m, k, t);
    if m.q.suspend {
      NextShape(m.q.(suspend := false));
      hide Next;
      ThinHistory(m, k, n, if n.pc[t] == Idle then k else Held(t));
    } else {
      assert n.q == m.q && n.pc == m.pc;
      assert Lost(m, m.q.list) == {};
      StillHistory(m, k, n, k);
    }
  }

  lemma UnloadedHistory(m: Machine, k: Token, t: nat, resume: bool)
    requires Control(m, k) && History(m, k) && t < |m.pc| && !Executing(m.pc[t]) && Unattended(m)
    requires !resume ==> m.q.suspend
    ensures History(Unloaded(m, t, resume), k)
  {
    UnloadedControl(m, k, t, resume);
    ThinHistory(m, k, Unloaded(m, t, resume), k);
  }

  lemma ReleaseHistory(m: Machine, k: Token, t: nat)
    requires Control(m, k) && History(m, k) && CanRelease(m, t)
    ensures History(AfterRelease(m, t), k)
  {
    ReleaseControl(m, k, t);
    HeadGone(m, k, AfterRelease(m, t), k);
  }

  lemma NotifyHistory(m: Machine, k: Token, t: nat, ret: FsResult)
    requires Control(m, k) && History(m, k) && CanNotify(m, t)
    ensures History(AfterNotify(m, t, ret), if k == Flight then Held(t) else k)
  {
    var n := AfterNotify(m, t, ret);
    NotifyControl(m, k, t, ret);
    if k == Flight {
      HeadGone(m, k, n, Held(t));
    } else {
      StillHistory(m, k, n, k);
    }
  }

  lemma FinishHistory(m: Machine, k: Token, t: nat, ret: FsResult)
    requires Control(m, k) && History(m, k) && CanFinish(m, t)
    ensures History(AfterFinish(m, t, ret), k)
  {
    assert k == Held(t);
    if m.pc[t].own {
      FinishOwnHistory(m, t, ret);
    } else {
      FinishAsyncHistory(m, t, ret);
    }
  }

  lemma FinishAsyncHistory(m: Machine, t: nat, ret: FsResult)
    requires Control(m, Held(t)) && History(m, Held(t)) && CanFinish(m, t) && !m.pc[t].own
    ensures History(AfterFinish(m, t, ret), Held(t))
  {
    FinishControl(m, Held(t), t, ret);
    HeadGone(m, Held(t), AfterFinish(m, t, ret), Held(t));
  }

  lemma FinishOwnHistory(m: Machine, t: nat, ret: FsResult)
    requires CanFinish(m, t) && m.pc[t].own && m.q.files[m.pc[t].f].sync && History(m, Held(t))
    ensures History(AfterFinish(m, t, ret), Held(t))
  {
    StillHistory(m, Held(t), AfterFinish(m, t, ret), Held(t));
  }

  /** A thread that does not run the archive changes neither the list nor RUNNING. */
  lemma BystanderHistory(m: Machine, k: Token, n: Machine, t: nat)
    requires TokenOk(m, k) && History(m, k) && t < |m.pc| == |n.pc| && n.pc == m.pc[t := n.pc[t]]
    requires !Executing(m.pc[t]) && !Executing(n.pc[t])
    requires n.q.list == m.q.list && n.q.running == m.q.running && n.ticket == m.ticket
    requires n.log == m.log && n.dropped == m.dropped && n.nextTicket == m.nextTicket
    requires n.procActivate == m.procActivate && n.procIdle == m.procIdle
    ensures History(n, k)
  {
    assert k.Held? ==> n.pc[k.t] == m.pc[k.t];
  }

  lemma MoveHistory(m: Machine, k: Token, q: Queue<FileId>, t: nat, p: Pc)
    requires TokenOk(m, k) && History(m, k) && t < |m.pc| && !Executing(m.pc[t]) && !Executing(p)
    requires q.list == m.q.list && q.running == m.q.running
    ensures History(Goto(m.(q := q), t, p), k)
  {
    BystanderHistory(m, k, Goto(m.(q := q), t, p), t);
  }

  lemma PrepareHistory(m: Machine, k: Token, t: nat, f: FileId, syncCommand: bool, blocking: bool)
    requires TokenOk(m, k) && History(m, k) && CanPrepare(m, t, f)
    ensures History(AfterPrepare(m, t, f, syncCommand, blocking), k)
  {
    MoveHistory(m, k, Prepare(m.q, f, blocking), t, Sending(f, syncCommand));
  }

  lemma WaitHistory(m: Machine, k: Token, t: nat, f: FileId)
    requires TokenOk(m, k) && History(m, k) && CanWait(m, t, f)
    ensures History(AfterWait(m, t, f), k)
  {
    MoveHistory(m, k, TakeOver(m.q, f), t, AwaitOperating(f));
    MoveHistory(m, k, m.q, t, AwaitIdle(f));
    assert m == m.(q := m.q);
  }

  lemma CancelHistory(m: Machine, k: Token, t: nat, f: FileId)
    requires TokenOk(m, k) && History(m, k) && CanCancel(m, t, f)
    ensures History(AfterCancel(m, t, f), k)
  {
    MoveHistory(m, k, Cancel(m.q, f), t, Idle);
    assert m.pc[t := Idle] == m.pc;
  }

  lemma WakeHistory(m: Machine, k: Token, t: nat)
    requires TokenOk(m, k) && History(m, k) && (CanWaitWake(m, t) || CanSuspendWake(m, t))
    ensures History(Goto(m, t, Idle), k)
  {
    MoveHistory(m, k, m.q, t, Idle);
  }

  lemma SuspendHistory(m: Machine, k: Token, t: nat)
    requires TokenOk(m, k) && History(m, k) && IsIdle(m, t)
    ensures History(AfterSuspend(m, t), k)
  {
    MoveHistory(m, k, Suspend(m.q).0, t, AfterSuspend(m, t).pc[t]);
  }

  lemma UnloadHistory(m: Machine, k: Token, t: nat)
    requires Control(m, k) && History(m, k) && CanUnload(m, t)
    ensures History(AfterUnload(m, t), k)
  {
    if m.q.running {
      assert !m.q.suspend;
      MoveHistory(m, k, Suspend(m.q).0, t, AwaitUnload);
    } else {
      var s := AfterSuspend(m, t);
      SuspendControl(m, k, t);
      SuspendHistory(m, k, t);
      assert s == m.(q := Suspend(m.q).0);
      UnloadedHistory(s, k, t, !m.q.suspend);
    }
  }

  // ---- every step, every run ---------------------------------------------------------

  lemma PrepareGood(m: Machine, k: Token, t: nat, f: FileId, syncCommand: bool, blocking: bool) returns (l: Token)
    requires Good(m, k) && CanPrepare(m, t, f)
    ensures Good(AfterPrepare(m, t, f, syncCommand, blocking), l)
  {
    PrepareInv(m, k, t, f, syncCommand, blocking);
    l := k;
    PrepareHistory(m, k, t, f, syncCommand, blocking);
  }

  lemma EnqueueGood(m: Machine, k: Token, t: nat) returns (l: Token)
    requires Good(m, k) && CanEnqueue(m, t)
    ensures Good(AfterEnqueue(m, t), l)
  {
    EnqueueInv(m, k, t);
    l := if m.q.running || m.q.suspend then k else Held(t);
    EnqueueHistory(m, k, t);
  }

  lemma ActivateGood(m: Machine, k: Token, t: nat) returns (l: Token)
    requires Good(m, k) && CanActivate(m, t)
    ensures Good(AfterActivate(m, t), l)
  {
    ActivateInv(m, k, t);
    l := k;
    ActivateHistory(m, k, t);
  }

  lemma OperateGood(m: Machine, k: Token, t: nat) returns (l: Token)
    requires Good(m, k) && CanOperate(m, t)
    ensures Good(AfterOperate(m, t), l)
  {
    l := OperateInv(m, k, t);
    OperateHistory(m, k, t, l);
  }

  lemma HandoverGood(m: Machine, k: Token, t: nat) returns (l: Token)
    requires Good(m, k) && CanHandover(m, t)
    ensures Good(AfterHandover(m, t), l)
  {
    HandoverInv(m, k, t);
    l := Held(t);
    HandoverHistory(m, t);
  }

  lemma TranslateGood(m: Machine, k: Token, t: nat) returns (l: Token)
    requires Good(m, k) && CanTranslate(m, t)
    ensures Good(AfterTranslate(m, t), l)
  {
    TranslateInv(m, k, t);
    l := k;
    TranslateHistory(m, k, t);
  }

  lemma StartIoGood(m: Machine, k: Token, t: nat, inner: bool) returns (l: Token)
    requires Good(m, k) && CanStartIo(m, t, inner)
    ensures Good(AfterStartIo(m, t, inner), l)
  {
    StartIoInv(m, k, t, inner);
    l := if m.q.files[m.pc[t].f].sync then k else Flight;
    StartIoControl(m, k, t, inner);
    StartIoHistory(m, t, inner);
  }

  lemma NotifyGood(m: Machine, k: Token, t: nat, ret: FsResult) returns (l: Token)
    requires Good(m, k) && CanNotify(m, t)
    ensures Good(AfterNotify(m, t, ret), l)
  {
    NotifyInv(m, k, t, ret);
    l := if k == Flight then Held(t) else k;
    NotifyHistory(m, k, t, ret);
  }

  lemma SyncWakeGood(m: Machine, k: Token, t: nat) returns (l: Token)
    requires Good(m, k) && CanSyncWake(m, t)
    ensures Good(AfterSyncWake(m, t), l)
  {
    SyncWakeInv(m, k, t);
    l := k;
    assert k == Held(t);
    SyncWakeHistory(m, t);
  }

  lemma FinishGood(m: Machine, k: Token, t: nat, ret: FsResult) returns (l: Token)
    requires Good(m, k) && CanFinish(m, t)
    ensures Good(AfterFinish(m, t, ret), l)
  {
    FinishInv(m, k, t, ret);
    l := k;
    FinishHistory(m, k, t, ret);
  }

  lemma ReleaseGood(m: Machine, k: Token, t: nat) returns (l: Token)
    requires Good(m, k) && CanRelease(m, t)
    ensures Good(AfterRelease(m, t), l)
  {
    ReleaseInv(m, k, t);
    l := k;
    ReleaseHistory(m, k, t);
  }

  lemma NextGood(m: Machine, k: Token, t: nat) returns (l: Token)
    requires Good(m, k) && CanNext(m, t)
    ensures Good(AfterNext(m, t), l)
  {
    NextInv(m, k, t);
    l := if AfterNext(m, t).pc[t] == Idle then Free else k;
    NextHistory(m, k, t);
  }

  lemma WaitGood(m: Machine, k: Token, t: nat, f: FileId) returns (l: Token)
    requires Good(m, k) && CanWait(m, t, f)
    ensures Good(AfterWait(m, t, f), l)
  {
    WaitInv(m, k, t, f);
    l := k;
    WaitHistory(m, k, t, f);
  }

  /** A thread wakes up in FS_WaitAsync or FS_SuspendArchive and returns. */
  lemma WakeGood(m: Machine, k: Token, t: nat) returns (l: Token)
    requires Good(m, k) && (CanWaitWake(m, t) || CanSuspendWake(m, t))
    ensures Good(Goto(m, t, Idle), l)
  {
    MoveInv(m, k, t, Idle);
    l := k;
    WakeHistory(m, k, t);
  }

  lemma CancelGood(m: Machine, k: Token, t: nat, f: FileId) returns (l: Token)
    requires Good(m, k) && CanCancel(m, t, f)
    ensures Good(AfterCancel(m, t, f), l)
  {
    CancelInv(m, k, t, f);
    l := k;
    CancelHistory(m, k, t, f);
  }

  lemma SuspendGood(m: Machine, k: Token, t: nat) returns (l: Token)
    requires Good(m, k) && IsIdle(m, t)
    ensures Good(AfterSuspend(m, t), l)
  {
    SuspendInv(m, k, t);
    l := k;
    SuspendHistory(m, k, t);
  }

  lemma ResumeGood(m: Machine, k: Token, t: nat) returns (l: Token)
    requires Good(m, k) && CanResume(m, t)
    ensures Good(AfterResume(m, t), l)
  {
    ResumeInv(m, k, t);
    l := if AfterResume(m, t).pc[t] == Idle then k else Held(t);
    ResumeHistory(m, k, t);
  }

  lemma UnloadGood(m: Machine, k: Token, t: nat) returns (l: Token)
    requires Good(m, k) && CanUnload(m, t)
    ensures Good(AfterUnload(m, t), l)
  {
    UnloadInv(m, k, t);
    l := k;
    UnloadHistory(m, k, t);
  }

  lemma UnloadWakeGood(m: Machine, k: Token, t: nat) returns (l: Token)
    requires Good(m, k) && CanUnloadWake(m, t) && Unattended(m)
    ensures Good(AfterUnloadWake(m, t), l)
  {
    UnloadedInv(m, k, t, true);
    l := k;
    UnloadedHistory(m, k, t, true);
  }

  lemma LoadGood(m: Machine, k: Token, t: nat) returns (l: Token)
    requires Good(m, k) && IsIdle(m, t)
    ensures Good(m.(q := m.q.(loaded := true)), l)
  {
    var n := m.(q := m.q.(loaded := true));
    l := k;
    LoadControl(m, k, t);
    assert n.pc == m.pc[t := n.pc[t]];
    QuietClerical(m, k, n, t);
    BystanderHistory(m, k, n, t);
  }

  lemma Step(m: Machine, k: Token, a: Action) returns (l: Token)
    requires Good(m, k) && Enabled(m, a) && Orderly(m, a)
    ensures Good(Apply(m, a), l)
  {
    match a
    case DoPrepare(t, f, syncCommand, blocking) => l := PrepareGood(m, k, t, f, syncCommand, blocking);
    case DoEnqueue(t) => l := EnqueueGood(m, k, t);
    case DoActivate(t) => l := ActivateGood(m, k, t);
    case DoOperate(t) => l := OperateGood(m, k, t);
    case DoHandover(t) => l := HandoverGood(m, k, t);
    case DoTranslate(t) => l := TranslateGood(m, k, t);
    case DoStartIo(t, inner) => l := StartIoGood(m, k, t, inner);
    case DoNotify(t, ret) => l := NotifyGood(m, k, t, ret);
    case DoSyncWake(t) => l := SyncWakeGood(m, k, t);
    case DoFinish(t, ret) => l := FinishGood(m, k, t, ret);
    case DoRelease(t) => l := ReleaseGood(m, k, t);
    case DoNext(t) => l := NextGood(m, k, t);
    case DoWait(t, f) => l := WaitGood(m, k, t, f);
    case DoWaitWake(t) => l := WakeGood(m, k, t);
    case DoCancel(t, f) => l := CancelGood(m, k, t, f);
    case DoSuspend(t) => l := SuspendGood(m, k, t);
    case DoSuspendWake(t) => l := WakeGood(m, k, t);
    case DoResume(t) => l := ResumeGood(m, k, t);
    case DoUnload(t) => l := UnloadGood(m, k, t);
    case DoUnloadWake(t) => l := UnloadWakeGood(m, k, t);
    case DoLoad(t) => l := LoadGood(m, k, t);
  }

  /** Every run from a fresh archive keeps the invariant. */
  lemma {:induction false} EveryRun(m: Machine, k: Token, run: seq<Action>, n: Machine) returns (l: Token)
    requires Good(m, k) && Runs(m, run, n)
    ensures Good(n, l)
    decreases |run|
  {
    if run == [] {
      l := k;
    } else {
      var k' := Step(m, k, run[0]);
      l := EveryRun(Apply(m, run[0]), k', run[1..], n);
    }
  }
}
