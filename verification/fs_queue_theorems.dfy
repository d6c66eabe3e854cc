/** The properties of the command queue that hold in every reachable state. A run starts from a
    fresh archive and interleaves the regions of any number of threads and callbacks; the only
    demand on it is `Orderly`, whose necessity UnloadWakeExact and RacingUnload show. */
module QueueTheorems {
  import opened Basics
  import opened CommandQueue
  import opened QueueMachine
  import opened QueueSafety
  import opened QueueRuns

  ghost predicate Reachable(m: Machine) {
    exists m0: Machine, run: seq<Action> :: Initial(m0) && Runs(m0, run, m)
  }

  lemma InitialGood(m: Machine)
    requires Initial(m)
    ensures Good(m, Free)
  {
    assert Waiting(m, Free) == [];
  }

  lemma ReachableGood(m: Machine) returns (k: Token)
    requires Reachable(m)
    ensures Good(m, k)
  {
    var m0: Machine, run: seq<Action> :| Initial(m0) && Runs(m0, run, m);
    InitialGood(m0);
    k := EveryRun(m0, Free, run, m);
  }

  /** At most one file of the archive is OPERATING and it is the head of the list; none is while the
      archive is suspended; outside RUNNING and SUSPEND the list is empty. */
  lemma OneOperatingHead(m: Machine)
    requires Reachable(m)
    ensures ListOk(m.q)
    ensures forall f | f in m.q.files && m.q.files[f].operating :: m.q.list != [] && m.q.list[0] == f
    ensures m.q.suspend ==> forall f | f in m.q.files :: !m.q.files[f].operating
    ensures !m.q.running && !m.q.suspend ==> m.q.list == []
    ensures !m.q.unloading && (m.q.suspending ==> m.q.running && !m.q.suspend)
  {
    var k := ReachableGood(m);
  }

  /** At most one thread runs the archive's commands, and it works on the head of the list. It runs a SYNC
      command as the waiting client itself and any other one on the archive's behalf, never the other way round. */
  lemma OneExecutor(m: Machine, t: nat, u: nat)
    requires Reachable(m) && t < |m.pc| && u < |m.pc| && Executing(m.pc[t])
    ensures Executing(m.pc[u]) ==> u == t
    ensures m.q.running
    ensures m.pc[t] != Advancing ==> m.q.list != [] && m.q.list[0] == m.pc[t].f
    ensures m.pc[t].Ready? || m.pc[t].Translating? ==>
      m.pc[t].f in m.q.files && m.pc[t].own == m.q.files[m.pc[t].f].sync
  {
    var k := ReachableGood(m);
    assert k == Held(t);
  }

  /** After FS_WaitAsync has taken a queued command over, nobody but the waiter stands ready to run it. */
  lemma OnlyTheWaiter(m: Machine, t: nat, f: FileId, u: nat, own: bool)
    requires Reachable(m) && t < |m.pc| && u < |m.pc|
    requires m.pc[t] == AwaitOperating(f)
    ensures m.pc[u] != Ready(f, own) && m.pc[u] != Translating(f, own)
  {
    var k := ReachableGood(m);
  }

  /** Commands are executed in submission order, each at most once, and every submission is either
      executed, or released unexecuted by a cancel or an unload, or still queued. */
  lemma InSubmissionOrder(m: Machine)
    requires Reachable(m)
    ensures Increasing(Executed(m.log))
    ensures forall x | x in Executed(m.log) :: x < m.nextTicket && x !in m.dropped
    ensures forall x: nat | x < m.nextTicket ::
      x in Executed(m.log) || x in m.dropped || exists f :: f in m.q.list && f in m.ticket && m.ticket[f] == x
  {
    var k := ReachableGood(m);
    var e := Executed(m.log);
    var w := Waiting(m, k);
    forall i, j | 0 <= i < j < |e|
      ensures e[i] < e[j]
    {
      assert (e + w)[i] < (e + w)[j];
    }
    forall x | x in e
      ensures x < m.nextTicket && x !in m.dropped
    {
      assert x in e + w;
    }
    forall x: nat | x < m.nextTicket && x !in e && x !in m.dropped
      ensures exists f :: f in m.q.list && f in m.ticket && m.ticket[f] == x
    {
      assert x in e + w;
      var list := if Started(m, k) && m.q.list != [] then m.q.list[1..] else m.q.list;
      var i :| 0 <= i < |w| && w[i] == x;
      assert list[i] in m.q.list && m.ticket[list[i]] == x;
    }
  }

  /** How often the archive's callback has been told ACTIVATE more than IDLE: for the ROM archive,
      how deep the card lock is nested. */
  function Depth(log: seq<Event>): int {
    if log == [] then 0
    else
      Depth(log[..|log| - 1]) + match log[|log| - 1] case Activate => 1 case Execute(_, _) => 0 case GoIdle => -1
  }

  lemma {:induction false} AlternatingDepth(log: seq<Event>, active: bool, n: nat)
    requires Alternates(log, active) && n <= |log|
    ensures Depth(log) == if active then 1 else 0
    ensures 0 <= Depth(log[..n]) <= 1
    ensures n < |log| && log[n].Execute? ==> Depth(log[..n]) == 1
    decreases |log|
  {
    if log != [] {
      var before := log[..|log| - 1];
      var was := log[|log| - 1] != Activate;
      if n == |log| {
        AlternatingDepth(before, was, n - 1);
        assert log[..n] == log;
      } else {
        AlternatingDepth(before, was, n);
        assert before[..n] == log[..n];
        if n == |log| - 1 { assert before[..n] == before; }
      }
    }
  }

  /** With both hooks set, ACTIVATE and IDLE come in pairs, ACTIVATE first, and every command is
      executed inside a pair: the card is locked exactly then. */
  lemma LockedWhileExecuting(m: Machine, n: nat)
    requires Reachable(m) && m.procActivate && m.procIdle && n <= |m.log|
    ensures 0 <= Depth(m.log[..n]) <= 1
    ensures n < |m.log| && m.log[n].Execute? ==> Depth(m.log[..n]) == 1
    ensures !m.q.running ==> Depth(m.log) == 0
  {
    var k := ReachableGood(m);
    AlternatingDepth(m.log, Active(m, k), n);
  }

  predicate Advances(a: Action) {
    a.DoActivate? || a.DoOperate? || a.DoHandover? || a.DoTranslate? || a.DoNotify?
    || a.DoSyncWake? || a.DoFinish? || a.DoRelease? || a.DoNext?
  }

  /** While the archive is RUNNING, the condition of some step that moves its commands on holds (a completion
      needs a context that is not inside another region). */
  lemma NeverStuck(m: Machine, idle: nat)
    requires Reachable(m) && m.q.running && IsIdle(m, idle)
    ensures exists a :: Enabled(m, a) && Advances(a)
  {
    var k := ReachableGood(m);
    var a := match k
      case Handed(t) => DoHandover(t)
      case Held(t) =>
        (match m.pc[t]
         case Starting(_, activated) => if activated then DoOperate(t) else DoActivate(t)
         case Chosen(_, activated) => if activated then DoOperate(t) else DoActivate(t)
         case Ready(_, _) => DoTranslate(t)
         case Translating(_, _) => DoFinish(t, Success)
         case AwaitSync(_, _) => if m.q.isSync then DoNotify(idle, Success) else DoSyncWake(t)
         case Releasing(_, _) => DoRelease(t)
         case _ => DoNext(t))
      case _ => DoNotify(idle, Success);
    assert Enabled(m, a) && Advances(a);
  }

  // ---- the run that Orderly excludes -------------------------------------------------

  /** `n` comes after `m` in one enabled step, orderly or not, by the action `a`. */
  ghost predicate Hop(m: Machine, a: Action, n: Machine) {
    Enabled(m, a) && Apply(m, a) == n
  }

  /** `run` leads from `m` to `n`, each action by one step of `hop`. */
  ghost predicate Leads<S(!new), A>(hop: (S, A, S) -> bool, m: S, run: seq<A>, n: S)
    decreases |run|
  {
    if run == [] then m == n else exists p :: hop(m, run[0], p) && Leads(hop, p, run[1..], n)
  }

  lemma {:induction false} LeadsOn<S(!new), A>(hop: (S, A, S) -> bool, m: S, run: seq<A>, n: S, more: seq<A>, p: S)
    ensures Leads(hop, m, run, n) && Leads(hop, n, more, p) ==> Leads(hop, m, run + more, p)
    decreases |run|
  {
    if Leads(hop, m, run, n) && Leads(hop, n, more, p) {
      if run == [] {
        assert run + more == more;
      } else {
        var q :| hop(m, run[0], q) && Leads(hop, q, run[1..], n);
        LeadsOn(hop, q, run[1..], n, more, p);
        assert (run + more)[1..] == run[1..] + more;
      }
    }
  }

  lemma OneHop<S(!new), A>(hop: (S, A, S) -> bool, m: S, a: A, n: S)
    requires hop(m, a, n)
    ensures Leads(hop, m, [a], n)
  {
    assert [a][1..] == [];
    assert Leads(hop, n, [], n);
  }

  lemma TwoHops<S(!new), A>(hop: (S, A, S) -> bool, m: S, a: A, n: S, b: A, p: S)
    ensures hop(m, a, n) && hop(n, b, p) ==> Leads(hop, m, [a, b], p)
  {
    if hop(m, a, n) && hop(n, b, p) {
      assert [a, b][1..] == [b] && [b][1..] == [];
      assert Leads(hop, p, [], p);
      assert Leads(hop, n, [b], p);
    }
  }

  /** One file, three threads: 0 reads, 1 suspends and resumes, 2 unloads. */
  function Fresh(): Machine {
    Machine(Queue([], map[0 := Released(Success)], false, false, false, false, false, true, false, false),
            [Idle, Idle, Idle], false, false, false, map[], 0, {}, [])
  }

  const QUEUEING := Stat(true, false, false, false, false, Busy)

  /** Both requests sleep in FS_SuspendArchive while thread 0 runs its first command. */
  function BothAsleep(): Machine {
    Machine(Queue([0], map[0 := QUEUEING], true, false, true, false, false, true, false, false),
            [Starting(0, false), AwaitSuspend, AwaitUnload], false, false, false, map[0 := 0], 1, {}, [])
  }

  /** The command is done; FSi_NextCommand comes next. */
  function Done(): Machine {
    Machine(Queue([], map[0 := Released(Success)], true, false, true, false, false, true, false, false),
            [Advancing, AwaitSuspend, AwaitUnload], false, false, false, map[0 := 0], 1, {}, [Execute(0, false)])
  }

  /** Thread 1 has suspended and resumed the archive; thread 2 has not woken up yet. */
  function OneResumed(): Machine {
    Machine(Queue([], map[0 := Released(Success)], false, false, false, false, false, true, false, false),
            [Idle, Idle, AwaitUnload], false, false, false, map[0 := 0], 1, {}, [Execute(0, false)])
  }

  /** Thread 0 has sent its second command. */
  function Restarted(): Machine {
    Machine(Queue([0], map[0 := QUEUEING], true, false, false, false, false, true, false, false),
            [Starting(0, false), Idle, AwaitUnload], false, false, false, map[0 := 1], 2, {}, [Execute(0, false)])
  }

  /** Thread 0 translates it when thread 2 at last unloads the archive. */
  function Torn(): Machine {
    Machine(Queue([], map[0 := Released(Canceled)], true, false, false, false, false, false, true, false),
            [Translating(0, false), Idle, Idle], false, false, false, map[0 := 1], 2, {1},
            [Execute(0, false), Execute(1, false)])
  }

  lemma Prepared(m: Machine) returns (n: Machine)
    requires m == Fresh() || m == OneResumed()
    ensures Hop(m, DoPrepare(0, 0, false, false), n)
    ensures n == m.(q := m.q.(files := map[0 := QUEUEING]), pc := m.pc[0 := Sending(0, false)])
  {
    assert Unserved(m.pc, 0);
    n := AfterPrepare(m, 0, 0, false, false);
    assert n.q.files == map[0 := QUEUEING];
  }

  lemma Enqueued(m: Machine, n: Machine)
    requires m.pc != [] && m.pc[0] == Sending(0, false) && m.q.files == map[0 := QUEUEING] && m.q.list == []
    requires !m.q.unloading && !m.q.suspend && !m.q.running
    requires n == m.(q := m.q.(list := [0], running := true), pc := m.pc[0 := Starting(0, false)],
                     ticket := m.ticket[0 := m.nextTicket], nextTicket := m.nextTicket + 1)
    ensures Hop(m, DoEnqueue(0), n)
  {
    EnqueueOf(m.q, 0, false);
    AfterEnqueueOf(m, 0);
    EnqueueRecord(m, 0);
    var r := AfterEnqueue(m, 0);
    assert m.q.files[0 := QUEUEING] == m.q.files;
    assert r.q == n.q && r.pc == n.pc && r.ticket == n.ticket;
  }

  /** Thread 0 sends an asynchronous command. */
  lemma Send(m: Machine) returns (n: Machine)
    requires m == Fresh() || m == OneResumed()
    ensures Leads(Hop, m, [DoPrepare(0, 0, false, false), DoEnqueue(0)], n)
    ensures n == m.(q := m.q.(files := map[0 := QUEUEING], list := [0], running := true),
                    pc := m.pc[0 := Starting(0, false)],
                    ticket := m.ticket[0 := m.nextTicket], nextTicket := m.nextTicket + 1)
  {
    var m1 := Prepared(m);
    n := m1.(q := m1.q.(list := [0], running := true), pc := m1.pc[0 := Starting(0, false)],
             ticket := m1.ticket[0 := m1.nextTicket], nextTicket := m1.nextTicket + 1);
    Enqueued(m1, n);
    hide *;
    TwoHops(Hop, m, DoPrepare(0, 0, false, false), m1, DoEnqueue(0), n);
  }

  lemma SuspendRunning(m: Machine) returns (n: Machine)
    requires m == BothAsleep().(q := BothAsleep().q.(suspending := false), pc := [Starting(0, false), Idle, Idle])
    ensures n == BothAsleep().(pc := [Starting(0, false), AwaitSuspend, Idle]) && Hop(m, DoSuspend(1), n)
  {
    n := AfterSuspend(m, 1);
  }

  lemma UnloadRunning(m: Machine)
    requires m == BothAsleep().(pc := [Starting(0, false), AwaitSuspend, Idle])
    ensures Hop(m, DoUnload(2), BothAsleep())
  {
    assert AfterUnload(m, 2) == BothAsleep();
  }

  lemma FallAsleep(m: Machine)
    requires m == BothAsleep().(q := BothAsleep().q.(suspending := false), pc := [Starting(0, false), Idle, Idle])
    ensures Leads(Hop, m, [DoSuspend(1), DoUnload(2)], BothAsleep())
  {
    var m1 := SuspendRunning(m);
    UnloadRunning(m1);
    hide *;
    TwoHops(Hop, m, DoSuspend(1), m1, DoUnload(2), BothAsleep());
  }

  lemma Activated(m: Machine)
    requires m == BothAsleep() || m == Restarted()
    ensures Hop(m, DoActivate(0), m.(pc := m.pc[0 := Starting(0, true)]))
  {}

  lemma Operated(m: Machine)
    requires m.pc != [] && m.pc[0] == Starting(0, true) && m.q.files == map[0 := QUEUEING]
    ensures Hop(m, DoOperate(0), m.(q := m.q.(files := map[0 := QUEUEING.(operating := true)]),
                                    pc := m.pc[0 := Ready(0, false)]))
  {
    assert AfterOperate(m, 0).q.files == map[0 := QUEUEING.(operating := true)];
  }

  lemma Start(m: Machine) returns (n: Machine)
    requires m == BothAsleep() || m == Restarted()
    ensures Leads(Hop, m, [DoActivate(0), DoOperate(0)], n)
    ensures n == m.(q := m.q.(files := map[0 := QUEUEING.(operating := true)]), pc := m.pc[0 := Ready(0, false)])
  {
    var m1 := m.(pc := m.pc[0 := Starting(0, true)]);
    n := m.(q := m.q.(files := map[0 := QUEUEING.(operating := true)]), pc := m.pc[0 := Ready(0, false)]);
    Activated(m);
    Operated(m1);
    assert m1.pc[0 := Ready(0, false)] == n.pc;
    hide *;
    TwoHops(Hop, m, DoActivate(0), m1, DoOperate(0), n);
  }

  lemma Translated(m: Machine) returns (n: Machine)
    requires m == BothAsleep().(q := BothAsleep().q.(files := map[0 := QUEUEING.(operating := true)]),
                                pc := [Ready(0, false), AwaitSuspend, AwaitUnload])
    ensures Hop(m, DoTranslate(0), n)
    ensures n == m.(q := m.q.(files := map[0 := QUEUEING.(operating := true, isAsync := true)], isAsync := true),
                    pc := [Translating(0, false), AwaitSuspend, AwaitUnload], log := [Execute(0, false)])
  {
    n := AfterTranslate(m, 0);
    assert n.q.files == map[0 := QUEUEING.(operating := true, isAsync := true)];
    assert n.log == [Execute(0, false)];
  }

  lemma Completed(m: Machine)
    requires m == Done().(q := BothAsleep().q.(files := map[0 := QUEUEING.(operating := true, isAsync := true)],
                        isAsync := true),
                          pc := [Translating(0, false), AwaitSuspend, AwaitUnload])
    ensures Hop(m, DoFinish(0, Success), Done())
  {
    TranslateEndIs(m.q, 0, Success);
    hide TranslateEnd;
    var n, d := AfterFinish(m, 0, Success), Done();
    assert n.q.files == d.q.files && n.q.list == d.q.list && n.pc == d.pc;
    assert n.q == d.q;
  }

  lemma Complete(m: Machine)
    requires m == BothAsleep().(q := BothAsleep().q.(files := map[0 := QUEUEING.(operating := true)]),
                                pc := [Ready(0, false), AwaitSuspend, AwaitUnload])
    ensures Leads(Hop, m, [DoTranslate(0), DoFinish(0, Success)], Done())
  {
    var m1 := Translated(m);
    Completed(m1);
    hide *;
    TwoHops(Hop, m, DoTranslate(0), m1, DoFinish(0, Success), Done());
  }

  /** Both suspending threads may go on. */
  function Suspended(): Machine {
    Done().(q := Done().q.(running := false, suspending := false, suspend := true),
           pc := [Idle, AwaitSuspend, AwaitUnload])
  }

  lemma SuspendBoth()
    ensures Leads(Hop, Done(), [DoNext(0)], Suspended())
  {
    assert AfterNext(Done(), 0) == Suspended();
    OneHop(Hop, Done(), DoNext(0), Suspended());
  }

  lemma ResumeOne()
    ensures Leads(Hop, Suspended(), [DoSuspendWake(1), DoResume(1)], OneResumed())
  {
    var m1 := Goto(Suspended(), 1, Idle);
    assert AfterResume(m1, 1) == OneResumed();
    TwoHops(Hop, Suspended(), DoSuspendWake(1), m1, DoResume(1), OneResumed());
  }

  /** Thread 0 translates its second command. */
  function Overtaken(): Machine {
    Restarted().(q := Restarted().q.(files := map[0 := QUEUEING.(operating := true, isAsync := true)], isAsync := true),
                 pc := [Translating(0, false), Idle, AwaitUnload], log := [Execute(0, false), Execute(1, false)])
  }

  lemma TranslateAgain(m: Machine)
    requires m == Restarted().(q := Restarted().q.(files := map[0 := QUEUEING.(operating := true)]),
                               pc := [Ready(0, false), Idle, AwaitUnload])
    ensures Hop(m, DoTranslate(0), Overtaken())
  {
    var n, o := AfterTranslate(m, 0), Overtaken();
    assert n.q.files == o.q.files && n.pc == o.pc && n.log == o.log;
    assert n.q == o.q;
  }

  lemma TornQueue()
    ensures ListOk(Overtaken().q) && Unload(Overtaken().q, true) == Torn().q
  {
    var q, o := Unload(Overtaken().q, true), Torn().q;
    assert 0 in Overtaken().q.list;
    assert q.files == o.files;
  }

  lemma TornRecord()
    ensures Lost(Overtaken(), []) == {1}
  {
    var m := Overtaken();
    assert m.q.list == [0] && 0 in m.q.list && 0 in m.ticket && m.ticket[0] == 1;
  }

  lemma Tear()
    ensures Hop(Overtaken(), DoUnloadWake(2), Torn())
  {
    TornQueue();
    TornRecord();
    hide Unload, Lost;
    var n, o := AfterUnloadWake(Overtaken(), 2), Torn();
    assert n.q == o.q && n.pc == o.pc && n.log == o.log && n.dropped == o.dropped && n.ticket == o.ticket;
    assert n == o;
  }

  lemma UnloadTooLate(m: Machine)
    requires m == Restarted().(q := Restarted().q.(files := map[0 := QUEUEING.(operating := true)]),
                               pc := [Ready(0, false), Idle, AwaitUnload])
    ensures Leads(Hop, m, [DoTranslate(0), DoUnloadWake(2)], Torn())
  {
    TranslateAgain(m);
    Tear();
    hide *;
    TwoHops(Hop, m, DoTranslate(0), Overtaken(), DoUnloadWake(2), Torn());
  }

  lemma FirstCommand() returns (run: seq<Action>)
    ensures Leads(Hop, Fresh(), run, BothAsleep())
  {
    var m1 := Send(Fresh());
    FallAsleep(m1);
    hide *;
    run := [DoPrepare(0, 0, false, false), DoEnqueue(0)];
    LeadsOn(Hop, Fresh(), run, m1, [DoSuspend(1), DoUnload(2)], BothAsleep());
    run := run + [DoSuspend(1), DoUnload(2)];
  }

  lemma ItsEnd() returns (run: seq<Action>)
    ensures Leads(Hop, BothAsleep(), run, Suspended())
  {
    var m := Start(BothAsleep());
    Complete(m);
    SuspendBoth();
    hide *;
    run := [DoActivate(0), DoOperate(0)];
    LeadsOn(Hop, BothAsleep(), run, m, [DoTranslate(0), DoFinish(0, Success)], Done());
    run := run + [DoTranslate(0), DoFinish(0, Success)];
    LeadsOn(Hop, BothAsleep(), run, Done(), [DoNext(0)], Suspended());
    run := run + [DoNext(0)];
  }

  lemma SecondCommand() returns (run: seq<Action>)
    ensures Leads(Hop, OneResumed(), run, Torn())
  {
    var m1 := Send(OneResumed());
    assert m1 == Restarted();
    var m2 := Start(Restarted());
    UnloadTooLate(m2);
    hide *;
    run := [DoPrepare(0, 0, false, false), DoEnqueue(0)];
    LeadsOn(Hop, OneResumed(), run, m1, [DoActivate(0), DoOperate(0)], m2);
    run := run + [DoActivate(0), DoOperate(0)];
    LeadsOn(Hop, OneResumed(), run, m2, [DoTranslate(0), DoUnloadWake(2)], Torn());
    run := run + [DoTranslate(0), DoUnloadWake(2)];
  }

  lemma TornIs()
    ensures Initial(Fresh()) && Torn().pc[0] == Translating(0, false) && !Torn().q.files[0].busy && Torn().q.list == []
  {}

  /** Two threads suspend the archive; the first resumes it before the second, an unload, has woken
      up. The unload then releases the command that thread 0 is translating: it is no longer busy and
      in no list, yet its executor goes on and will release it again. */
  lemma RacingUnload() returns (run: seq<Action>)
    ensures Initial(Fresh()) && Leads(Hop, Fresh(), run, Torn())
    ensures Torn().pc[0] == Translating(0, false) && !Torn().q.files[0].busy && Torn().q.list == []
  {
    TornIs();
    hide *;
    var first := FirstCommand();
    var end := ItsEnd();
    ResumeOne();
    var second := SecondCommand();
    LeadsOn(Hop, Fresh(), first, BothAsleep(), end, Suspended());
    LeadsOn(Hop, Fresh(), first + end, Suspended(), [DoSuspendWake(1), DoResume(1)], OneResumed());
    run := first + end + [DoSuspendWake(1), DoResume(1)];
    LeadsOn(Hop, Fresh(), run, OneResumed(), second, Torn());
    run := run + second;
  }
}
