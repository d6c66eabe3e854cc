/** What a caller can do to keep every run orderly, what a disorderly unload breaks, and who executes a command
    that a waiter has taken over. */
module QueueControl {
  import opened Basics
  import opened CommandQueue
  import opened QueueMachine
  import opened QueueSafety
  import opened QueueRuns
  import opened QueueTheorems

  // ---- one thread controls the archive -----------------------------------------------

  /** The calls of FS_SuspendArchive, FS_ResumeArchive and FS_UnloadArchive. */
  predicate Controls(a: Action) {
    a.DoSuspend? || a.DoSuspendWake? || a.DoResume? || a.DoUnload? || a.DoUnloadWake?
  }

  /** `m'` is reached from `m` by enabled actions of which thread `c` alone suspends, resumes and unloads. */
  predicate RunsOne(c: nat, m: Machine, run: seq<Action>, m': Machine)
    decreases |run|
  {
    if run == [] then m' == m
    else Enabled(m, run[0]) && (Controls(run[0]) ==> run[0].t == c) && RunsOne(c, Apply(m, run[0]), run[1..], m')
  }

  /** Nobody but `c` sleeps in an unload, and while it does, the archive is or is about to be suspended. */
  ghost predicate Sole(m: Machine, c: nat) {
    forall t | 0 <= t < |m.pc| && m.pc[t] == AwaitUnload :: t == c && (m.q.suspending || m.q.suspend)
  }

  /** Thread `t` has moved, not into the sleep of an unload, and a suspension has stayed or come. */
  ghost predicate Plain(m: Machine, n: Machine, t: nat) {
    && t < |m.pc| == |n.pc| && n.pc == m.pc[t := n.pc[t]] && n.pc[t] != AwaitUnload
    && (m.q.suspending || m.q.suspend ==> n.q.suspending || n.q.suspend)
  }

  /** Nothing was executed or submitted, and queued SYNC files are still in SYNC mode. */
  ghost predicate KeepsModes(m: Machine, n: Machine) {
    && n.ticket == m.ticket && n.nextTicket == m.nextTicket
    && (n.log == m.log || n.log == m.log + [Activate] || n.log == m.log + [GoIdle])
    && forall f | f in n.q.list ::
         f in m.q.list && (f in m.q.files && m.q.files[f].sync ==> f in n.q.files && n.q.files[f].sync)
  }

  ghost predicate Tame(m: Machine, n: Machine, t: nat) {
    Plain(m, n, t) && KeepsModes(m, n)
  }

  /** What both predicates say about the queue. */
  ghost predicate Gentle(q: Queue<FileId>, r: Queue<FileId>) {
    && (q.suspending || q.suspend ==> r.suspending || r.suspend)
    && forall f | f in r.list :: f in q.list && (f in q.files && q.files[f].sync ==> f in r.files && r.files[f].sync)
  }

  lemma GotoTame(m: Machine, x: Machine, t: nat, p: Pc)
    requires t < |m.pc| && x.pc == m.pc && p != AwaitUnload
    requires x.ticket == m.ticket && x.nextTicket == m.nextTicket && (x.log == m.log || x.log == m.log + [GoIdle])
    ensures Gentle(m.q, x.q) ==> Tame(m, Goto(x, t, p), t)
  {}

  lemma GentleOn(q: Queue<FileId>, p: Queue<FileId>, r: Queue<FileId>)
    requires p.list == q.list && p.files == q.files && p.suspend == q.suspend && p.suspending == q.suspending
    ensures Gentle(p, r) ==> Gentle(q, r)
  {}

  lemma ReleaseGentle(q: Queue<FileId>, f: FileId, ret: FsResult)
    requires ListOk(q)
    ensures Gentle(q, Release(q, f, ret))
  {}

  lemma ResultGentle(q: Queue<FileId>, f: FileId, ret: FsResult)
    requires f in q.files
    ensures Gentle(q, q.(isSync := false, files := q.files[f := q.files[f].(error := ret)]))
  {}

  lemma FinishGentle(q: Queue<FileId>, f: FileId, ret: FsResult)
    requires ListOk(q) && f in q.files
    ensures Gentle(q, TranslateEnd(q, f, ret))
  {
    hide Release, Gentle;
    if q.files[f].sync {
      ResultGentle(q, f, ret);
    } else {
      ReleaseGentle(q.(isAsync := false), f, ret);
      GentleOn(q, q.(isAsync := false), TranslateEnd(q, f, ret));
    }
  }

  lemma NotifyGentle(q: Queue<FileId>, ret: FsResult)
    requires ListOk(q) && q.list != []
    ensures Gentle(q, Notify(q, ret))
  {
    if q.isAsync {
      ReleaseGentle(q.(isAsync := false), q.list[0], ret);
      GentleOn(q, q.(isAsync := false), Notify(q, ret));
    } else {
      ResultGentle(q, q.list[0], ret);
    }
  }

  lemma NextGentle(q: Queue<FileId>)
    requires ListOk(q)
    ensures Gentle(q, Next(q).q)
  {
    NextThins(q);
  }

  lemma PrepareTame(m: Machine, t: nat, f: FileId, syncCommand: bool, blocking: bool)
    requires ListOk(m.q) && CanPrepare(m, t, f)
    ensures Tame(m, AfterPrepare(m, t, f, syncCommand, blocking), t)
  {}

  lemma ActivateTame(m: Machine, t: nat)
    requires ListOk(m.q) && CanActivate(m, t)
    ensures Tame(m, AfterActivate(m, t), t)
  {}

  lemma OperateTame(m: Machine, t: nat)
    requires ListOk(m.q) && CanOperate(m, t)
    ensures Tame(m, AfterOperate(m, t), t)
  {}

  lemma HandoverTame(m: Machine, t: nat)
    requires ListOk(m.q) && CanHandover(m, t)
    ensures Tame(m, AfterHandover(m, t), t)
  {}

  lemma StartIoTame(m: Machine, t: nat, inner: bool)
    requires ListOk(m.q) && CanStartIo(m, t, inner)
    ensures Tame(m, AfterStartIo(m, t, inner), t)
  {}

  lemma NotifyTame(m: Machine, t: nat, ret: FsResult)
    requires ListOk(m.q) && CanNotify(m, t)
    ensures Tame(m, AfterNotify(m, t, ret), t)
  {
    hide Notify, Gentle, Tame;
    NotifyGentle(m.q, ret);
    GotoTame(m, m.(q := Notify(m.q, ret), io := false), t, AfterNotify(m, t, ret).pc[t]);
  }

  lemma SyncWakeTame(m: Machine, t: nat)
    requires ListOk(m.q) && CanSyncWake(m, t)
    ensures Tame(m, AfterSyncWake(m, t), t)
  {}

  lemma FinishTame(m: Machine, t: nat, ret: FsResult)
    requires ListOk(m.q) && CanFinish(m, t)
    ensures Tame(m, AfterFinish(m, t, ret), t)
  {
    hide TranslateEnd, Gentle, Tame;
    FinishGentle(m.q, m.pc[t].f, ret);
    GotoTame(m, m.(q := TranslateEnd(m.q, m.pc[t].f, ret)), t, AfterFinish(m, t, ret).pc[t]);
  }

  lemma ReleaseTame(m: Machine, t: nat)
    requires ListOk(m.q) && CanRelease(m, t)
    ensures Tame(m, AfterRelease(m, t), t)
  {}

  lemma NextTame(m: Machine, t: nat)
    requires ListOk(m.q) && CanNext(m, t)
    ensures Tame(m, AfterNext(m, t), t)
  {
    NextGentle(m.q);
    PickedTame(m, t, Next(m.q));
  }

  lemma PickedTame(m: Machine, t: nat, p: Pick<FileId>)
    requires t < |m.pc|
    ensures Gentle(m.q, p.q) ==> Tame(m, Picked(m, t, p), t)
  {
    hide Gentle, Tame, Lost;
    var x := m.(q := p.q, dropped := m.dropped + Lost(m, p.q.list), log := Picked(m, t, p).log);
    GotoTame(m, x, t, Picked(m, t, p).pc[t]);
  }

  lemma WaitTame(m: Machine, t: nat, f: FileId)
    requires ListOk(m.q) && CanWait(m, t, f)
    ensures Tame(m, AfterWait(m, t, f), t)
  {
    assert Gentle(m.q, m.q) && Gentle(m.q, TakeOver(m.q, f));
    hide TakeOver, Gentle, Tame;
    GotoTame(m, m.(q := TakeOver(m.q, f)), t, AwaitOperating(f));
    GotoTame(m, m, t, AwaitIdle(f));
    GotoTame(m, m, t, Idle);
    assert m.pc[t := Idle] == m.pc;
  }

  lemma CancelTame(m: Machine, t: nat, f: FileId)
    requires ListOk(m.q) && CanCancel(m, t, f)
    ensures Tame(m, AfterCancel(m, t, f), t)
  {}

  lemma WakeTame(m: Machine, t: nat)
    requires t < |m.pc|
    ensures Tame(m, Goto(m, t, Idle), t)
  {}

  lemma LoadTame(m: Machine, t: nat)
    requires IsIdle(m, t)
    ensures Tame(m, m.(q := m.q.(loaded := true)), t)
  {}

  lemma EnqueuePlain(m: Machine, t: nat)
    requires CanEnqueue(m, t)
    ensures Plain(m, AfterEnqueue(m, t), t)
  {}

  lemma TranslatePlain(m: Machine, t: nat)
    requires CanTranslate(m, t)
    ensures Plain(m, AfterTranslate(m, t), t)
  {
    var f, own := m.pc[t].f, m.pc[t].own;
    if own || !m.q.files[f].sync {
      GotoPlain(m, AfterTranslate(m, t), t, Translating(f, own));
    } else {
      GotoPlain(m, AfterTranslate(m, t), t, Idle);
    }
  }

  lemma GotoPlain(m: Machine, n: Machine, t: nat, p: Pc)
    requires t < |m.pc| && n.pc == m.pc[t := p] && p != AwaitUnload
    requires n.q.suspending == m.q.suspending && n.q.suspend == m.q.suspend
    ensures Plain(m, n, t)
  {}

  /** All steps but those of control, submission and execution. */
  lemma TameStep(m: Machine, a: Action)
    requires ListOk(m.q) && Enabled(m, a) && !Controls(a) && !a.DoEnqueue? && !a.DoTranslate?
    ensures Tame(m, Apply(m, a), a.t)
  {
    hide Tame;
    match a
    case DoPrepare(t, f, syncCommand, blocking) => PrepareTame(m, t, f, syncCommand, blocking);
    case DoActivate(t) => ActivateTame(m, t);
    case DoOperate(t) => OperateTame(m, t);
    case DoHandover(t) => HandoverTame(m, t);
    case DoStartIo(t, inner) => StartIoTame(m, t, inner);
    case DoNotify(t, ret) => NotifyTame(m, t, ret);
    case DoSyncWake(t) => SyncWakeTame(m, t);
    case DoFinish(t, ret) => FinishTame(m, t, ret);
    case DoRelease(t) => ReleaseTame(m, t);
    case DoNext(t) => NextTame(m, t);
    case DoWait(t, f) => WaitTame(m, t, f);
    case DoCancel(t, f) => CancelTame(m, t, f);
    case DoWaitWake(t) => WakeTame(m, t);
    case DoLoad(t) => LoadTame(m, t);
  }

  lemma PlainStep(m: Machine, a: Action)
    requires ListOk(m.q) && Enabled(m, a) && !Controls(a)
    ensures Plain(m, Apply(m, a), a.t)
  {
    hide Plain, KeepsModes, ListOk;
    match a
    case DoEnqueue(t) => EnqueuePlain(m, t);
    case DoTranslate(t) => TranslatePlain(m, t);
    case _ => TameStep(m, a);
  }

  lemma ControlStep(m: Machine, c: nat, a: Action)
    requires Enabled(m, a) && Controls(a) && a.t == c && Sole(m, c)
    ensures Sole(Apply(m, a), c)
  {}

  lemma SoleStep(m: Machine, k: Token, c: nat, a: Action)
    requires Inv(m, k) && Enabled(m, a) && (Controls(a) ==> a.t == c) && Sole(m, c)
    ensures Orderly(m, a) && Sole(Apply(m, a), c)
  {
    hide Enabled, Apply;
    if Controls(a) {
      ControlStep(m, c, a);
      if a.DoUnloadWake? { WakesSuspended(m, k, c, a.t); }
    } else {
      PlainStep(m, a);
    }
  }

  lemma WakesSuspended(m: Machine, k: Token, c: nat, t: nat)
    requires Inv(m, k) && Sole(m, c)
    ensures Enabled(m, DoUnloadWake(t)) ==> Unattended(m)
  {}

  /** If one thread alone suspends, resumes and unloads the archive, every run is orderly. */
  lemma {:induction false} OneController(c: nat, m: Machine, k: Token, run: seq<Action>, n: Machine)
    requires Good(m, k) && Sole(m, c) && RunsOne(c, m, run, n)
    ensures Runs(m, run, n)
    decreases |run|
  {
    hide Enabled, Apply, Orderly, Sole, Good;
    if run != [] {
      GoodIsInv(m, k);
      SoleStep(m, k, c, run[0]);
      var l := Step(m, k, run[0]);
      OneController(c, Apply(m, run[0]), l, run[1..], n);
    }
  }

  lemma GoodIsInv(m: Machine, k: Token)
    ensures Good(m, k) ==> Inv(m, k)
  {}

  /** So what holds in every reachable state holds in every state that such a run reaches from a fresh archive. */
  lemma ControlledIsReachable(c: nat, m0: Machine, run: seq<Action>, m: Machine)
    requires Initial(m0) && RunsOne(c, m0, run, m)
    ensures Reachable(m)
  {
    InitialGood(m0);
    OneController(c, m0, Free, run, m);
  }

  // ---- what a disorderly unload breaks -----------------------------------------------

  /** An unload that wakes up while a command is in somebody's hands empties the list of an archive that goes on
      RUNNING with no thread about to look for the next command. Then either a thread goes on with a command that
      is in no list any more, against OneExecutor, or nothing can ever move the archive's commands on, against
      NeverStuck. */
  lemma AttendedWake(m: Machine, k: Token, t: nat)
    requires Inv(m, k) && CanUnloadWake(m, t) && !Unattended(m)
    ensures var n := AfterUnloadWake(m, t);
      && n.q.running && n.q.list == [] && (forall u | 0 <= u < |n.pc| :: n.pc[u] != Advancing)
      && ((exists u :: 0 <= u < |n.pc| && Executing(n.pc[u])) || forall a | Enabled(n, a) :: !Advances(a))
  {
    var n := AfterUnloadWake(m, t);
    if k.Held? {
      assert Executing(n.pc[k.t]);
    } else {
      forall a | Enabled(n, a)
        ensures !Advances(a)
      {
        NothingMoves(m, k, t, a);
      }
    }
  }

  lemma NothingMoves(m: Machine, k: Token, t: nat, a: Action)
    requires Inv(m, k) && CanUnloadWake(m, t) && !Unattended(m) && !k.Held?
    ensures Enabled(AfterUnloadWake(m, t), a) ==> !Advances(a)
  {
    var n := AfterUnloadWake(m, t);
    assert n.q.list == [] && n.pc == m.pc[t := Idle];
    forall f | f in n.q.files
      ensures !n.q.files[f].operating
    {
      if f !in m.q.list { assert !m.q.files[f].operating; }
    }
    hide AfterUnloadWake, Inv;
    Stuck(n, a);
  }

  /** No thread runs the archive, no file is OPERATING and the list is empty. */
  lemma Stuck(n: Machine, a: Action)
    requires n.q.list == [] && (forall u | 0 <= u < |n.pc| :: !Executing(n.pc[u]))
    requires forall f | f in n.q.files :: !n.q.files[f].operating
    ensures Enabled(n, a) ==> !Advances(a)
  {}

  // ---- who executes a command that was taken over ------------------------------------

  /** Ticket `x` has not been executed on the archive's behalf, and will not be. */
  ghost predicate ForOwner(m: Machine, x: nat) {
    && x < m.nextTicket && Execute(x, false) !in m.log
    && forall f | f in m.q.list && f in m.ticket && m.ticket[f] == x :: f in m.q.files && m.q.files[f].sync
  }

  lemma SuspendModes(m: Machine, t: nat)
    requires IsIdle(m, t)
    ensures KeepsModes(m, AfterSuspend(m, t))
  {}

  lemma ResumeModes(m: Machine, t: nat)
    requires CanResume(m, t)
    ensures KeepsModes(m, AfterResume(m, t))
  {
    if m.q.suspend { NextThins(m.q.(suspend := false)); }
    hide Next, Lost;
    assert AfterResume(m, t).q == Resume(m.q).q;
  }

  lemma UnloadedModes(m: Machine, t: nat, resume: bool)
    requires t < |m.pc| && ListOk(m.q)
    ensures KeepsModes(m, Unloaded(m, t, resume))
  {}

  lemma UnloadModes(m: Machine, t: nat)
    requires CanUnload(m, t)
    ensures KeepsModes(m, AfterUnload(m, t))
  {
    hide Unloaded, Unload;
    var q := Suspend(m.q).0;
    UnloadedModes(m.(q := q), t, !m.q.suspend);
    assert q.list == m.q.list && q.files == m.q.files;
    hide Suspend;
  }

  lemma ModesKept(m: Machine, a: Action)
    requires ListOk(m.q) && Enabled(m, a) && !a.DoEnqueue? && !a.DoTranslate?
    ensures KeepsModes(m, Apply(m, a))
  {
    hide KeepsModes, Plain;
    match a
    case DoSuspend(t) => SuspendModes(m, t);
    case DoSuspendWake(t) => WakeTame(m, t);
    case DoResume(t) => ResumeModes(m, t);
    case DoUnload(t) => UnloadModes(m, t);
    case DoUnloadWake(t) => UnloadedModes(m, t, true);
    case _ => TameStep(m, a);
  }

  lemma ModesForOwner(m: Machine, n: Machine, x: nat)
    requires KeepsModes(m, n) && ForOwner(m, x)
    ensures ForOwner(n, x)
  {}

  lemma EnqueueForOwner(m: Machine, k: Token, t: nat, x: nat)
    requires Inv(m, k) && CanEnqueue(m, t) && ForOwner(m, x)
    ensures ForOwner(AfterEnqueue(m, t), x)
  {
    EnqueueShape(m, t);
    EnqueueRecord(m, t);
  }

  lemma TranslateForOwner(m: Machine, k: Token, t: nat, x: nat)
    requires Inv(m, k) && CanTranslate(m, t) && ForOwner(m, x)
    ensures ForOwner(AfterTranslate(m, t), x)
  {
    TranslateShape(m, k, t);
    TranslateControl(m, k, t);
  }

  lemma OwnerStep(m: Machine, k: Token, a: Action, x: nat)
    requires Inv(m, k) && Enabled(m, a) && ForOwner(m, x)
    ensures ForOwner(Apply(m, a), x)
  {
    hide ForOwner, KeepsModes;
    if a.DoEnqueue? {
      EnqueueForOwner(m, k, a.t, x);
    } else if a.DoTranslate? {
      TranslateForOwner(m, k, a.t, x);
    } else {
      ModesKept(m, a);
      ModesForOwner(m, Apply(m, a), x);
    }
  }

  lemma {:induction false} OwnerRun(m: Machine, k: Token, run: seq<Action>, n: Machine, x: nat)
    requires Good(m, k) && Runs(m, run, n) && ForOwner(m, x)
    ensures ForOwner(n, x)
    decreases |run|
  {
    hide Enabled, Apply, Orderly, Good, ForOwner;
    if run != [] {
      GoodIsInv(m, k);
      OwnerStep(m, k, run[0], x);
      var l := Step(m, k, run[0]);
      OwnerRun(Apply(m, run[0]), l, run[1..], n, x);
    }
  }

  /** A queued command whose waiter sleeps for it has not been executed. */
  lemma AwaitedForOwner(m: Machine, k: Token, t: nat, f: FileId)
    requires Good(m, k) && t < |m.pc| && m.pc[t] == AwaitOperating(f) && f in m.q.list
    ensures f in m.ticket && ForOwner(m, m.ticket[f])
  {
    NotStarted(m, k, t, f);
    UnstartedTicket(m, k, f);
    ExecuteIsExecuted(m.log, m.ticket[f], false);
  }

  lemma NotStarted(m: Machine, k: Token, t: nat, f: FileId)
    requires Inv(m, k) && t < |m.pc| && m.pc[t] == AwaitOperating(f) && f in m.q.list
    ensures m.q.files[f].sync && !(Started(m, k) && m.q.list[0] == f)
  {
    assert ThreadOk(m.q, m.pc[t]);
    assert k.Held? && k.t != t && Client(m.pc[k.t]).Some? ==> Client(m.pc[k.t]) != Client(m.pc[t]);
  }

  /** No two queued files have the same ticket, and one that has not been started has not been executed. */
  lemma UnstartedTicket(m: Machine, k: Token, f: FileId)
    requires k.Held? ==> k.t < |m.pc|
    requires History(m, k) && f in m.q.list && !(Started(m, k) && m.q.list[0] == f)
    ensures m.ticket[f] < m.nextTicket && m.ticket[f] !in Executed(m.log)
    ensures forall g | g in m.q.list && g != f :: m.ticket[g] != m.ticket[f]
  {
    var e := Executed(m.log);
    if Started(m, k) {
      var list := m.q.list[1..];
      var i :| 0 <= i < |list| && list[i] == f;
      TicketAt(m, e, list, i);
      assert Waiting(m, k) == Tickets(list, m.ticket);
      forall g | g in m.q.list && g != f
        ensures m.ticket[g] != m.ticket[f]
      {
        if g == m.q.list[0] {
          assert e[|e| - 1] == m.ticket[g];
        } else {
          var j :| 0 <= j < |list| && list[j] == g;
          TwoTickets(m, e, list, i, j);
        }
      }
    } else {
      var list := m.q.list;
      var i :| 0 <= i < |list| && list[i] == f;
      TicketAt(m, e, list, i);
      forall g | g in m.q.list && g != f
        ensures m.ticket[g] != m.ticket[f]
      {
        var j :| 0 <= j < |list| && list[j] == g;
        TwoTickets(m, e, list, i, j);
      }
    }
  }

  lemma TicketAt(m: Machine, e: seq<nat>, list: seq<FileId>, i: nat)
    requires i < |list| && (forall f | f in list :: f in m.ticket)
    requires Ordered(e, Tickets(list, m.ticket), m.dropped, m.nextTicket)
    ensures m.ticket[list[i]] < m.nextTicket && m.ticket[list[i]] !in e
  {
    var w := Tickets(list, m.ticket);
    var s := e + w;
    assert s[|e| + i] == w[i] && w[i] in s;
    forall j | 0 <= j < |e|
      ensures e[j] != w[i]
    {
      assert s[j] < s[|e| + i];
    }
  }

  lemma TwoTickets(m: Machine, e: seq<nat>, list: seq<FileId>, i: nat, j: nat)
    requires i < |list| && j < |list| && i != j && (forall f | f in list :: f in m.ticket)
    requires Increasing(e + Tickets(list, m.ticket))
    ensures m.ticket[list[i]] != m.ticket[list[j]]
  {
    var w := Tickets(list, m.ticket);
    var s := e + w;
    assert s[|e| + i] == w[i] && s[|e| + j] == w[j];
  }

  lemma ExecuteIsExecuted(log: seq<Event>, x: nat, own: bool)
    ensures Execute(x, own) in log ==> x in Executed(log)
  {
    if log != [] { ExecuteIsExecuted(log[..|log| - 1], x, own); }
  }

  /** A command that a waiter has taken over, or has sent and sleeps for, is executed by the waiter itself in
      every run that goes on from there, if it is executed at all. */
  lemma TakenOverRunsAsOwn(m: Machine, t: nat, f: FileId, run: seq<Action>, n: Machine)
    requires Reachable(m) && t < |m.pc| && m.pc[t] == AwaitOperating(f) && f in m.q.list && Runs(m, run, n)
    ensures f in m.ticket && Execute(m.ticket[f], false) !in n.log
    ensures m.ticket[f] in Executed(n.log) ==> Execute(m.ticket[f], true) in n.log
  {
    var k := ReachableGood(m);
    AwaitedForOwner(m, k, t, f);
    OwnerRun(m, k, run, n, m.ticket[f]);
    ExecutedBy(n.log, m.ticket[f]);
  }

  lemma {:induction false} ExecutedBy(log: seq<Event>, x: nat)
    ensures x in Executed(log) ==> Execute(x, true) in log || Execute(x, false) in log
  {
    if log != [] { ExecutedBy(log[..|log| - 1], x); }
  }
}
