/** OS_SleepThread and OS_WakeupThread: which threads sleep, which ones every region wakes, and that no wake-up is
    lost. QueueMachine lets a waiting thread go on as soon as its condition holds; here it must have been woken. */
module QueueSleep {
  import opened Basics
  import opened CommandQueue
  import opened QueueMachine
  import opened QueueSafety
  import opened QueueRuns
  import opened QueueTheorems
  import opened QueueControl

  // ---- who sleeps for what, and who is woken -----------------------------------------

  /** The condition of the loop around OS_SleepThread at which a thread at `pc` stands: it sleeps on. */
  predicate Waits(q: Queue<FileId>, pc: Pc) {
    match pc
    case AwaitOperating(f) => f in q.files && !q.files[f].operating
    case AwaitIdle(f) => f in q.files && q.files[f].busy
    case AwaitSync(_, _) => q.isSync
    case AwaitSuspend => q.suspending
    case AwaitUnload => q.suspending
    case _ => false
  }

  /** The thread queue of a file, and those of several files. */
  predicate OnFile(pc: Pc, f: FileId) {
    pc == AwaitOperating(f) || pc == AwaitIdle(f)
  }

  predicate OnFiles(pc: Pc, fs: seq<FileId>) {
    (pc.AwaitOperating? || pc.AwaitIdle?) && pc.f in fs
  }

  /** The thread queues `sync_q` and `stat_q` of the archive. */
  predicate OnSync(pc: Pc) {
    pc.AwaitSync?
  }

  predicate OnStat(pc: Pc) {
    pc == AwaitSuspend || pc == AwaitUnload
  }

  /** FSi_NextCommand, first region: FSi_ReleaseCommand wakes for every file that it sweeps, and the end wakes those
      who wait for the suspension that it completes. */
  predicate NextWakes(q: Queue<FileId>, pc: Pc)
    requires ListOk(q)
  {
    || (OnFiles(pc, q.list) && q.canceling && q.files[pc.f].cancel)
    || (OnStat(pc) && q.suspending && Next(q).chosen.None?)
  }

  predicate ResumeWakes(q: Queue<FileId>, pc: Pc)
    requires ListOk(q)
  {
    q.suspend && NextWakes(q.(suspend := false), pc)
  }

  /** FS_UnloadArchive behind its suspension: every queued file is released. */
  predicate UnloadWakes(q: Queue<FileId>, resume: bool, pc: Pc) {
    OnFiles(pc, q.list) || (resume && q.suspend && q.suspending && OnStat(pc))
  }

  /** Region `a` calls OS_WakeupThread for the queue on which a thread at `pc` sleeps. */
  predicate Wakes(m: Machine, a: Action, pc: Pc)
    requires Enabled(m, a)
  {
    match a
    case DoEnqueue(t) => m.q.unloading && OnFile(pc, m.pc[t].f)
    case DoOperate(t) => m.pc[t].Chosen? && m.q.files[m.pc[t].f].sync && OnFile(pc, m.pc[t].f)
    case DoTranslate(t) => !m.pc[t].own && m.q.files[m.pc[t].f].sync && OnFile(pc, m.pc[t].f)
    case DoNotify(_, _) => if m.q.isAsync then OnFile(pc, m.q.list[0]) else OnSync(pc)
    case DoFinish(t, _) => !m.q.files[m.pc[t].f].sync && OnFile(pc, m.pc[t].f)
    case DoRelease(t) => OnFile(pc, m.pc[t].f)
    case DoNext(_) => NextWakes(m.q, pc)
    case DoResume(_) => ResumeWakes(m.q, pc)
    case DoUnload(_) => !Suspend(m.q).1 && UnloadWakes(Suspend(m.q).0, !m.q.suspend, pc)
    case DoUnloadWake(_) => UnloadWakes(m.q, true, pc)
    case _ => false
  }

  /** Region `a` ends in the sleep of its thread: FSi_SendCommand, FS_WaitAsync and FS_SuspendArchive sleep at least
      once before they look at their condition. FSi_TranslateCommand looks first, in a region of its own. */
  predicate FallsAsleep(m: Machine, a: Action)
    requires Enabled(m, a)
  {
    var n := Apply(m, a);
    match a
    case DoEnqueue(t) => t < |n.pc| && n.pc[t].AwaitOperating?
    case DoWait(t, _) => t < |n.pc| && (n.pc[t].AwaitOperating? || n.pc[t].AwaitIdle?)
    case DoSuspend(t) => t < |n.pc| && n.pc[t] == AwaitSuspend
    case DoUnload(t) => t < |n.pc| && n.pc[t] == AwaitUnload
    case _ => false
  }

  /** The threads asleep behind region `a`. */
  function Asleep(m: Machine, a: Action, asleep: set<nat>): set<nat>
    requires Enabled(m, a)
  {
    (set u | u in asleep && !(u < |m.pc| && Wakes(m, a, m.pc[u]))) + if FallsAsleep(m, a) then {a.t} else {}
  }

  /** The machine with the set of its sleeping threads. */
  datatype Sleepy = Sleepy(m: Machine, asleep: set<nat>)

  /** A region of a thread that is awake, or the end of a loop round of one that was woken and has to sleep on. */
  datatype Move = Region(a: Action) | Doze(t: nat)

  predicate CanMove(s: Sleepy, v: Move) {
    match v
    case Region(a) => Enabled(s.m, a) && a.t !in s.asleep
    case Doze(t) => t < |s.m.pc| && t !in s.asleep && Waits(s.m.q, s.m.pc[t])
  }

  function AfterMove(s: Sleepy, v: Move): Sleepy
    requires CanMove(s, v)
  {
    match v
    case Region(a) => Sleepy(Apply(s.m, a), Asleep(s.m, a, s.asleep))
    case Doze(t) => s.(asleep := s.asleep + {t})
  }

  /** `s'` is reached from `s` by the moves `run`, every region of them orderly. */
  predicate SleepyRuns(s: Sleepy, run: seq<Move>, s': Sleepy)
    decreases |run|
  {
    if run == [] then s' == s
    else
      && CanMove(s, run[0]) && (run[0].Region? ==> Orderly(s.m, run[0].a))
      && SleepyRuns(AfterMove(s, run[0]), run[1..], s')
  }

  /** Every sleeper still has to wait. */
  ghost predicate SleepOk(m: Machine, asleep: set<nat>) {
    forall t | t in asleep :: t < |m.pc| && Waits(m.q, m.pc[t])
  }

  // ---- one thread at a time ----------------------------------------------------------

  lemma OperateWaits(q: Queue<FileId>, f: FileId, pc: Pc)
    requires f in q.files && Waits(q, pc) && pc != AwaitOperating(f)
    ensures Waits(Operate(q, f), pc)
  {}

  lemma ReleaseWaits(q: Queue<FileId>, f: FileId, ret: FsResult, pc: Pc)
    requires f in q.files && Waits(q, pc) && !OnFile(pc, f)
    ensures Waits(Release(q, f, ret), pc)
  {}

  lemma NextWaits(q: Queue<FileId>, pc: Pc)
    requires ListOk(q) && Waits(q, pc) && !NextWakes(q, pc)
    ensures Waits(Next(q).q, pc)
  {
    SweepThins(q);
  }

  lemma ResumeWaits(q: Queue<FileId>, pc: Pc)
    requires ListOk(q) && Waits(q, pc) && !ResumeWakes(q, pc)
    ensures Waits(Resume(q).q, pc)
  {
    if q.suspend { NextWaits(q.(suspend := false), pc); }
  }

  lemma UnloadWaits(q: Queue<FileId>, resume: bool, pc: Pc)
    requires ListOk(q) && Waits(q, pc) && !UnloadWakes(q, resume, pc)
    ensures Waits(Unload(q, resume), pc)
  {}

  /** A file that a thread sleeps for until it is OPERATING is not set OPERATING by a step that wakes nobody. */
  lemma OperateSpares(m: Machine, k: Token, t: nat, u: nat)
    requires Inv(m, k) && CanOperate(m, t) && u < |m.pc| && u != t
    requires !(m.pc[t].Chosen? && m.q.files[m.pc[t].f].sync)
    ensures m.pc[u] != AwaitOperating(m.pc[t].f)
  {
    assert ThreadOk(m.q, m.pc[u]);
    assert k == Held(t);
    if m.pc[t].Starting? { assert Client(m.pc[t]) == Some(m.pc[t].f); }
  }

  lemma OperateAwake(m: Machine, k: Token, t: nat, u: nat)
    requires Inv(m, k) && CanOperate(m, t) && u < |m.pc| && u != t && Waits(m.q, m.pc[u])
    requires !Wakes(m, DoOperate(t), m.pc[u])
    ensures Waits(AfterOperate(m, t).q, m.pc[u])
  {
    if m.pc[u] == AwaitOperating(m.pc[t].f) { OperateSpares(m, k, t, u); }
    OperateWaits(m.q, m.pc[t].f, m.pc[u]);
  }

  lemma TranslateAwake(m: Machine, k: Token, t: nat, u: nat)
    requires Inv(m, k) && CanTranslate(m, t) && u < |m.pc| && u != t && Waits(m.q, m.pc[u])
    requires !Wakes(m, DoTranslate(t), m.pc[u])
    ensures Waits(AfterTranslate(m, t).q, m.pc[u])
  {
    TranslateControl(m, k, t);
    assert m.q.files[m.pc[t].f].operating;
  }

  lemma EnqueueAwake(m: Machine, k: Token, t: nat, pc: Pc)
    requires Inv(m, k) && CanEnqueue(m, t) && Waits(m.q, pc)
    ensures Waits(AfterEnqueue(m, t).q, pc)
  {
    EnqueueJoined(m, t);
  }

  lemma FinishAwake(m: Machine, t: nat, ret: FsResult, pc: Pc)
    requires CanFinish(m, t) && Waits(m.q, pc) && !Wakes(m, DoFinish(t, ret), pc)
    requires m.q.files[m.pc[t].f].sync ==> !OnSync(pc)
    ensures Waits(AfterFinish(m, t, ret).q, pc)
  {
    TranslateEndIs(m.q, m.pc[t].f, ret);
    hide TranslateEnd;
  }

  lemma NotifyAwake(m: Machine, t: nat, ret: FsResult, pc: Pc)
    requires CanNotify(m, t) && Waits(m.q, pc) && !Wakes(m, DoNotify(t, ret), pc)
    ensures Waits(AfterNotify(m, t, ret).q, pc)
  {}

  lemma PrepareAwake(m: Machine, t: nat, f: FileId, syncCommand: bool, blocking: bool, pc: Pc)
    requires CanPrepare(m, t, f) && Waits(m.q, pc)
    ensures Waits(AfterPrepare(m, t, f, syncCommand, blocking).q, pc)
  {}

  lemma WaitAwake(m: Machine, t: nat, f: FileId, pc: Pc)
    requires CanWait(m, t, f) && Waits(m.q, pc)
    ensures Waits(AfterWait(m, t, f).q, pc)
  {}

  lemma CancelAwake(m: Machine, t: nat, f: FileId, pc: Pc)
    requires CanCancel(m, t, f) && Waits(m.q, pc)
    ensures Waits(AfterCancel(m, t, f).q, pc)
  {}

  lemma StartIoAwake(m: Machine, t: nat, inner: bool, pc: Pc)
    requires CanStartIo(m, t, inner) && Waits(m.q, pc)
    ensures Waits(AfterStartIo(m, t, inner).q, pc)
  {}

  lemma SuspendAwake(m: Machine, t: nat, pc: Pc)
    requires IsIdle(m, t) && Waits(m.q, pc)
    ensures Waits(AfterSuspend(m, t).q, pc)
  {}

  lemma UnloadAwake(m: Machine, t: nat, pc: Pc)
    requires CanUnload(m, t) && Waits(m.q, pc) && !Wakes(m, DoUnload(t), pc)
    ensures Waits(AfterUnload(m, t).q, pc)
  {
    var (q, sleep) := Suspend(m.q);
    assert Waits(q, pc);
    if !sleep { UnloadWaits(q, !m.q.suspend, pc); }
  }

  /** The only thread that waits for the end of an access is the one that the access belongs to. */
  lemma FinishSpares(m: Machine, k: Token, t: nat, u: nat)
    requires Inv(m, k) && CanFinish(m, t) && u < |m.pc| && u != t
    ensures !OnSync(m.pc[u])
  {
    assert k == Held(t);
  }

  /** A sleeper whom the region does not wake still has to wait behind it. */
  lemma StepWaits(m: Machine, k: Token, a: Action, u: nat)
    requires Inv(m, k) && Enabled(m, a) && u < |m.pc| && u != a.t && Waits(m.q, m.pc[u]) && !Wakes(m, a, m.pc[u])
    ensures Waits(Apply(m, a).q, m.pc[u])
  {
    match a
    case DoPrepare(t, f, syncCommand, blocking) => PrepareAwake(m, t, f, syncCommand, blocking, m.pc[u]);
    case DoEnqueue(t) => EnqueueAwake(m, k, t, m.pc[u]);
    case DoActivate(_) =>
    case DoOperate(t) => OperateAwake(m, k, t, u);
    case DoHandover(_) =>
    case DoTranslate(t) => TranslateAwake(m, k, t, u);
    case DoStartIo(t, inner) => StartIoAwake(m, t, inner, m.pc[u]);
    case DoNotify(t, ret) => NotifyAwake(m, t, ret, m.pc[u]);
    case DoSyncWake(_) =>
    case DoFinish(t, ret) =>
      FinishSpares(m, k, t, u);
      FinishAwake(m, t, ret, m.pc[u]);
    case DoRelease(t) => ReleaseWaits(m.q, m.pc[t].f, m.pc[t].ret, m.pc[u]);
    case DoNext(_) => NextWaits(m.q, m.pc[u]);
    case DoWait(t, f) => WaitAwake(m, t, f, m.pc[u]);
    case DoWaitWake(_) =>
    case DoCancel(t, f) => CancelAwake(m, t, f, m.pc[u]);
    case DoSuspend(t) => SuspendAwake(m, t, m.pc[u]);
    case DoSuspendWake(_) =>
    case DoResume(_) => ResumeWaits(m.q, m.pc[u]);
    case DoUnload(t) => UnloadAwake(m, t, m.pc[u]);
    case DoUnloadWake(_) => UnloadWaits(m.q, true, m.pc[u]);
    case DoLoad(_) =>
  }

  /** A region moves its own thread alone. */
  lemma OwnMove(m: Machine, a: Action)
    requires ListOk(m.q) && Enabled(m, a)
    ensures var n := Apply(m, a); a.t < |m.pc| == |n.pc| && n.pc == m.pc[a.t := n.pc[a.t]]
  {
    if !Controls(a) { PlainStep(m, a); }
  }

  lemma EnqueueSleeps(m: Machine, k: Token, t: nat)
    requires Inv(m, k) && CanEnqueue(m, t)
    ensures var n := AfterEnqueue(m, t); t < |n.pc| && (n.pc[t].AwaitOperating? ==> Waits(n.q, n.pc[t]))
  {
    assert ThreadOk(m.q, m.pc[t]);
    EnqueueJoined(m, t);
  }

  lemma WaitSleeps(m: Machine, t: nat, f: FileId)
    requires CanWait(m, t, f)
    ensures var n := AfterWait(m, t, f); t < |n.pc| && (n.pc[t] == Idle || Waits(n.q, n.pc[t]))
  {}

  lemma SuspendSleeps(m: Machine, t: nat)
    requires IsIdle(m, t)
    ensures var n := AfterSuspend(m, t); t < |n.pc| && (n.pc[t] == Idle || Waits(n.q, n.pc[t]))
  {}

  lemma UnloadSleeps(m: Machine, t: nat)
    requires CanUnload(m, t)
    ensures var n := AfterUnload(m, t); t < |n.pc| && (n.pc[t] == Idle || Waits(n.q, n.pc[t]))
  {
    hide Unload;
  }

  /** A thread that falls asleep has to wait. */
  lemma SleeperWaits(m: Machine, k: Token, a: Action)
    requires Inv(m, k) && Enabled(m, a) && FallsAsleep(m, a)
    ensures var n := Apply(m, a); a.t < |n.pc| && Waits(n.q, n.pc[a.t])
  {
    hide Waits;
    match a
    case DoEnqueue(t) => EnqueueSleeps(m, k, t);
    case DoWait(t, f) => WaitSleeps(m, t, f);
    case DoSuspend(t) => SuspendSleeps(m, t);
    case DoUnload(t) => UnloadSleeps(m, t);
  }

  /** Thread `u` behind region `a`. */
  lemma SleeperBehind(m: Machine, k: Token, a: Action, asleep: set<nat>, u: nat)
    requires Inv(m, k) && Enabled(m, a) && a.t !in asleep
    requires SleepOk(m, asleep) && u in Asleep(m, a, asleep)
    ensures var n := Apply(m, a); u < |n.pc| && Waits(n.q, n.pc[u])
  {
    hide Wakes, FallsAsleep, Waits;
    OwnMove(m, a);
    if u in asleep && !Wakes(m, a, m.pc[u]) {
      StepWaits(m, k, a, u);
    } else {
      SleeperWaits(m, k, a);
    }
  }

  lemma SleepStep(m: Machine, k: Token, a: Action, asleep: set<nat>)
    requires Inv(m, k) && Enabled(m, a) && SleepOk(m, asleep) && a.t !in asleep
    ensures SleepOk(Apply(m, a), Asleep(m, a, asleep))
  {
    forall u | u in Asleep(m, a, asleep)
      ensures u < |Apply(m, a).pc| && Waits(Apply(m, a).q, Apply(m, a).pc[u])
    {
      SleeperBehind(m, k, a, asleep, u);
    }
    hide Asleep, Waits, Enabled, Apply;
  }

  // ---- over all runs -----------------------------------------------------------------

  /** Everything that the machine keeps it keeps with sleep and wake-up, and every sleeper still has to wait. */
  lemma {:induction false} SleepyRun(s: Sleepy, k: Token, run: seq<Move>, s': Sleepy) returns (l: Token)
    requires Good(s.m, k) && SleepOk(s.m, s.asleep) && SleepyRuns(s, run, s')
    ensures Good(s'.m, l) && SleepOk(s'.m, s'.asleep)
    decreases |run|
  {
    hide Enabled, Apply, Orderly, Good, SleepOk, Asleep, Waits;
    if run == [] {
      l := k;
    } else {
      var s1 := AfterMove(s, run[0]);
      var k1 := k;
      match run[0] {
        case Region(a) =>
          GoodIsInv(s.m, k);
          SleepStep(s.m, k, a, s.asleep);
          k1 := Step(s.m, k, a);
        case Doze(t) =>
          DozeOk(s.m, s.asleep, t);
      }
      l := SleepyRun(s1, k1, run[1..], s');
    }
  }

  lemma DozeOk(m: Machine, asleep: set<nat>, t: nat)
    requires t < |m.pc| && Waits(m.q, m.pc[t])
    ensures SleepOk(m, asleep) ==> SleepOk(m, asleep + {t})
  {}

  ghost predicate SleepyReachable(s: Sleepy) {
    exists m0: Machine, run: seq<Move> :: Initial(m0) && SleepyRuns(Sleepy(m0, {}), run, s)
  }

  lemma SleepyGood(s: Sleepy) returns (k: Token)
    requires SleepyReachable(s)
    ensures Good(s.m, k) && SleepOk(s.m, s.asleep)
  {
    var m0: Machine, run: seq<Move> :| Initial(m0) && SleepyRuns(Sleepy(m0, {}), run, s);
    InitialGood(m0);
    k := SleepyRun(Sleepy(m0, {}), Free, run, s);
  }

  /** No wake-up is lost: whoever is asleep still has to wait. A thread whose condition has come true has been woken. */
  lemma NoLostWakeup(s: Sleepy, t: nat)
    requires SleepyReachable(s) && t in s.asleep
    ensures t < |s.m.pc| && Waits(s.m.q, s.m.pc[t])
    ensures !CanHandover(s.m, t) && !CanSyncWake(s.m, t) && !CanWaitWake(s.m, t)
    ensures !CanSuspendWake(s.m, t) && !CanUnloadWake(s.m, t)
  {
    var k := SleepyGood(s);
  }

  /** A thread that can run a region is awake. */
  lemma EnabledAwake(m: Machine, a: Action, asleep: set<nat>)
    requires SleepOk(m, asleep) && Enabled(m, a)
    ensures a.t !in asleep
  {
    hide Waits;
    if a.t in asleep { NotWaiting(m, a); }
  }

  lemma NotWaiting(m: Machine, a: Action)
    requires Enabled(m, a)
    ensures a.t < |m.pc| && !Waits(m.q, m.pc[a.t])
  {}

  /** The regions of a run with sleep and wake-up are a run of the machine. */
  lemma {:induction false} DropDozes(s: Sleepy, run: seq<Move>, s': Sleepy) returns (regions: seq<Action>)
    requires SleepyRuns(s, run, s')
    ensures Runs(s.m, regions, s'.m)
    decreases |run|
  {
    hide Enabled, Apply, Orderly, Asleep, Waits;
    if run == [] {
      regions := [];
    } else {
      regions := DropDozes(AfterMove(s, run[0]), run[1..], s');
      match run[0] {
        case Region(a) =>
          assert ([a] + regions)[1..] == regions;
          regions := [a] + regions;
        case Doze(_) =>
      }
    }
  }

  /** A run of the machine is a run with sleep and wake-up: nobody has to be woken any more than is. */
  lemma {:induction false} WithSleep(m: Machine, k: Token, asleep: set<nat>, run: seq<Action>, n: Machine)
    returns (moves: seq<Move>, still: set<nat>)
    requires Good(m, k) && SleepOk(m, asleep) && Runs(m, run, n)
    ensures SleepyRuns(Sleepy(m, asleep), moves, Sleepy(n, still))
    decreases |run|
  {
    hide Enabled, Apply, Orderly, Good, SleepOk, Asleep;
    if run == [] {
      moves, still := [], asleep;
    } else {
      var a := run[0];
      GoodIsInv(m, k);
      EnabledAwake(m, a, asleep);
      SleepStep(m, k, a, asleep);
      var l := Step(m, k, a);
      moves, still := WithSleep(Apply(m, a), l, Asleep(m, a, asleep), run[1..], n);
      assert ([Region(a)] + moves)[1..] == moves;
      moves := [Region(a)] + moves;
    }
  }

  /** With sleep and wake-up exactly the states of the machine are reached: what holds in those holds, and no thread
      is held up by a wake-up that never comes. */
  lemma SleepyExact(m: Machine)
    ensures Reachable(m) <==> exists asleep :: SleepyReachable(Sleepy(m, asleep))
  {
    if Reachable(m) {
      var m0: Machine, run: seq<Action> :| Initial(m0) && Runs(m0, run, m);
      InitialGood(m0);
      var moves, still := WithSleep(m0, Free, {}, run, m);
      assert SleepyReachable(Sleepy(m, still));
    }
    if asleep :| SleepyReachable(Sleepy(m, asleep)) {
      SleepyIsReachable(Sleepy(m, asleep));
    }
  }

  lemma SleepyIsReachable(s: Sleepy)
    requires SleepyReachable(s)
    ensures Reachable(s.m)
  {
    var m0: Machine, run: seq<Move> :| Initial(m0) && SleepyRuns(Sleepy(m0, {}), run, s);
    var regions := DropDozes(Sleepy(m0, {}), run, s);
  }

  /** So while the archive is RUNNING, some thread that is awake can move its commands on. */
  lemma SomebodyAwake(s: Sleepy, idle: nat)
    requires SleepyReachable(s) && s.m.q.running && IsIdle(s.m, idle)
    ensures exists a :: Enabled(s.m, a) && Advances(a) && a.t !in s.asleep
  {
    var k := SleepyGood(s);
    SleepyIsReachable(s);
    NeverStuck(s.m, idle);
    var a :| Enabled(s.m, a) && Advances(a);
    EnabledAwake(s.m, a, s.asleep);
  }

  // ---- a sleeper that is never let go ------------------------------------------------

  /** The sender of a SYNC command, or a waiter that has taken one over, whose command was released in its sleep. */
  ghost predicate Abandoned(m: Machine, t: nat, f: FileId) {
    t < |m.pc| && m.pc[t] == AwaitOperating(f) && f !in m.q.list
  }

  /** It takes part in no region. */
  lemma AbandonedStays(m: Machine, k: Token, a: Action, t: nat, f: FileId)
    requires Inv(m, k) && Enabled(m, a) && Abandoned(m, t, f)
    ensures a.t != t
  {
    assert ThreadOk(m.q, m.pc[t]);
    NotOperating(m, k, t, f);
  }

  lemma NotOperating(m: Machine, k: Token, t: nat, f: FileId)
    requires Inv(m, k) && Abandoned(m, t, f)
    ensures f in m.q.files && !m.q.files[f].operating
  {
    assert ThreadOk(m.q, m.pc[t]);
    assert Current(m, k) != Some(f);
  }

  /** Its file does not come back into the list: only its own thread sends commands with it. */
  lemma AbandonedFile(m: Machine, k: Token, a: Action, t: nat, f: FileId)
    requires Inv(m, k) && Enabled(m, a) && Abandoned(m, t, f) && a.t != t
    ensures f !in Apply(m, a).q.list
  {
    if a.DoEnqueue? {
      assert Client(m.pc[a.t]) != Client(m.pc[t]);
      EnqueueShape(m, a.t);
    } else if a.DoTranslate? {
      TranslateShape(m, k, a.t);
    } else {
      hide KeepsModes;
      ModesKept(m, a);
      ModesList(m, Apply(m, a), f);
    }
  }

  lemma ModesList(m: Machine, n: Machine, f: FileId)
    ensures KeepsModes(m, n) && f !in m.q.list ==> f !in n.q.list
  {}

  lemma AbandonedStep(m: Machine, k: Token, a: Action, t: nat, f: FileId)
    requires Inv(m, k) && Enabled(m, a) && Abandoned(m, t, f)
    ensures Abandoned(Apply(m, a), t, f)
  {
    AbandonedStays(m, k, a, t, f);
    AbandonedFile(m, k, a, t, f);
    OwnMove(m, a);
  }

  lemma {:induction false} AbandonedRun(m: Machine, k: Token, run: seq<Action>, n: Machine, t: nat, f: FileId)
    requires Good(m, k) && Runs(m, run, n) && Abandoned(m, t, f)
    ensures Abandoned(n, t, f)
    decreases |run|
  {
    hide Enabled, Apply, Orderly, Good, Abandoned;
    if run != [] {
      GoodIsInv(m, k);
      AbandonedStep(m, k, run[0], t, f);
      var l := Step(m, k, run[0]);
      AbandonedRun(Apply(m, run[0]), l, run[1..], n, t, f);
    }
  }

  /** A sleeping sender whose command is cancelled or unloaded never returns: in every run from there it is still
      in its sleep, in which it waits for OPERATING alone. */
  lemma NeverReturns(m: Machine, t: nat, f: FileId, run: seq<Action>, n: Machine)
    requires Reachable(m) && Abandoned(m, t, f) && Runs(m, run, n)
    ensures t < |n.pc| && n.pc[t] == AwaitOperating(f) && !CanHandover(n, t)
  {
    var k := ReachableGood(m);
    AbandonedRun(m, k, run, n, t, f);
    var l := EveryRun(m, k, run, n);
    GoodIsInv(n, l);
    NotOperating(n, l, t, f);
  }

  // ---- how a sender gets there -------------------------------------------------------

  /** One file and two threads: 0 suspends and unloads the archive, 1 sends a command and waits for it. */
  function TwoThreads(): Machine {
    Machine(Queue([], map[0 := Released(Success)], false, false, false, false, false, true, false, false),
            [Idle, Idle], false, false, false, map[], 0, {}, [])
  }

  const SENT := Stat(true, false, true, false, false, Busy)

  /** The archive is suspended. */
  function Stopped(): Machine {
    TwoThreads().(q := TwoThreads().q.(suspend := true))
  }

  function Sender(): Machine {
    Stopped().(q := Stopped().q.(files := map[0 := SENT]), pc := [Idle, Sending(0, false)])
  }

  /** The sender sleeps. */
  function Sleeping(): Machine {
    Sender().(q := Sender().q.(list := [0]), pc := [Idle, AwaitOperating(0)], ticket := map[0 := 0], nextTicket := 1)
  }

  /** The archive has been unloaded. */
  function LeftAlone(): Machine {
    Sleeping().(q := Sleeping().q.(list := [], files := map[0 := Released(Canceled)], loaded := false), dropped := {0})
  }

  lemma RunsOn(m: Machine, a: Action, n: Machine, run: seq<Action>, p: Machine)
    ensures Hop(m, a, n) && Orderly(m, a) && Runs(n, run, p) ==> Runs(m, [a] + run, p)
  {
    assert ([a] + run)[1..] == run;
  }

  lemma Stops()
    ensures Hop(TwoThreads(), DoSuspend(0), Stopped())
  {
    assert AfterSuspend(TwoThreads(), 0).pc == Stopped().pc;
  }

  lemma Prepares()
    ensures Hop(Stopped(), DoPrepare(1, 0, false, true), Sender())
  {
    var m, n := Stopped(), Sender();
    assert Unserved(m.pc, 0);
    var r := AfterPrepare(m, 1, 0, false, true);
    assert r.q.files == n.q.files && r.pc == n.pc;
    assert r.q == n.q;
  }

  lemma FallsIntoSleep()
    ensures Hop(Sender(), DoEnqueue(1), Sleeping())
  {
    var m, n := Sender(), Sleeping();
    EnqueueOf(m.q, 0, false);
    AfterEnqueueOf(m, 1);
    EnqueueRecord(m, 1);
    var r := AfterEnqueue(m, 1);
    assert m.q.files[0 := SENT] == m.q.files;
    assert r.q == n.q && r.pc == n.pc && r.ticket == n.ticket;
  }

  lemma UnloadsSleeping()
    ensures ListOk(Sleeping().q) && Unload(Sleeping().q, false) == LeftAlone().q
    ensures Lost(Sleeping(), []) == {0}
  {
    var m, o := Sleeping(), LeftAlone();
    assert m.q.list == [0] && 0 in m.q.list && 0 in m.ticket && m.ticket[0] == 0;
    assert Unload(m.q, false).files == o.q.files;
  }

  lemma Unloads()
    ensures Hop(Sleeping(), DoUnload(0), LeftAlone())
  {
    UnloadsSleeping();
    hide Unload, Lost;
    var m, o := Sleeping(), LeftAlone();
    var n := AfterUnload(m, 0);
    assert Suspend(m.q) == (m.q, false) && m.(q := m.q) == m;
    assert n.q == o.q && n.pc == o.pc && n.dropped == o.dropped;
    assert n == o;
  }

  /** The archive is unloaded while a sender sleeps: four regions, by one controlling thread. */
  lemma LeftAsleep()
    ensures Reachable(LeftAlone()) && Abandoned(LeftAlone(), 1, 0) && LeftAlone().q.files[0].error == Canceled
  {
    Stops();
    Prepares();
    FallsIntoSleep();
    Unloads();
    assert Initial(TwoThreads()) && Abandoned(LeftAlone(), 1, 0) && LeftAlone().q.files[0].error == Canceled;
    var e, d, c, b, a := LeftAlone(), Sleeping(), Sender(), Stopped(), TwoThreads();
    assert Runs(e, [], e);
    assert Orderly(d, DoUnload(0)) && Orderly(c, DoEnqueue(1)) && Orderly(b, DoPrepare(1, 0, false, true));
    assert Orderly(a, DoSuspend(0));
    hide Hop, Orderly, Runs, LeftAlone, Sleeping, Sender, Stopped, TwoThreads, Initial, Abandoned;
    RunsOn(d, DoUnload(0), e, [], e);
    RunsOn(c, DoEnqueue(1), d, [DoUnload(0)] + [], e);
    RunsOn(b, DoPrepare(1, 0, false, true), c, [DoEnqueue(1)] + ([DoUnload(0)] + []), e);
    RunsOn(a, DoSuspend(0), b, [DoPrepare(1, 0, false, true)] + ([DoEnqueue(1)] + ([DoUnload(0)] + [])), e);
  }
}
