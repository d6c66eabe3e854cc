/** What the callers of the command queue can rely on: FS_SuspendArchive stops the archive, a SYNC command keeps its
    sender until the sender has run it, and FS_UnloadArchive leaves nothing behind. */
module QueueService {
  import opened Basics
  import opened CommandQueue
  import opened QueueMachine
  import opened QueueSafety
  import opened QueueRuns
  import opened QueueTheorems
  import opened QueueControl
  import opened QueueOutcome

  // ---- a suspension stops the archive ------------------------------------------------

  /** The archive is suspended, or will be as soon as its current command is done. */
  predicate Stopping(q: Queue<FileId>) {
    q.suspend || q.suspending
  }

  predicate Working(pc: Pc) {
    pc.Translating? || pc.AwaitSync? || pc.Releasing? || pc.Advancing?
  }

  /** No command is about to be handed to its command function. */
  ghost predicate Over(m: Machine) {
    !m.q.running || m.q.isAsync || exists u :: 0 <= u < |m.pc| && Working(m.pc[u])
  }

  /** The regions that may start a suspended archive again. */
  predicate Restarts(a: Action) {
    a.DoResume? || a.DoUnload? || a.DoUnloadWake?
  }

  /** A suspension stays, and thread `t` alone has moved. */
  ghost predicate Stays(m: Machine, n: Machine, t: nat) {
    && t < |m.pc| == |n.pc| && n.pc == m.pc[t := n.pc[t]]
    && (m.q.suspend ==> n.q.suspend) && (Stopping(m.q) ==> Stopping(n.q))
  }

  /** Thread `t`, which does not work on a command, has moved; nothing has begun or ended. */
  ghost predicate Beside(m: Machine, n: Machine, t: nat) {
    Stays(m, n, t) && !Working(m.pc[t]) && n.q.running == m.q.running && n.q.isAsync == m.q.isAsync
  }

  lemma BesideOver(m: Machine, n: Machine, t: nat)
    requires Beside(m, n, t) && Over(m)
    ensures Over(n)
  {
    if u :| 0 <= u < |m.pc| && Working(m.pc[u]) { assert n.pc[u] == m.pc[u]; }
  }

  /** Under a suspension FSi_NextCommand chooses nothing and the archive is suspended behind it. */
  lemma NextStops(q: Queue<FileId>)
    requires ListOk(q) && Stopping(q)
    ensures var p := Next(q); p.chosen == None && !p.q.running && p.q.suspend && !p.q.suspending
  {}

  lemma PrepareBeside(m: Machine, t: nat, f: FileId, syncCommand: bool, blocking: bool)
    requires CanPrepare(m, t, f)
    ensures Beside(m, AfterPrepare(m, t, f, syncCommand, blocking), t)
  {}

  lemma EnqueueBeside(m: Machine, k: Token, t: nat)
    requires Inv(m, k) && CanEnqueue(m, t) && Stopping(m.q)
    ensures Beside(m, AfterEnqueue(m, t), t)
  {
    assert ThreadOk(m.q, m.pc[t]);
    EnqueueJoined(m, t);
  }

  lemma ActivateBeside(m: Machine, t: nat)
    requires CanActivate(m, t)
    ensures Beside(m, AfterActivate(m, t), t)
  {}

  lemma OperateBeside(m: Machine, t: nat)
    requires CanOperate(m, t)
    ensures Beside(m, AfterOperate(m, t), t)
  {}

  lemma WaitBeside(m: Machine, t: nat, f: FileId)
    requires CanWait(m, t, f)
    ensures Beside(m, AfterWait(m, t, f), t)
  {}

  lemma CancelBeside(m: Machine, t: nat, f: FileId)
    requires CanCancel(m, t, f)
    ensures Beside(m, AfterCancel(m, t, f), t)
  {}

  lemma SuspendBeside(m: Machine, t: nat)
    requires IsIdle(m, t)
    ensures Beside(m, AfterSuspend(m, t), t) && Stopping(AfterSuspend(m, t).q)
    ensures AfterSuspend(m, t).pc[t] == AwaitSuspend || AfterSuspend(m, t).q.suspend
  {}

  lemma MoveBeside(m: Machine, t: nat, p: Pc)
    requires t < |m.pc| && !Working(m.pc[t])
    ensures Beside(m, Goto(m, t, p), t)
  {}

  lemma LoadBeside(m: Machine, t: nat)
    requires IsIdle(m, t)
    ensures Beside(m, m.(q := m.q.(loaded := true)), t)
  {}

  /** The regions of a thread that works on a command. */
  predicate Works(a: Action) {
    a.DoTranslate? || a.DoStartIo? || a.DoNotify? || a.DoSyncWake? || a.DoFinish? || a.DoRelease? || a.DoNext?
  }

  lemma BesideStep(m: Machine, k: Token, a: Action)
    requires Inv(m, k) && Enabled(m, a) && Stopping(m.q) && !Restarts(a) && !Works(a)
    ensures Beside(m, Apply(m, a), a.t)
  {
    hide Beside, Inv;
    match a
    case DoPrepare(t, f, syncCommand, blocking) => PrepareBeside(m, t, f, syncCommand, blocking);
    case DoEnqueue(t) => EnqueueBeside(m, k, t);
    case DoActivate(t) => ActivateBeside(m, t);
    case DoOperate(t) => OperateBeside(m, t);
    case DoHandover(t) => MoveBeside(m, t, Ready(m.pc[t].f, true));
    case DoWait(t, f) => WaitBeside(m, t, f);
    case DoWaitWake(t) => MoveBeside(m, t, Idle);
    case DoCancel(t, f) => CancelBeside(m, t, f);
    case DoSuspend(t) => SuspendBeside(m, t);
    case DoSuspendWake(t) => MoveBeside(m, t, Idle);
    case DoLoad(t) => LoadBeside(m, t);
  }

  lemma TranslateWorks(m: Machine, k: Token, t: nat)
    requires Inv(m, k) && CanTranslate(m, t)
    ensures var n := AfterTranslate(m, t);
      !Over(m) && Over(n) && Stays(m, n, t) && |Executed(n.log)| == |Executed(m.log)| + 1
  {
    TranslateShape(m, k, t);
    TranslatePlain(m, t);
    TranslateFlags(m, t);
    ExecutedSnoc(m.log, Execute(m.ticket[m.pc[t].f], m.pc[t].own));
    hide AfterTranslate;
  }

  lemma TranslateFlags(m: Machine, t: nat)
    requires CanTranslate(m, t)
    ensures AfterTranslate(m, t).q.suspend == m.q.suspend
  {
    BeginFlags(m.q, m.pc[t].f);
    BeginFlags(MarkAsync(m.q, m.pc[t].f), m.pc[t].f);
    hide TranslateBegin;
  }

  lemma BeginFlags(q: Queue<FileId>, f: FileId)
    requires f in q.files
    ensures TranslateBegin(q, f).suspend == q.suspend
  {}

  lemma StartIoOver(m: Machine, k: Token, t: nat, inner: bool)
    requires Inv(m, k) && CanStartIo(m, t, inner)
    ensures Over(AfterStartIo(m, t, inner)) && Stays(m, AfterStartIo(m, t, inner), t)
  {
    StartIoControl(m, k, t, inner);
    var n := AfterStartIo(m, t, inner);
    assert n.pc[t].AwaitSync? || n.q.isAsync;
  }

  lemma NotifyOver(m: Machine, k: Token, t: nat, ret: FsResult)
    requires Inv(m, k) && CanNotify(m, t)
    ensures Over(AfterNotify(m, t, ret)) && Stays(m, AfterNotify(m, t, ret), t)
  {
    NotifyControl(m, k, t, ret);
    var n := AfterNotify(m, t, ret);
    if m.q.isAsync {
      assert n.pc[t] == Advancing;
    } else {
      assert n.pc[k.t] == m.pc[k.t];
    }
  }

  lemma SyncWakeOver(m: Machine, t: nat)
    requires CanSyncWake(m, t)
    ensures Over(AfterSyncWake(m, t)) && Stays(m, AfterSyncWake(m, t), t)
  {
    assert Working(AfterSyncWake(m, t).pc[t]);
  }

  lemma FinishOver(m: Machine, t: nat, ret: FsResult)
    requires CanFinish(m, t)
    ensures Over(AfterFinish(m, t, ret)) && Stays(m, AfterFinish(m, t, ret), t)
  {
    TranslateEndIs(m.q, m.pc[t].f, ret);
    hide TranslateEnd;
    assert Working(AfterFinish(m, t, ret).pc[t]);
  }

  lemma ReleaseOver(m: Machine, t: nat)
    requires CanRelease(m, t)
    ensures Over(AfterRelease(m, t)) && Stays(m, AfterRelease(m, t), t)
  {
    assert Working(AfterRelease(m, t).pc[t]);
  }

  lemma NextOver(m: Machine, t: nat)
    requires CanNext(m, t) && Stopping(m.q)
    ensures Over(AfterNext(m, t)) && Stays(m, AfterNext(m, t), t)
  {
    NextStops(m.q);
    hide Next, Lost;
  }

  /** All regions of a thread that works on a command, but the one that hands it to its command function. */
  lemma WorkStep(m: Machine, k: Token, a: Action)
    requires Inv(m, k) && Enabled(m, a) && Stopping(m.q) && Works(a) && !a.DoTranslate?
    ensures Over(Apply(m, a)) && Stays(m, Apply(m, a), a.t)
  {
    hide Over, Stays, Inv;
    match a
    case DoStartIo(t, inner) => StartIoOver(m, k, t, inner);
    case DoNotify(t, ret) => NotifyOver(m, k, t, ret);
    case DoSyncWake(t) => SyncWakeOver(m, t);
    case DoFinish(t, ret) => FinishOver(m, t, ret);
    case DoRelease(t) => ReleaseOver(m, t);
    case DoNext(t) => NextOver(m, t);
  }

  lemma SameExecuted(m: Machine, k: Token, a: Action)
    requires Inv(m, k) && Enabled(m, a) && !a.DoTranslate?
    ensures Executed(Apply(m, a).log) == Executed(m.log)
  {
    if a.DoEnqueue? {
      EnqueueRecord(m, a.t);
    } else {
      ModesKept(m, a);
      ExecutedSnoc(m.log, Activate);
      ExecutedSnoc(m.log, GoIdle);
    }
  }

  /** How many more commands may be handed to their command functions. */
  ghost function Left(m: Machine): nat {
    if Over(m) then 0 else 1
  }

  lemma StopStep(m: Machine, k: Token, a: Action)
    requires Inv(m, k) && Enabled(m, a) && Stopping(m.q) && !Restarts(a)
    ensures Stays(m, Apply(m, a), a.t)
    ensures |Executed(Apply(m, a).log)| + Left(Apply(m, a)) <= |Executed(m.log)| + Left(m)
  {
    if a.DoTranslate? {
      TranslateWorks(m, k, a.t);
    } else {
      SameExecuted(m, k, a);
      if Works(a) {
        WorkStep(m, k, a);
        hide Enabled, Apply, Over;
      } else {
        BesideStep(m, k, a);
        hide Enabled, Apply, Over;
        if Over(m) { BesideOver(m, Apply(m, a), a.t); }
      }
    }
  }

  lemma {:induction false} StopRun(m: Machine, k: Token, run: seq<Action>, n: Machine)
    requires Good(m, k) && Runs(m, run, n) && Stopping(m.q)
    requires forall i | 0 <= i < |run| :: !Restarts(run[i])
    ensures Stopping(n.q) && (m.q.suspend ==> n.q.suspend)
    ensures |Executed(n.log)| + Left(n) <= |Executed(m.log)| + Left(m)
    decreases |run|
  {
    hide Enabled, Apply, Orderly, Good, Over;
    if run != [] {
      GoodIsInv(m, k);
      StopStep(m, k, run[0]);
      var l := Step(m, k, run[0]);
      StopRun(Apply(m, run[0]), l, run[1..], n);
    }
  }

  /** Behind a call of FS_SuspendArchive, until the archive is resumed or unloaded, at most the one command that was
      about to be executed is; none is once the archive is suspended, and it is no later than when the call returns. */
  lemma SuspendStops(m: Machine, t: nat, run: seq<Action>, n: Machine)
    requires Reachable(m) && IsIdle(m, t) && Runs(AfterSuspend(m, t), run, n)
    requires forall i | 0 <= i < |run| :: !Restarts(run[i])
    ensures |Executed(n.log)| <= |Executed(m.log)| + 1
    ensures m.q.suspend || !m.q.running ==> |Executed(n.log)| <= |Executed(m.log)|
    ensures t < |n.pc| && (n.pc[t] == AwaitSuspend || n.q.suspend)
  {
    var k := ReachableGood(m);
    var s := AfterSuspend(m, t);
    SuspendBeside(m, t);
    SameExecuted(m, k, DoSuspend(t));
    var l := SuspendGood(m, k, t);
    StopRun(s, l, run, n);
    AsleepUntilSuspended(s, l, t, run, n);
  }

  lemma SuspendedWake(m: Machine, k: Token, a: Action, t: nat)
    requires Inv(m, k) && Enabled(m, a) && Stopping(m.q) && t < |m.pc| && m.pc[t] == AwaitSuspend && a.t == t
    ensures m.q.suspend
  {}

  lemma {:induction false} AsleepUntilSuspended(m: Machine, k: Token, t: nat, run: seq<Action>, n: Machine)
    requires Good(m, k) && Runs(m, run, n) && Stopping(m.q) && t < |m.pc|
    requires m.pc[t] == AwaitSuspend || m.q.suspend
    requires forall i | 0 <= i < |run| :: !Restarts(run[i])
    ensures |n.pc| == |m.pc| && (n.pc[t] == AwaitSuspend || n.q.suspend)
    decreases |run|
  {
    hide Enabled, Apply, Orderly, Good, Over;
    if run != [] {
      GoodIsInv(m, k);
      StopStep(m, k, run[0]);
      if !m.q.suspend && run[0].t == t { SuspendedWake(m, k, run[0], t); }
      var l := Step(m, k, run[0]);
      AsleepUntilSuspended(Apply(m, run[0]), l, t, run[1..], n);
    }
  }

  /** While the archive is suspended nothing is executed. */
  lemma SuspendedRunsNothing(m: Machine, run: seq<Action>, n: Machine)
    requires Reachable(m) && m.q.suspend && Runs(m, run, n)
    requires forall i | 0 <= i < |run| :: !Restarts(run[i])
    ensures n.q.suspend && |Executed(n.log)| <= |Executed(m.log)|
  {
    var k := ReachableGood(m);
    assert Over(m);
    StopRun(m, k, run, n);
  }

  // ---- a SYNC command keeps its sender -----------------------------------------------

  /** Thread `t` is inside FSi_SendCommand for `f`, in SYNC mode, or runs the command itself. */
  ghost predicate Serves(m: Machine, t: nat, f: FileId) {
    && t < |m.pc| && Client(m.pc[t]) == Some(f) && f in m.q.files && !m.pc[t].AwaitIdle?
    && (m.pc[t].Sending? ==> m.q.files[f].sync || m.pc[t].syncCommand)
    && (m.pc[t].Starting? ==> m.q.files[f].sync)
  }

  /** Thread `u` has moved, and the handle `f` has not left SYNC mode. */
  ghost predicate KeepsSync(m: Machine, n: Machine, u: nat, f: FileId) {
    && u < |m.pc| == |n.pc| && n.pc == m.pc[u := n.pc[u]]
    && (f in m.q.files ==> f in n.q.files && (m.q.files[f].sync ==> n.q.files[f].sync))
  }

  lemma KeptServes(m: Machine, n: Machine, u: nat, t: nat, f: FileId)
    requires KeepsSync(m, n, u, f) && u != t && Serves(m, t, f)
    ensures Serves(n, t, f)
  {}

  /** What another thread than `t` does while `t` has not yet reached OPERATING. */
  lemma PrepareSync(m: Machine, u: nat, g: FileId, syncCommand: bool, blocking: bool, f: FileId)
    requires CanPrepare(m, u, g)
    ensures KeepsSync(m, AfterPrepare(m, u, g, syncCommand, blocking), u, f)
  {}

  lemma EnqueueSync(m: Machine, k: Token, u: nat, f: FileId)
    requires Inv(m, k) && CanEnqueue(m, u)
    ensures KeepsSync(m, AfterEnqueue(m, u), u, f)
  {
    assert ThreadOk(m.q, m.pc[u]);
    EnqueueJoined(m, u);
  }

  lemma ActivateSync(m: Machine, u: nat, f: FileId)
    requires CanActivate(m, u)
    ensures KeepsSync(m, AfterActivate(m, u), u, f)
  {}

  lemma OperateSync(m: Machine, u: nat, f: FileId)
    requires CanOperate(m, u)
    ensures KeepsSync(m, AfterOperate(m, u), u, f)
  {}

  lemma BeginFiles(q: Queue<FileId>, f: FileId)
    requires f in q.files
    ensures TranslateBegin(q, f).files == q.files
  {}

  lemma TranslateSync(m: Machine, u: nat, f: FileId)
    requires CanTranslate(m, u)
    ensures KeepsSync(m, AfterTranslate(m, u), u, f)
  {
    BeginFiles(m.q, m.pc[u].f);
    BeginFiles(MarkAsync(m.q, m.pc[u].f), m.pc[u].f);
    hide TranslateBegin;
  }

  lemma StartIoSync(m: Machine, u: nat, inner: bool, f: FileId)
    requires CanStartIo(m, u, inner)
    ensures KeepsSync(m, AfterStartIo(m, u, inner), u, f)
  {}

  lemma WaitSync(m: Machine, u: nat, g: FileId, f: FileId)
    requires CanWait(m, u, g)
    ensures KeepsSync(m, AfterWait(m, u, g), u, f)
  {}

  lemma CancelSync(m: Machine, u: nat, g: FileId, f: FileId)
    requires CanCancel(m, u, g)
    ensures KeepsSync(m, AfterCancel(m, u, g), u, f)
  {}

  lemma SuspendSync(m: Machine, u: nat, f: FileId)
    requires IsIdle(m, u)
    ensures KeepsSync(m, AfterSuspend(m, u), u, f)
  {}

  lemma MoveSync(m: Machine, u: nat, p: Pc, f: FileId)
    requires u < |m.pc|
    ensures KeepsSync(m, Goto(m, u, p), u, f)
  {}

  /** Regions that release no command. */
  predicate Releases(a: Action) {
    a.DoNotify? || a.DoFinish? || a.DoRelease? || a.DoNext? || a.DoResume? || a.DoUnload? || a.DoUnloadWake?
  }

  lemma SyncStep(m: Machine, k: Token, a: Action, f: FileId)
    requires Inv(m, k) && Enabled(m, a) && !Releases(a)
    ensures KeepsSync(m, Apply(m, a), a.t, f)
  {
    hide KeepsSync, Inv;
    match a
    case DoPrepare(u, g, syncCommand, blocking) => PrepareSync(m, u, g, syncCommand, blocking, f);
    case DoEnqueue(u) => EnqueueSync(m, k, u, f);
    case DoActivate(u) => ActivateSync(m, u, f);
    case DoOperate(u) => OperateSync(m, u, f);
    case DoHandover(u) => MoveSync(m, u, Ready(m.pc[u].f, true), f);
    case DoTranslate(u) => TranslateSync(m, u, f);
    case DoStartIo(u, inner) => StartIoSync(m, u, inner, f);
    case DoSyncWake(u) => MoveSync(m, u, AfterSyncWake(m, u).pc[u], f);
    case DoWait(u, g) => WaitSync(m, u, g, f);
    case DoWaitWake(u) => MoveSync(m, u, Idle, f);
    case DoCancel(u, g) => CancelSync(m, u, g, f);
    case DoSuspend(u) => SuspendSync(m, u, f);
    case DoSuspendWake(u) => MoveSync(m, u, Idle, f);
    case DoLoad(u) => LoadSync(m, u, f);
  }

  lemma LoadSync(m: Machine, u: nat, f: FileId)
    requires IsIdle(m, u)
    ensures KeepsSync(m, m.(q := m.q.(loaded := true)), u, f)
  {}

  /** A region of another thread that releases commands of the list. */
  lemma ReleasedServes(m: Machine, k: Token, n: Machine, u: nat, t: nat, f: FileId)
    requires Inv(m, k) && Serves(m, t, f) && u != t && u < |m.pc| == |n.pc| && n.pc == m.pc[u := n.pc[u]]
    requires f in n.q.files && (f !in m.q.list ==> n.q.files[f] == m.q.files[f]) && !m.pc[t].Starting?
    ensures Serves(n, t, f)
  {
    assert ThreadOk(m.q, m.pc[t]);
  }

  lemma NotifyServes(m: Machine, k: Token, u: nat, ret: FsResult, t: nat, f: FileId)
    requires Inv(m, k) && CanNotify(m, u) && u != t && Serves(m, t, f)
    ensures Serves(AfterNotify(m, u, ret), t, f)
  {
    NotifyControl(m, k, u, ret);
    NotifyFiles(m, u, ret);
    hide AfterNotify;
    if !m.pc[t].Starting? { ReleasedServes(m, k, AfterNotify(m, u, ret), u, t, f); }
  }

  lemma FinishServes(m: Machine, k: Token, u: nat, ret: FsResult, t: nat, f: FileId)
    requires Inv(m, k) && CanFinish(m, u) && u != t && Serves(m, t, f)
    ensures Serves(AfterFinish(m, u, ret), t, f)
  {
    FinishControl(m, k, u, ret);
    FinishFiles(m, u, ret);
    hide AfterFinish;
    ReleasedServes(m, k, AfterFinish(m, u, ret), u, t, f);
  }

  lemma ReleaseServes(m: Machine, k: Token, u: nat, t: nat, f: FileId)
    requires Inv(m, k) && CanRelease(m, u) && u != t && Serves(m, t, f)
    ensures Serves(AfterRelease(m, u), t, f)
  {
    ReleaseControl(m, k, u);
    ReleasedServes(m, k, AfterRelease(m, u), u, t, f);
  }

  lemma PickedServes(m: Machine, k: Token, u: nat, p: Pick<FileId>, t: nat, f: FileId)
    requires Inv(m, k) && MayPick(m, k, u) && Thinned(m.q, p.q) && u != t && Serves(m, t, f)
    ensures Serves(Picked(m, u, p), t, f)
  {
    PickedIs(m, u, p);
    hide Picked;
    ReleasedServes(m, k, Picked(m, u, p), u, t, f);
  }

  lemma NextServes(m: Machine, k: Token, u: nat, t: nat, f: FileId)
    requires Inv(m, k) && CanNext(m, u) && u != t && Serves(m, t, f)
    ensures Serves(AfterNext(m, u), t, f)
  {
    NextThins(m.q);
    hide Next, Serves, Thinned;
    PickedServes(m, k, u, Next(m.q), t, f);
  }

  lemma ResumeServes(m: Machine, k: Token, u: nat, t: nat, f: FileId)
    requires Inv(m, k) && CanResume(m, u) && u != t && Serves(m, t, f)
    ensures Serves(AfterResume(m, u), t, f)
  {
    if m.q.suspend {
      NextThins(m.q.(suspend := false));
      hide Next, Serves;
      PickedServes(m, k, u, Next(m.q.(suspend := false)), t, f);
    } else {
      PickedIs(m, u, Resume(m.q));
      hide Picked;
    }
  }

  lemma UnloadedFiles(m: Machine, u: nat, resume: bool, f: FileId)
    requires u < |m.pc| && ListOk(m.q) && f in m.q.files && f !in m.q.list
    ensures f in Unloaded(m, u, resume).q.files && Unloaded(m, u, resume).q.files[f] == m.q.files[f]
  {}

  lemma UnloadedServes(m: Machine, k: Token, u: nat, resume: bool, t: nat, f: FileId)
    requires Inv(m, k) && u < |m.pc| && Unattended(m) && u != t && Serves(m, t, f)
    ensures Serves(Unloaded(m, u, resume), t, f)
  {
    if f !in m.q.list { UnloadedFiles(m, u, resume, f); }
    ReleasedServes(m, k, Unloaded(m, u, resume), u, t, f);
  }

  lemma UnloadServes(m: Machine, k: Token, u: nat, t: nat, f: FileId)
    requires Inv(m, k) && CanUnload(m, u) && u != t && Serves(m, t, f)
    ensures Serves(AfterUnload(m, u), t, f)
  {
    if !m.q.running {
      var s := m.(q := Suspend(m.q).0);
      assert s.q.files == m.q.files && s.q.list == m.q.list && AfterUnload(m, u) == Unloaded(s, u, !m.q.suspend);
      if f !in m.q.list { UnloadedFiles(s, u, !m.q.suspend, f); }
      assert f in AfterUnload(m, u).q.files;
      hide Suspend;
      ReleasedServes(m, k, AfterUnload(m, u), u, t, f);
    }
  }

  lemma OtherStep(m: Machine, k: Token, a: Action, t: nat, f: FileId)
    requires Inv(m, k) && Enabled(m, a) && Orderly(m, a) && a.t != t && Serves(m, t, f)
    ensures Serves(Apply(m, a), t, f)
  {
    hide Serves, Inv, KeepsSync;
    match a
    case DoNotify(u, ret) => NotifyServes(m, k, u, ret, t, f);
    case DoFinish(u, ret) => FinishServes(m, k, u, ret, t, f);
    case DoRelease(u) => ReleaseServes(m, k, u, t, f);
    case DoNext(u) => NextServes(m, k, u, t, f);
    case DoResume(u) => ResumeServes(m, k, u, t, f);
    case DoUnload(u) => UnloadServes(m, k, u, t, f);
    case DoUnloadWake(u) => UnloadedServes(m, k, u, true, t, f);
    case _ =>
      SyncStep(m, k, a, f);
      KeptServes(m, Apply(m, a), a.t, t, f);
  }

  lemma EnqueueOwn(m: Machine, k: Token, t: nat, f: FileId)
    requires Inv(m, k) && CanEnqueue(m, t) && Serves(m, t, f)
    ensures Serves(AfterEnqueue(m, t), t, f)
  {
    assert ThreadOk(m.q, m.pc[t]);
    EnqueueJoined(m, t);
  }

  lemma TranslateOwn(m: Machine, k: Token, t: nat, f: FileId)
    requires Inv(m, k) && CanTranslate(m, t) && Serves(m, t, f)
    ensures Serves(AfterTranslate(m, t), t, f)
  {
    BeginFiles(m.q, f);
    hide TranslateBegin;
  }

  lemma StartIoOwn(m: Machine, k: Token, t: nat, inner: bool, f: FileId)
    requires Inv(m, k) && CanStartIo(m, t, inner) && Serves(m, t, f)
    ensures Serves(AfterStartIo(m, t, inner), t, f)
  {
    StartIoControl(m, k, t, inner);
  }

  lemma FinishOwn(m: Machine, k: Token, t: nat, ret: FsResult, f: FileId)
    requires Inv(m, k) && CanFinish(m, t) && Serves(m, t, f)
    ensures Serves(AfterFinish(m, t, ret), t, f)
  {
    FinishControl(m, k, t, ret);
    FinishFiles(m, t, ret);
    hide AfterFinish;
  }

  lemma OperateOwn(m: Machine, t: nat, f: FileId)
    requires CanOperate(m, t) && Serves(m, t, f)
    ensures Serves(AfterOperate(m, t), t, f)
  {}

  lemma SyncWakeOwn(m: Machine, t: nat, f: FileId)
    requires CanSyncWake(m, t) && Serves(m, t, f)
    ensures Serves(AfterSyncWake(m, t), t, f)
  {}

  /** The regions that a serving thread can be in front of. */
  lemma ServingRegion(m: Machine, a: Action, t: nat, f: FileId)
    requires Enabled(m, a) && a.t == t && Serves(m, t, f)
    ensures a.DoEnqueue? || a.DoActivate? || a.DoOperate? || a.DoHandover? || a.DoTranslate? || a.DoStartIo?
            || a.DoSyncWake? || a.DoFinish? || a.DoRelease?
  {}

  lemma OwnStep(m: Machine, k: Token, a: Action, t: nat, f: FileId)
    requires Inv(m, k) && Enabled(m, a) && a.t == t && !a.DoRelease? && Serves(m, t, f)
    ensures Serves(Apply(m, a), t, f)
  {
    ServingRegion(m, a, t, f);
    hide Inv;
    match a
    case DoEnqueue(_) => EnqueueOwn(m, k, t, f);
    case DoActivate(_) =>
    case DoOperate(_) => OperateOwn(m, t, f);
    case DoHandover(_) =>
    case DoTranslate(_) => TranslateOwn(m, k, t, f);
    case DoStartIo(_, inner) => StartIoOwn(m, k, t, inner, f);
    case DoSyncWake(_) => SyncWakeOwn(m, t, f);
    case DoFinish(_, ret) => FinishOwn(m, k, t, ret, f);
  }

  lemma {:induction false} ServesRun(m: Machine, k: Token, run: seq<Action>, n: Machine, t: nat, f: FileId)
    requires Good(m, k) && Runs(m, run, n) && Serves(m, t, f) && DoRelease(t) !in run
    ensures Serves(n, t, f)
    decreases |run|
  {
    hide Enabled, Apply, Orderly, Good, Serves;
    if run != [] {
      GoodIsInv(m, k);
      if run[0].t == t { OwnStep(m, k, run[0], t, f); } else { OtherStep(m, k, run[0], t, f); }
      var l := Step(m, k, run[0]);
      ServesRun(Apply(m, run[0]), l, run[1..], n, t, f);
    }
  }

  /** A thread that sends a command which is blocking, or of a SYNC kind, does not come back before it has run the
      command itself and released it. */
  lemma SenderServes(m: Machine, t: nat, f: FileId, syncCommand: bool, blocking: bool, run: seq<Action>, n: Machine)
    requires Reachable(m) && CanPrepare(m, t, f) && (syncCommand || blocking) && DoRelease(t) !in run
    requires Runs(AfterPrepare(m, t, f, syncCommand, blocking), run, n)
    ensures t < |n.pc| && Client(n.pc[t]) == Some(f)
  {
    var k := ReachableGood(m);
    var l := PrepareGood(m, k, t, f, syncCommand, blocking);
    ServesRun(AfterPrepare(m, t, f, syncCommand, blocking), l, run, n, t, f);
  }

  /** Nor does a thread that has taken a command over in FS_WaitAsync. */
  lemma WaiterServes(m: Machine, t: nat, f: FileId, run: seq<Action>, n: Machine)
    requires Reachable(m) && CanWait(m, t, f) && m.q.files[f].busy && !m.q.files[f].sync && !m.q.files[f].operating
    requires Runs(AfterWait(m, t, f), run, n) && DoRelease(t) !in run
    ensures t < |n.pc| && Client(n.pc[t]) == Some(f)
  {
    var k := ReachableGood(m);
    var l := WaitGood(m, k, t, f);
    ServesRun(AfterWait(m, t, f), l, run, n, t, f);
  }

  // ---- an unload leaves nothing ------------------------------------------------------

  /** Behind FS_UnloadArchive no archive is loaded and no command is queued; those that were show CANCELED, and their
      tickets are released unexecuted. The archive stays suspended only if the call does not resume it. */
  lemma UnloadEmpties(m: Machine, t: nat, resume: bool, f: FileId)
    requires t < |m.pc| && ListOk(m.q) && f in m.q.files && !m.q.suspending
    ensures var n := Unloaded(m, t, resume);
      && !n.q.loaded && n.q.list == [] && !n.q.canceling && n.q.suspend == (m.q.suspend && !resume)
      && f in n.q.files && n.q.files[f] == (if f in m.q.list then Released(Canceled) else m.q.files[f])
      && (f in m.q.list && f in m.ticket ==> m.ticket[f] in n.dropped)
  {}

  /** A whole call of FSi_SendCommand that nothing interrupts: the command is the last one of the list, its handle shows
      BUSY, in SYNC mode exactly if it was or is asked to be, and nothing else changes but RUNNING. */
  lemma SendQueues(q: Queue<FileId>, f: FileId, syncCommand: bool, blocking: bool)
    requires f in q.files && f !in q.list && !q.unloading
    ensures var (r, sent) := Enqueue(Prepare(q, f, blocking), f, syncCommand);
      var sync := q.files[f].sync || syncCommand || blocking;
      && r.list == q.list + [f] && r.files[f] == q.files[f].(busy := true, error := Busy, sync := sync)
      && (forall g | g in q.files && g != f :: g in r.files && r.files[g] == q.files[g])
      && r == q.(list := r.list, files := r.files, running := r.running) && r.running == (q.running || !q.suspend)
      && sent == if r.running && !q.running then StartNow else if sync then Sleep else Queued
  {
    EnqueueOf(Prepare(q, f, blocking), f, syncCommand);
    hide Enqueue;
  }

  /** While an archive is unloaded FSi_SendCommand queues nothing and the handle shows CANCELED. */
  lemma RejectedShowsCanceled(q: Queue<FileId>, f: FileId, syncCommand: bool)
    requires f in q.files && f !in q.list && q.unloading
    ensures var (r, sent) := Enqueue(q, f, syncCommand);
      sent == Rejected && r.list == q.list && r.running == q.running && r.files == q.files[f := Released(Canceled)]
  {
    NotThere(q.list, f);
  }
}
