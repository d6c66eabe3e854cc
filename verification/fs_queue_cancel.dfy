/** A cancelled command is not executed: FS_CancelFile, and the sweep that it asks FSi_NextCommand for. */
module QueueCancel {
  import opened Basics
  import opened CommandQueue
  import opened QueueMachine
  import opened QueueSafety
  import opened QueueRuns
  import opened QueueTheorems
  import opened QueueControl
  import opened QueueOutcome

  /** The command of `f` is queued and in nobody's hands: another one is the head, or nobody executes the head. */
  ghost predicate Untouched(m: Machine, f: FileId) {
    f in m.q.list && (f != m.q.list[0] || Unattended(m))
  }

  /** The command with ticket `x` has been released unexecuted, or it is queued, marked, and a sweep is due before
      it can be reached. */
  ghost predicate Doomed(m: Machine, f: FileId, x: nat) {
    || x in m.dropped
    || (&& Untouched(m, f) && f in m.ticket && m.ticket[f] == x
        && f in m.q.files && m.q.files[f].cancel && m.q.canceling)
  }

  // ---- the sweep ---------------------------------------------------------------------

  /** FSi_NextCommand releases a queued command exactly if CANCELING is set for the archive and CANCEL for the file. */
  lemma SweepExact(q: Queue<FileId>, f: FileId)
    requires ListOk(q) && f in q.list
    ensures f !in Next(q).q.list <==> q.canceling && q.files[f].cancel
    ensures f !in Next(q).q.list ==> Next(q).q.files[f] == Released(Canceled) && Next(q).chosen != Some(f)
  {
    NextIsSweep(q);
  }

  lemma DroppedTicket(m: Machine, after: seq<FileId>, f: FileId)
    requires f in m.q.list && f !in after && f in m.ticket
    ensures m.ticket[f] in Lost(m, after)
  {}

  // ---- every region ------------------------------------------------------------------

  /** The list stays, and the marks and the flag of a cancellation. */
  ghost predicate KeepsMarks(q: Queue<FileId>, r: Queue<FileId>) {
    && r.list == q.list && r.files.Keys == q.files.Keys && r.running == q.running && r.canceling == q.canceling
    && forall g | g in q.files && q.files[g].busy && q.files[g].cancel :: r.files[g].cancel
  }

  /** The region of a thread that is not about to call FSi_NextCommand keeps them. */
  ghost predicate Aside(m: Machine, n: Machine, t: nat) {
    && KeepsMarks(m.q, n.q) && n.ticket == m.ticket && n.dropped == m.dropped
    && t < |m.pc| == |n.pc| && n.pc == m.pc[t := n.pc[t]] && m.pc[t] != Advancing
    && n.pc[t] != Advancing
  }

  lemma GotoAside(m: Machine, x: Machine, t: nat, p: Pc)
    requires t < |m.pc| && x.pc == m.pc && m.pc[t] != Advancing && p != Advancing
    requires x.ticket == m.ticket && x.dropped == m.dropped
    ensures KeepsMarks(m.q, x.q) ==> Aside(m, Goto(x, t, p), t)
  {}

  lemma AsideDoomed(m: Machine, k: Token, n: Machine, t: nat, f: FileId, x: nat)
    requires Inv(m, k) && Aside(m, n, t) && Doomed(m, f, x)
    ensures Doomed(n, f, x)
  {
    if x !in m.dropped {
      assert m.q.files[f].busy;
      if f == m.q.list[0] && m.q.running {
        var u :| 0 <= u < |m.pc| && m.pc[u] == Advancing;
        assert n.pc[u] == Advancing;
      }
    }
  }

  lemma PrepareAside(m: Machine, t: nat, f: FileId, syncCommand: bool, blocking: bool)
    requires CanPrepare(m, t, f)
    ensures Aside(m, AfterPrepare(m, t, f, syncCommand, blocking), t)
  {}

  lemma ActivateAside(m: Machine, t: nat)
    requires CanActivate(m, t)
    ensures Aside(m, AfterActivate(m, t), t)
  {}

  lemma OperateAside(m: Machine, t: nat)
    requires CanOperate(m, t)
    ensures Aside(m, AfterOperate(m, t), t)
  {}

  lemma OperateKeeps(q: Queue<FileId>, f: FileId)
    requires f in q.files
    ensures KeepsMarks(q, Operate(q, f)) && KeepsMarks(q, q)
  {}

  lemma MarkKeeps(q: Queue<FileId>, f: FileId)
    requires f in q.files
    ensures KeepsMarks(q, MarkAsync(q, f))
  {}

  lemma BeginIs(q: Queue<FileId>, f: FileId)
    requires f in q.files
    ensures var r := TranslateBegin(q, f);
      r.list == q.list && r.files == q.files && r.running == q.running && r.canceling == q.canceling
  {}

  lemma SameMarks(p: Queue<FileId>, q: Queue<FileId>, r: Queue<FileId>)
    requires r.list == q.list && r.files == q.files && r.running == q.running && r.canceling == q.canceling
    ensures KeepsMarks(p, q) ==> KeepsMarks(p, r)
  {}

  lemma BeginKeeps(p: Queue<FileId>, q: Queue<FileId>, f: FileId)
    requires f in q.files
    ensures KeepsMarks(p, q) ==> KeepsMarks(p, TranslateBegin(q, f))
  {
    BeginIs(q, f);
    SameMarks(p, q, TranslateBegin(q, f));
    hide TranslateBegin, KeepsMarks;
  }

  lemma TranslateAside(m: Machine, t: nat)
    requires CanTranslate(m, t)
    ensures Aside(m, AfterTranslate(m, t), t)
  {
    var f, own := m.pc[t].f, m.pc[t].own;
    OperateKeeps(m.q, f);
    MarkKeeps(m.q, f);
    BeginKeeps(m.q, m.q, f);
    BeginKeeps(m.q, MarkAsync(m.q, f), f);
    hide KeepsMarks, Aside, TranslateBegin, MarkAsync, Operate;
    if own || !m.q.files[f].sync {
      var q := if own then m.q else MarkAsync(m.q, f);
      GotoAside(m, m.(q := TranslateBegin(q, f), log := m.log + [Execute(m.ticket[f], own)]), t, Translating(f, own));
    } else {
      GotoAside(m, m.(q := Operate(m.q, f)), t, Idle);
    }
  }

  lemma StartIoAside(m: Machine, t: nat, inner: bool)
    requires CanStartIo(m, t, inner)
    ensures Aside(m, AfterStartIo(m, t, inner), t)
  {}

  lemma StoreAside(m: Machine, t: nat, ret: FsResult)
    requires CanNotify(m, t) && !m.q.isAsync
    ensures Aside(m, AfterNotify(m, t, ret), t)
  {}

  lemma ReturnAside(m: Machine, t: nat, ret: FsResult)
    requires CanFinish(m, t) && m.q.files[m.pc[t].f].sync && m.pc[t].own
    ensures Aside(m, AfterFinish(m, t, ret), t)
  {
    TranslateEndIs(m.q, m.pc[t].f, ret);
    hide TranslateEnd;
  }

  lemma TakeOverKeeps(q: Queue<FileId>, f: FileId)
    requires f in q.files
    ensures KeepsMarks(q, TakeOver(q, f)) && KeepsMarks(q, q)
  {}

  lemma WaitAside(m: Machine, t: nat, f: FileId)
    requires CanWait(m, t, f)
    ensures Aside(m, AfterWait(m, t, f), t)
  {
    TakeOverKeeps(m.q, f);
    hide KeepsMarks, Aside, TakeOver;
    GotoAside(m, m.(q := TakeOver(m.q, f)), t, AwaitOperating(f));
    GotoAside(m, m, t, AwaitIdle(f));
    GotoAside(m, m, t, Idle);
    assert m.pc[t := Idle] == m.pc;
  }

  lemma CancelDoomed(m: Machine, t: nat, g: FileId, f: FileId, x: nat)
    requires CanCancel(m, t, g) && Doomed(m, f, x)
    ensures Doomed(AfterCancel(m, t, g), f, x)
  {
    if x !in m.dropped && f == m.q.list[0] && m.q.running {
      var u :| 0 <= u < |m.pc| && m.pc[u] == Advancing;
      assert AfterCancel(m, t, g).pc[u] == Advancing;
    }
  }

  lemma IdleAside(m: Machine, t: nat, p: Pc)
    requires t < |m.pc| && m.pc[t] != Advancing && p != Advancing
    ensures Aside(m, Goto(m, t, p), t)
  {}

  lemma SuspendAside(m: Machine, t: nat)
    requires IsIdle(m, t)
    ensures Aside(m, AfterSuspend(m, t), t)
  {}

  lemma LoadAside(m: Machine, t: nat)
    requires IsIdle(m, t)
    ensures Aside(m, m.(q := m.q.(loaded := true)), t)
  {}

  lemma ResumeAside(m: Machine, t: nat)
    requires CanResume(m, t) && !m.q.suspend
    ensures Aside(m, AfterResume(m, t), t)
  {
    var n := AfterResume(m, t);
    assert Lost(m, m.q.list) == {} && m.pc[t := Idle] == m.pc;
    hide Next;
    assert n.q == m.q && n.dropped == m.dropped;
  }

  lemma UnloadAside(m: Machine, k: Token, t: nat)
    requires Inv(m, k) && CanUnload(m, t) && m.q.running
    ensures Aside(m, AfterUnload(m, t), t)
  {
    hide Unload;
  }

  /** Regions that leave the list and the flag of a cancellation alone. */
  predicate KeepsList(m: Machine, a: Action)
    requires Enabled(m, a)
  {
    match a
    case DoEnqueue(_) => false
    case DoNotify(_, _) => !m.q.isAsync
    case DoFinish(t, _) => m.q.files[m.pc[t].f].sync
    case DoRelease(_) => false
    case DoCancel(_, _) => false
    case DoNext(_) => false
    case DoResume(_) => !m.q.suspend
    case DoUnload(_) => m.q.running
    case DoUnloadWake(_) => false
    case _ => true
  }

  lemma AsideStep(m: Machine, k: Token, a: Action)
    requires Inv(m, k) && Enabled(m, a) && KeepsList(m, a)
    ensures Aside(m, Apply(m, a), a.t)
  {
    hide Aside;
    match a
    case DoPrepare(t, f, syncCommand, blocking) => PrepareAside(m, t, f, syncCommand, blocking);
    case DoActivate(t) => ActivateAside(m, t);
    case DoOperate(t) => OperateAside(m, t);
    case DoHandover(t) => IdleAside(m, t, Ready(m.pc[t].f, true));
    case DoTranslate(t) => TranslateAside(m, t);
    case DoStartIo(t, inner) => StartIoAside(m, t, inner);
    case DoNotify(t, ret) => StoreAside(m, t, ret);
    case DoSyncWake(t) => IdleAside(m, t, AfterSyncWake(m, t).pc[t]);
    case DoFinish(t, ret) =>
      FinishControl(m, k, t, ret);
      ReturnAside(m, t, ret);
    case DoWait(t, f) => WaitAside(m, t, f);
    case DoWaitWake(t) => IdleAside(m, t, Idle);
    case DoSuspend(t) => SuspendAside(m, t);
    case DoSuspendWake(t) => IdleAside(m, t, Idle);
    case DoResume(t) => ResumeAside(m, t);
    case DoUnload(t) => UnloadAside(m, k, t);
    case DoLoad(t) => LoadAside(m, t);
  }

  // ---- regions that change the list --------------------------------------------------

  lemma EnqueueDoomed(m: Machine, k: Token, t: nat, f: FileId, x: nat)
    requires Inv(m, k) && CanEnqueue(m, t) && Doomed(m, f, x)
    ensures Doomed(AfterEnqueue(m, t), f, x)
  {
    assert ThreadOk(m.q, m.pc[t]);
    EnqueueJoined(m, t);
    EnqueueRecord(m, t);
    EnqueueCanceling(m, t);
    hide AfterEnqueue, Joined, Inv, Doomed;
    JoinedDoomed(m, k, AfterEnqueue(m, t), t, m.pc[t].f, m.q.files[m.pc[t].f].sync || m.pc[t].syncCommand, f, x);
  }

  lemma JoinedDoomed(m: Machine, k: Token, n: Machine, t: nat, g: FileId, sync: bool, f: FileId, x: nat)
    requires Inv(m, k) && Doomed(m, f, x) && Joined(m, n, t, g, sync) && g !in m.q.list
    requires n.ticket == m.ticket[g := m.nextTicket] && n.dropped == m.dropped && n.q.canceling == m.q.canceling
    ensures Doomed(n, f, x)
  {
    if x !in m.dropped && f == m.q.list[0] && m.q.running {
      var u :| 0 <= u < |m.pc| && m.pc[u] == Advancing;
      assert n.pc[u] == Advancing;
    }
  }

  lemma EnqueueCanceling(m: Machine, t: nat)
    requires CanEnqueue(m, t)
    ensures AfterEnqueue(m, t).q.canceling == m.q.canceling
  {
    hide Without;
  }

  /** The head leaves the list behind its execution: another command is not touched by that. */
  lemma HeadLeaves(m: Machine, k: Token, n: Machine, t: nat, f: FileId, x: nat)
    requires Inv(m, k) && Doomed(m, f, x) && Current(m, k).Some? && m.q.list[0] == Current(m, k).value
    requires n.q.list == Without(m.q.list, m.q.list[0]) && n.ticket == m.ticket && n.dropped == m.dropped
    requires n.q.canceling == m.q.canceling && m.q.list[0] in n.q.files
    requires forall g | g in m.q.files && g != m.q.list[0] :: g in n.q.files && n.q.files[g] == m.q.files[g]
    requires t < |n.pc| && n.pc[t] == Advancing
    ensures Doomed(n, f, x)
  {
    if x !in m.dropped { NotTheHead(m, k, f); }
  }

  lemma NotTheHead(m: Machine, k: Token, f: FileId)
    requires Inv(m, k) && Untouched(m, f) && Current(m, k).Some?
    ensures f != m.q.list[0]
  {}

  /** A sweep or an unload releases every command that is marked, or every command. */
  lemma PickedDoomed(m: Machine, t: nat, p: Pick<FileId>, f: FileId, x: nat)
    requires t < |m.pc| && Doomed(m, f, x) && (x !in m.dropped ==> f !in p.q.list)
    ensures Doomed(Picked(m, t, p), f, x)
  {
    if x !in m.dropped { DroppedTicket(m, p.q.list, f); }
  }

  lemma NextDoomed(m: Machine, t: nat, f: FileId, x: nat)
    requires CanNext(m, t) && Doomed(m, f, x)
    ensures Doomed(AfterNext(m, t), f, x)
  {
    if x !in m.dropped { SweepExact(m.q, f); }
    hide Next;
    PickedDoomed(m, t, Next(m.q), f, x);
  }

  lemma ResumeDoomed(m: Machine, t: nat, f: FileId, x: nat)
    requires CanResume(m, t) && m.q.suspend && Doomed(m, f, x)
    ensures Doomed(AfterResume(m, t), f, x)
  {
    if x !in m.dropped { SweepExact(m.q.(suspend := false), f); }
    hide Next;
    PickedDoomed(m, t, Resume(m.q), f, x);
  }

  lemma UnloadedDoomed(m: Machine, t: nat, resume: bool, f: FileId, x: nat)
    requires t < |m.pc| && ListOk(m.q) && Doomed(m, f, x)
    ensures Doomed(Unloaded(m, t, resume), f, x)
  {
    hide Unload;
    if x !in m.dropped { DroppedTicket(m, [], f); }
  }

  lemma UnloadDoomed(m: Machine, t: nat, f: FileId, x: nat)
    requires CanUnload(m, t) && !m.q.running && Doomed(m, f, x)
    ensures Doomed(AfterUnload(m, t), f, x)
  {
    var s := m.(q := Suspend(m.q).0);
    assert Doomed(s, f, x);
    assert AfterUnload(m, t) == Unloaded(s, t, !m.q.suspend);
    hide Unloaded, AfterUnload, Suspend, Doomed;
    UnloadsDoomed(s, t, !m.q.suspend, f, x);
  }

  lemma UnloadsDoomed(m: Machine, t: nat, resume: bool, f: FileId, x: nat)
    requires t < |m.pc| && ListOk(m.q)
    ensures Doomed(m, f, x) ==> Doomed(Unloaded(m, t, resume), f, x)
  {
    if Doomed(m, f, x) { UnloadedDoomed(m, t, resume, f, x); }
  }

  lemma NotifyDoomed(m: Machine, k: Token, t: nat, ret: FsResult, f: FileId, x: nat)
    requires Inv(m, k) && CanNotify(m, t) && m.q.isAsync && Doomed(m, f, x)
    ensures Doomed(AfterNotify(m, t, ret), f, x)
  {
    NotifyControl(m, k, t, ret);
    HeadLeaves(m, k, AfterNotify(m, t, ret), t, f, x);
  }

  lemma FinishDoomed(m: Machine, k: Token, t: nat, ret: FsResult, f: FileId, x: nat)
    requires Inv(m, k) && CanFinish(m, t) && !m.q.files[m.pc[t].f].sync && Doomed(m, f, x)
    ensures Doomed(AfterFinish(m, t, ret), f, x)
  {
    FinishControl(m, k, t, ret);
    TranslateEndIs(m.q, m.pc[t].f, ret);
    hide TranslateEnd;
    HeadLeaves(m, k, AfterFinish(m, t, ret), t, f, x);
  }

  lemma ReleaseDoomed(m: Machine, k: Token, t: nat, f: FileId, x: nat)
    requires Inv(m, k) && CanRelease(m, t) && Doomed(m, f, x)
    ensures Doomed(AfterRelease(m, t), f, x)
  {
    ReleaseControl(m, k, t);
    HeadLeaves(m, k, AfterRelease(m, t), t, f, x);
  }

  lemma ListStep(m: Machine, k: Token, a: Action, f: FileId, x: nat)
    requires Inv(m, k) && Enabled(m, a) && !KeepsList(m, a) && Doomed(m, f, x)
    ensures Doomed(Apply(m, a), f, x)
  {
    match a
    case DoEnqueue(t) => EnqueueDoomed(m, k, t, f, x);
    case DoNotify(t, ret) => NotifyDoomed(m, k, t, ret, f, x);
    case DoFinish(t, ret) => FinishDoomed(m, k, t, ret, f, x);
    case DoRelease(t) => ReleaseDoomed(m, k, t, f, x);
    case DoCancel(t, g) => CancelDoomed(m, t, g, f, x);
    case DoNext(t) => NextDoomed(m, t, f, x);
    case DoResume(t) => ResumeDoomed(m, t, f, x);
    case DoUnload(t) => UnloadDoomed(m, t, f, x);
    case DoUnloadWake(t) => UnloadedDoomed(m, t, true, f, x);
  }

  lemma DoomedStep(m: Machine, k: Token, a: Action, f: FileId, x: nat)
    requires Inv(m, k) && Enabled(m, a) && Doomed(m, f, x)
    ensures Doomed(Apply(m, a), f, x)
  {
    if KeepsList(m, a) {
      AsideStep(m, k, a);
      hide Enabled, Apply, KeepsList;
      AsideDoomed(m, k, Apply(m, a), a.t, f, x);
    } else {
      ListStep(m, k, a, f, x);
    }
  }

  // ---- over all runs -----------------------------------------------------------------

  lemma {:induction false} DoomedRun(m: Machine, k: Token, run: seq<Action>, n: Machine, f: FileId, x: nat)
    requires Good(m, k) && Runs(m, run, n) && Doomed(m, f, x)
    ensures Doomed(n, f, x)
    decreases |run|
  {
    hide Enabled, Apply, Orderly, Good, Doomed;
    if run != [] {
      GoodIsInv(m, k);
      DoomedStep(m, k, run[0], f, x);
      var l := Step(m, k, run[0]);
      DoomedRun(Apply(m, run[0]), l, run[1..], n, f, x);
    }
  }

  /** A command that is untouched has not been executed. */
  lemma UntouchedWaits(m: Machine, k: Token, f: FileId)
    requires Good(m, k) && Untouched(m, f)
    ensures f in m.ticket && m.ticket[f] !in Executed(m.log) && m.q.files[f].busy
  {
    if Started(m, k) && m.q.list[0] == f { StartedAttended(m, k); }
    UnstartedTicket(m, k, f);
  }

  lemma StartedAttended(m: Machine, k: Token)
    requires Inv(m, k) && Started(m, k)
    ensures !Unattended(m)
  {}

  lemma ExecutedNotDropped(m: Machine, k: Token)
    requires (k.Held? ==> k.t < |m.pc|) && History(m, k)
    ensures forall y | y in Executed(m.log) :: y !in m.dropped
  {
    var e, w := Executed(m.log), Waiting(m, k);
    forall y | y in e
      ensures y !in m.dropped
    {
      assert y in e + w;
    }
  }

  lemma DoomedUnexecuted(m: Machine, k: Token, f: FileId, x: nat)
    requires Good(m, k) && Doomed(m, f, x)
    ensures x !in Executed(m.log)
  {
    ExecutedNotDropped(m, k);
    if x !in m.dropped { UntouchedWaits(m, k, f); }
  }

  lemma CancelDooms(m: Machine, k: Token, t: nat, f: FileId)
    requires Good(m, k) && CanCancel(m, t, f) && Untouched(m, f)
    ensures f in m.ticket && Doomed(AfterCancel(m, t, f), f, m.ticket[f])
  {
    UntouchedWaits(m, k, f);
    if f == m.q.list[0] && m.q.running {
      var u :| 0 <= u < |m.pc| && m.pc[u] == Advancing;
      assert AfterCancel(m, t, f).pc[u] == Advancing;
    }
  }

  /** A queued command that is cancelled while it is in nobody's hands is never executed, in no run: it stays in the
      list until a sweep or an unload releases it. */
  lemma CancelledIsNotExecuted(m: Machine, t: nat, f: FileId, run: seq<Action>, n: Machine)
    requires Reachable(m) && CanCancel(m, t, f) && Untouched(m, f) && Runs(AfterCancel(m, t, f), run, n)
    ensures f in m.ticket && m.ticket[f] !in Executed(n.log)
    ensures m.ticket[f] in n.dropped || (f in n.q.list && f in n.ticket && n.ticket[f] == m.ticket[f])
  {
    var k := ReachableGood(m);
    CancelDooms(m, k, t, f);
    var l := CancelGood(m, k, t, f);
    DoomedRun(AfterCancel(m, t, f), l, run, n, f, m.ticket[f]);
    var e := EveryRun(AfterCancel(m, t, f), l, run, n);
    DoomedUnexecuted(n, e, f, m.ticket[f]);
  }

  lemma {:induction false} RunsJoin(m: Machine, a: seq<Action>, n: Machine, b: seq<Action>, p: Machine)
    ensures Runs(m, a, n) && Runs(n, b, p) ==> Runs(m, a + b, p)
    decreases |a|
  {
    hide Enabled, Apply, Orderly;
    if Runs(m, a, n) && Runs(n, b, p) {
      if a == [] {
        assert a + b == b;
      } else {
        assert (a + b)[1..] == a[1..] + b;
        RunsJoin(Apply(m, a[0]), a[1..], n, b, p);
      }
    }
  }

  /** When it is no longer BUSY, and no other command has been sent with the file, the file shows CANCELED. */
  lemma CancelledShowsCanceled(m0: Machine, before: seq<Action>, m: Machine, t: nat, f: FileId, run: seq<Action>,
                               n: Machine)
    requires Initial(m0) && Runs(m0, before, m) && CanCancel(m, t, f) && Untouched(m, f)
    requires Runs(AfterCancel(m, t, f), run, n) && f in m.ticket
    requires f in n.q.files && !n.q.files[f].busy && f in n.ticket && n.ticket[f] == m.ticket[f]
    ensures n.q.files[f].error == Canceled
  {
    assert Reachable(m);
    CancelledIsNotExecuted(m, t, f, run, n);
    var c := [DoCancel(t, f)];
    assert c[1..] == [] && Runs(AfterCancel(m, t, f), [], AfterCancel(m, t, f));
    assert Runs(m, c, AfterCancel(m, t, f));
    hide Runs, AfterCancel, Initial, Untouched;
    RunsJoin(m0, before, m, c, AfterCancel(m, t, f));
    RunsJoin(m0, before + c, AfterCancel(m, t, f), run, n);
    EndedUnlisted(m0, before + c + run, n, f);
  }

  lemma EndedUnlisted(m0: Machine, run: seq<Action>, n: Machine, f: FileId)
    ensures Initial(m0) && Runs(m0, run, n) && f in n.q.files && !n.q.files[f].busy && f in n.ticket ==>
      f !in n.q.list && (n.ticket[f] in n.dropped ==> n.q.files[f].error == Canceled)
  {
    if Initial(m0) && Runs(m0, run, n) && f in n.q.files && !n.q.files[f].busy && f in n.ticket {
      EndsAsReported(m0, run, n, f);
      InitialGood(m0);
      var l := EveryRun(m0, Free, run, n);
      GoodIsInv(n, l);
    }
  }

  // ---- what is not cancelled ---------------------------------------------------------

  lemma LogGrows(m: Machine, k: Token, a: Action)
    requires Inv(m, k) && Enabled(m, a)
    ensures m.log <= Apply(m, a).log
  {
    if a.DoEnqueue? {
      EnqueueRecord(m, a.t);
    } else if a.DoTranslate? {
      TranslateShape(m, k, a.t);
    } else {
      ModesKept(m, a);
    }
  }

  lemma {:induction false} ExecutedGrows(a: seq<Event>, b: seq<Event>)
    requires a <= b
    ensures forall x | x in Executed(a) :: x in Executed(b)
    decreases |b|
  {
    if a != b {
      var c := b[..|b| - 1];
      assert a <= c;
      ExecutedGrows(a, c);
    }
  }

  /** The command with ticket `x` is the head and in somebody's hands, or it has been executed. */
  ghost predicate InHands(m: Machine, f: FileId, x: nat) {
    || x in Executed(m.log)
    || (m.q.list != [] && f == m.q.list[0] && f in m.ticket && m.ticket[f] == x && !Unattended(m))
  }

  lemma AsideInHands(m: Machine, n: Machine, t: nat, f: FileId, x: nat)
    requires Aside(m, n, t) && m.log <= n.log && InHands(m, f, x)
    ensures InHands(n, f, x)
  {
    ExecutedGrows(m.log, n.log);
    if x !in Executed(m.log) {
      forall u | 0 <= u < |n.pc|
        ensures n.pc[u] != Advancing
      {
        if u != t { assert n.pc[u] == m.pc[u]; }
      }
    }
  }

  lemma ListInHands(m: Machine, k: Token, a: Action, f: FileId, x: nat)
    requires Good(m, k) && Enabled(m, a) && Orderly(m, a) && !KeepsList(m, a) && !a.DoEnqueue? && !a.DoCancel?
    requires InHands(m, f, x)
    ensures x in Executed(m.log)
  {
    match a
    case DoNotify(t, ret) => NotifyControl(m, k, t, ret);
    case DoFinish(t, ret) => FinishControl(m, k, t, ret);
    case DoRelease(t) => ReleaseControl(m, k, t);
    case _ =>
  }

  lemma EnqueueInHands(m: Machine, k: Token, t: nat, f: FileId, x: nat)
    requires Inv(m, k) && CanEnqueue(m, t) && InHands(m, f, x)
    ensures InHands(AfterEnqueue(m, t), f, x)
  {
    assert ThreadOk(m.q, m.pc[t]);
    EnqueueJoined(m, t);
    EnqueueRecord(m, t);
    hide AfterEnqueue;
    var n := AfterEnqueue(m, t);
    forall u | 0 <= u < |n.pc|
      ensures n.pc[u] == Advancing ==> m.pc[u] == Advancing
    {
      if u != t { assert n.pc[u] == m.pc[u]; }
    }
  }

  lemma CancelInHands(m: Machine, t: nat, g: FileId, f: FileId, x: nat)
    requires CanCancel(m, t, g) && InHands(m, f, x)
    ensures InHands(AfterCancel(m, t, g), f, x)
  {
    assert AfterCancel(m, t, g).pc == m.pc;
  }

  lemma InHandsStep(m: Machine, k: Token, a: Action, f: FileId, x: nat)
    requires Good(m, k) && Enabled(m, a) && Orderly(m, a) && InHands(m, f, x)
    ensures InHands(Apply(m, a), f, x)
  {
    LogGrows(m, k, a);
    if a.DoEnqueue? {
      EnqueueInHands(m, k, a.t, f, x);
    } else if a.DoCancel? {
      CancelInHands(m, a.t, a.f, f, x);
    } else if KeepsList(m, a) {
      AsideStep(m, k, a);
      hide Enabled, Apply, KeepsList;
      AsideInHands(m, Apply(m, a), a.t, f, x);
    } else {
      ListInHands(m, k, a, f, x);
      hide Enabled, Apply, KeepsList;
      ExecutedGrows(m.log, Apply(m, a).log);
    }
  }

  lemma {:induction false} InHandsRun(m: Machine, k: Token, run: seq<Action>, n: Machine, f: FileId, x: nat)
    requires Good(m, k) && Runs(m, run, n) && InHands(m, f, x)
    ensures InHands(n, f, x)
    decreases |run|
  {
    hide Enabled, Apply, Orderly, Good, InHands;
    if run != [] {
      InHandsStep(m, k, run[0], f, x);
      var l := Step(m, k, run[0]);
      InHandsRun(Apply(m, run[0]), l, run[1..], n, f, x);
    }
  }

  /** The other half: a queued command that is in somebody's hands is not released by any cancellation or unload; it
      leaves the list executed. */
  lemma InHandsIsExecuted(m: Machine, f: FileId, run: seq<Action>, n: Machine)
    requires Reachable(m) && f in m.q.list && !Untouched(m, f) && Runs(m, run, n)
    ensures f in m.ticket && m.ticket[f] !in n.dropped
    ensures m.ticket[f] in Executed(n.log) || (n.q.list != [] && n.q.list[0] == f)
  {
    var k := ReachableGood(m);
    InHandsRun(m, k, run, n, f, m.ticket[f]);
    var l := EveryRun(m, k, run, n);
    ExecutedNotDropped(n, l);
    if m.ticket[f] !in Executed(n.log) { HeadNotDropped(n, l, f); }
  }

  lemma HeadNotDropped(m: Machine, k: Token, f: FileId)
    requires Good(m, k) && m.q.list != [] && f == m.q.list[0] && m.ticket[f] !in Executed(m.log)
    ensures m.ticket[f] !in m.dropped
  {
    assert !Started(m, k);
    var e, w := Executed(m.log), Waiting(m, k);
    assert w[0] == m.ticket[f] && w[0] in e + w;
  }

  /** A command that is cancelled between the call of FSi_SendCommand and its first region is doomed exactly if
      CANCELING is still set in that region and the command does not start in it. */
  lemma CancelledBeforeQueued(m: Machine, t: nat)
    requires Reachable(m) && CanEnqueue(m, t) && m.q.files[m.pc[t].f].cancel
    ensures Doomed(AfterEnqueue(m, t), m.pc[t].f, m.nextTicket) <==> m.q.canceling && (m.q.running || m.q.suspend)
  {
    var k := ReachableGood(m);
    var f, n := m.pc[t].f, AfterEnqueue(m, t);
    assert ThreadOk(m.q, m.pc[t]);
    EnqueueJoined(m, t);
    EnqueueRecord(m, t);
    EnqueueCanceling(m, t);
    QueuedUntouched(m, k, n, t, f, m.q.files[f].sync || m.pc[t].syncCommand);
    hide AfterEnqueue;
    assert m.nextTicket !in m.dropped;
  }

  lemma QueuedUntouched(m: Machine, k: Token, n: Machine, t: nat, f: FileId, sync: bool)
    requires Inv(m, k) && Joined(m, n, t, f, sync) && f !in m.q.list
    ensures Untouched(n, f) <==> m.q.running || m.q.suspend
  {
    if m.q.running {
      if m.q.list == [] {
        assert k.Held? && m.pc[k.t] == Advancing;
        assert n.pc[k.t] == Advancing;
      } else {
        assert n.q.list[0] == m.q.list[0];
      }
    } else if !m.q.suspend {
      forall u | 0 <= u < |n.pc|
        ensures n.pc[u] != Advancing
      {
        if u != t { assert !Executing(m.pc[u]) && n.pc[u] == m.pc[u]; }
      }
    }
  }

  /** Without CANCELING, and until the next cancellation or unload, a region drops nothing, marked or not. */
  lemma SparesStep(m: Machine, k: Token, a: Action)
    requires Inv(m, k) && Enabled(m, a) && !m.q.canceling && !a.DoCancel? && !a.DoUnload? && !a.DoUnloadWake?
    ensures Apply(m, a).dropped == m.dropped && !Apply(m, a).q.canceling
  {
    if KeepsList(m, a) {
      AsideStep(m, k, a);
      hide Enabled, Apply;
    } else {
      match a
      case DoEnqueue(t) =>
        EnqueueRecord(m, t);
        EnqueueCanceling(m, t);
      case DoNotify(_, _) =>
      case DoFinish(t, ret) =>
        TranslateEndIs(m.q, m.pc[t].f, ret);
        hide TranslateEnd;
      case DoRelease(_) =>
      case DoNext(t) => NothingSwept(m, t, m.q);
      case DoResume(t) => NothingSwept(m, t, m.q.(suspend := false));
    }
  }

  lemma NothingSwept(m: Machine, t: nat, q: Queue<FileId>)
    requires t < |m.pc| && ListOk(q) && q.list == m.q.list && !q.canceling
    ensures Picked(m, t, Next(q)).dropped == m.dropped && !Next(q).q.canceling
  {
    NextIsSweep(q);
    assert Sweep(q) == q;
    assert Lost(m, m.q.list) == {};
  }

  /** So without another cancellation or unload, such a command is executed or still queued. */
  lemma {:induction false} NotSwept(m: Machine, k: Token, run: seq<Action>, n: Machine)
    requires Good(m, k) && Runs(m, run, n) && !m.q.canceling
    requires forall i | 0 <= i < |run| :: !run[i].DoCancel? && !run[i].DoUnload? && !run[i].DoUnloadWake?
    ensures n.dropped == m.dropped
    decreases |run|
  {
    hide Enabled, Apply, Orderly, Good;
    if run != [] {
      GoodIsInv(m, k);
      SparesStep(m, k, run[0]);
      var l := Step(m, k, run[0]);
      NotSwept(Apply(m, run[0]), l, run[1..], n);
    }
  }
}
