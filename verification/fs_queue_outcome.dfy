/** Which result a command ends with: the one that was reported for it last, by the completion of its access or by
    its command function, and CANCELED for a command that was released unexecuted. */
module QueueOutcome {
  import opened Basics
  import opened CommandQueue
  import opened QueueMachine
  import opened QueueSafety
  import opened QueueRuns
  import opened QueueTheorems
  import opened QueueControl

  // ---- what is reported --------------------------------------------------------------

  /** The record of the last report for each ticket, behind region `a`: FS_NotifyArchiveAsyncEnd reports on the head
      of the list, a command function on its command; the tickets that a sweep or an unload drops are CANCELED. */
  function Reported(m: Machine, a: Action, rep: map<nat, FsResult>): map<nat, FsResult>
    requires Enabled(m, a)
  {
    match a
    case DoNotify(_, ret) => Report(m, m.q.list[0], ret, rep)
    case DoFinish(t, ret) => Report(m, m.pc[t].f, ret, rep)
    case _ => WithDropped(m, Apply(m, a), rep)
  }

  /** `rep` with the tickets that the region has dropped. */
  function WithDropped(m: Machine, n: Machine, rep: map<nat, FsResult>): map<nat, FsResult> {
    rep + map x | x in n.dropped && x !in m.dropped :: Canceled
  }

  function Report(m: Machine, f: FileId, ret: FsResult, rep: map<nat, FsResult>): map<nat, FsResult> {
    if f in m.ticket then rep[m.ticket[f] := ret] else rep
  }

  /** The record at the end of a run. */
  ghost function Record(m: Machine, run: seq<Action>, n: Machine, rep: map<nat, FsResult>): map<nat, FsResult>
    requires Runs(m, run, n)
    decreases |run|
  {
    if run == [] then rep else Record(Apply(m, run[0]), run[1..], n, Reported(m, run[0], rep))
  }

  // ---- the invariant -----------------------------------------------------------------

  /** The last report for the last ticket of `f` is `ret`. */
  ghost predicate Says(m: Machine, rep: map<nat, FsResult>, f: FileId, ret: FsResult) {
    f in m.ticket && m.ticket[f] in rep && rep[m.ticket[f]] == ret
  }

  ghost predicate OneTicketEach(m: Machine) {
    && (forall f | f in m.ticket :: m.ticket[f] < m.nextTicket)
    && forall f, g | f in m.ticket && g in m.ticket && f != g :: m.ticket[f] != m.ticket[g]
  }

  /** A file whose command has ended shows the report on it. */
  ghost predicate EndedOk(m: Machine, rep: map<nat, FsResult>) {
    forall f | f in m.q.files && f in m.ticket && !m.q.files[f].busy :: Says(m, rep, f, m.q.files[f].error)
  }

  /** So does a thread that is about to release it, or to return what its access has stored. */
  ghost predicate ThreadSays(m: Machine, rep: map<nat, FsResult>, pc: Pc) {
    && (pc.Releasing? ==> Says(m, rep, pc.f, pc.ret))
    && (pc.AwaitSync? && !pc.inner && !m.q.isSync ==> pc.f in m.q.files && Says(m, rep, pc.f, m.q.files[pc.f].error))
  }

  ghost predicate ThreadsSay(m: Machine, rep: map<nat, FsResult>) {
    forall t | 0 <= t < |m.pc| :: ThreadSays(m, rep, m.pc[t])
  }

  ghost predicate DroppedOk(m: Machine, rep: map<nat, FsResult>) {
    forall x | x in m.dropped :: x < m.nextTicket && x in rep && rep[x] == Canceled
  }

  ghost predicate Told(m: Machine, rep: map<nat, FsResult>) {
    OneTicketEach(m) && EndedOk(m, rep) && ThreadsSay(m, rep) && DroppedOk(m, rep)
  }

  // ---- regions that end nothing ------------------------------------------------------

  /** A command that has not ended has not ended, and what is stored for it is still stored. */
  ghost predicate SameResults(q: Queue<FileId>, r: Queue<FileId>) {
    && r.files.Keys == q.files.Keys && (q.isSync ==> r.isSync)
    && forall f | f in q.files ::
         if q.files[f].busy then r.files[f].busy && r.files[f].error == q.files[f].error
         else r.files[f].busy || r.files[f] == q.files[f]
  }

  /** No command ends, and no stored result changes. */
  ghost predicate Steady(m: Machine, n: Machine, t: nat) {
    && n.ticket == m.ticket && n.nextTicket == m.nextTicket && n.dropped == m.dropped && SameResults(m.q, n.q)
    && t < |m.pc| == |n.pc| && n.pc == m.pc[t := n.pc[t]]
    && !n.pc[t].Releasing? && (n.pc[t].AwaitSync? ==> n.q.isSync)
  }

  lemma GotoSteady(m: Machine, x: Machine, t: nat, p: Pc)
    requires t < |m.pc| && x.pc == m.pc && !p.Releasing? && (p.AwaitSync? ==> x.q.isSync)
    requires x.ticket == m.ticket && x.nextTicket == m.nextTicket && x.dropped == m.dropped
    ensures SameResults(m.q, x.q) ==> Steady(m, Goto(x, t, p), t)
  {}

  /** The file of an executing thread is in the list. */
  lemma ExecutorBusy(m: Machine, k: Token, u: nat)
    requires Inv(m, k) && u < |m.pc| && (m.pc[u].Releasing? || m.pc[u].AwaitSync?)
    ensures k == Held(u) && m.q.list != [] && m.q.list[0] == m.pc[u].f
    ensures m.pc[u].f in m.q.files && m.q.files[m.pc[u].f].busy
  {
    assert k == Held(u);
  }

  lemma SteadyTold(m: Machine, k: Token, n: Machine, t: nat, rep: map<nat, FsResult>)
    requires Inv(m, k) && Steady(m, n, t) && Told(m, rep)
    ensures Told(n, rep)
  {
    forall u | 0 <= u < |n.pc|
      ensures ThreadSays(n, rep, n.pc[u])
    {
      if u != t {
        assert n.pc[u] == m.pc[u] && ThreadSays(m, rep, m.pc[u]);
        if m.pc[u].Releasing? || m.pc[u].AwaitSync? { ExecutorBusy(m, k, u); }
      }
    }
  }

  lemma PrepareSteady(m: Machine, t: nat, f: FileId, syncCommand: bool, blocking: bool)
    requires CanPrepare(m, t, f)
    ensures Steady(m, AfterPrepare(m, t, f, syncCommand, blocking), t)
  {}

  lemma ActivateSteady(m: Machine, t: nat)
    requires CanActivate(m, t)
    ensures Steady(m, AfterActivate(m, t), t)
  {}

  lemma OperateSteady(m: Machine, t: nat)
    requires CanOperate(m, t) && m.q.files[m.pc[t].f].busy
    ensures Steady(m, AfterOperate(m, t), t)
  {}

  lemma HandoverSteady(m: Machine, t: nat)
    requires CanHandover(m, t)
    ensures Steady(m, AfterHandover(m, t), t)
  {}

  lemma OperateSame(q: Queue<FileId>, f: FileId)
    requires f in q.files && q.files[f].busy
    ensures SameResults(q, Operate(q, f))
  {}

  lemma MarkSame(q: Queue<FileId>, f: FileId)
    requires f in q.files && q.files[f].busy
    ensures SameResults(q, MarkAsync(q, f)) && SameResults(q, q)
  {}

  lemma BeginSame(p: Queue<FileId>, q: Queue<FileId>, f: FileId)
    requires f in q.files
    ensures SameResults(p, q) ==> SameResults(p, TranslateBegin(q, f))
  {}

  lemma TranslateSteady(m: Machine, t: nat)
    requires CanTranslate(m, t) && m.q.files[m.pc[t].f].busy
    ensures Steady(m, AfterTranslate(m, t), t)
  {
    var f, own := m.pc[t].f, m.pc[t].own;
    OperateSame(m.q, f);
    MarkSame(m.q, f);
    BeginSame(m.q, m.q, f);
    BeginSame(m.q, MarkAsync(m.q, f), f);
    hide SameResults, Steady, TranslateBegin, MarkAsync, Operate;
    if own || !m.q.files[f].sync {
      var q := if own then m.q else MarkAsync(m.q, f);
      var x := m.(q := TranslateBegin(q, f), log := m.log + [Execute(m.ticket[f], own)]);
      GotoSteady(m, x, t, Translating(f, own));
    } else {
      GotoSteady(m, m.(q := Operate(m.q, f)), t, Idle);
    }
  }

  lemma StartIoSteady(m: Machine, t: nat, inner: bool)
    requires CanStartIo(m, t, inner)
    ensures Steady(m, AfterStartIo(m, t, inner), t)
  {}

  lemma TakeOverSame(q: Queue<FileId>, f: FileId)
    requires f in q.files && q.files[f].busy
    ensures SameResults(q, TakeOver(q, f)) && SameResults(q, q)
  {}

  lemma WaitSteady(m: Machine, t: nat, f: FileId)
    requires CanWait(m, t, f)
    ensures Steady(m, AfterWait(m, t, f), t)
  {
    if m.q.files[f].busy {
      TakeOverSame(m.q, f);
      hide SameResults, Steady, TakeOver;
      GotoSteady(m, m.(q := TakeOver(m.q, f)), t, AwaitOperating(f));
      GotoSteady(m, m, t, AwaitIdle(f));
    }
  }

  lemma CancelSteady(m: Machine, t: nat, f: FileId)
    requires CanCancel(m, t, f)
    ensures Steady(m, AfterCancel(m, t, f), t)
  {}

  lemma IdleSteady(m: Machine, t: nat)
    requires t < |m.pc|
    ensures Steady(m, Goto(m, t, Idle), t)
  {}

  lemma SuspendSteady(m: Machine, t: nat)
    requires IsIdle(m, t)
    ensures Steady(m, AfterSuspend(m, t), t)
  {}

  lemma LoadSteady(m: Machine, t: nat)
    requires IsIdle(m, t)
    ensures Steady(m, m.(q := m.q.(loaded := true)), t)
  {}

  // ---- regions that end a command ----------------------------------------------------

  lemma EnqueueTold(m: Machine, k: Token, t: nat, rep: map<nat, FsResult>)
    requires Inv(m, k) && CanEnqueue(m, t) && Told(m, rep)
    ensures Told(AfterEnqueue(m, t), rep)
  {
    EnqueueJoined(m, t);
    EnqueueRecord(m, t);
    hide AfterEnqueue;
    JoinedTold(m, k, AfterEnqueue(m, t), t, m.pc[t].f, m.q.files[m.pc[t].f].sync || m.pc[t].syncCommand, rep);
  }

  lemma JoinedTold(m: Machine, k: Token, n: Machine, t: nat, f: FileId, sync: bool, rep: map<nat, FsResult>)
    requires Inv(m, k) && Told(m, rep) && Joined(m, n, t, f, sync) && n.dropped == m.dropped
    requires n.ticket == m.ticket[f := m.nextTicket] && n.nextTicket == m.nextTicket + 1
    ensures Told(n, rep)
  {
    assert ThreadOk(m.q, m.pc[t]);
    forall u | 0 <= u < |n.pc|
      ensures ThreadSays(n, rep, n.pc[u])
    {
      if u != t {
        assert n.pc[u] == m.pc[u] && ThreadSays(m, rep, m.pc[u]);
        if m.pc[u].Releasing? || m.pc[u].AwaitSync? {
          ExecutorBusy(m, k, u);
          assert Client(m.pc[u]) != Client(m.pc[t]);
        }
      }
    }
  }

  /** `f` has been released with the result that was reported for it. */
  lemma ReleaseTold(m: Machine, n: Machine, t: nat, f: FileId, ret: FsResult, rep: map<nat, FsResult>)
    requires Told(m, rep) && f in m.ticket && f in m.q.files && Says(m, rep, f, ret)
    requires n.ticket == m.ticket && n.nextTicket == m.nextTicket && n.dropped == m.dropped
    requires n.q.files == m.q.files[f := Released(ret)]
    requires t < |m.pc| == |n.pc| && n.pc == m.pc[t := n.pc[t]] && !n.pc[t].Releasing? && !n.pc[t].AwaitSync?
    requires forall u | 0 <= u < |m.pc| && u != t :: !m.pc[u].Releasing? && !m.pc[u].AwaitSync?
    ensures Told(n, rep)
  {}

  /** A new report for a command that has not ended. */
  lemma ReportTold(m: Machine, f: FileId, ret: FsResult, rep: map<nat, FsResult>)
    requires Told(m, rep) && f in m.ticket && f in m.q.files && m.q.files[f].busy && m.ticket[f] !in m.dropped
    requires forall u | 0 <= u < |m.pc| :: !m.pc[u].Releasing? && !(m.pc[u].AwaitSync? && !m.pc[u].inner && !m.q.isSync)
    ensures Told(m, Report(m, f, ret, rep)) && Says(m, Report(m, f, ret, rep), f, ret)
  {}

  /** The head of the list is in the hands of the token and has its ticket. */
  lemma HeadOfRecord(m: Machine, k: Token)
    requires Inv(m, k) && History(m, k) && Started(m, k)
    ensures m.q.list != [] && m.q.list[0] in m.ticket && m.q.list[0] in m.q.files
    ensures m.q.files[m.q.list[0]].busy && m.ticket[m.q.list[0]] !in m.dropped
  {
    assert Underway(m);
    var e := Executed(m.log);
    assert e[|e| - 1] in e + Waiting(m, k);
  }

  lemma NotifyQueue(q: Queue<FileId>, ret: FsResult)
    requires ListOk(q) && q.list != []
    ensures var r, f := Notify(q, ret), q.list[0];
      if q.isAsync then r.files == q.files[f := Released(ret)] && r.isSync == q.isSync
      else r.files == q.files[f := q.files[f].(error := ret)] && !r.isSync
  {}

  lemma NotifyFiles(m: Machine, t: nat, ret: FsResult)
    requires CanNotify(m, t)
    ensures var n, f := AfterNotify(m, t, ret), m.q.list[0];
      && n.ticket == m.ticket && n.nextTicket == m.nextTicket && n.dropped == m.dropped && f in m.q.files
      && n.q.files == m.q.files[f := if m.q.isAsync then Released(ret) else m.q.files[f].(error := ret)]
      && n.pc == m.pc[t := if m.q.isAsync then Advancing else Idle]
  {
    NotifyQueue(m.q, ret);
    hide Notify;
  }

  lemma NotifyTold(m: Machine, k: Token, t: nat, ret: FsResult, rep: map<nat, FsResult>)
    requires Good(m, k) && CanNotify(m, t) && Told(m, rep)
    ensures Told(AfterNotify(m, t, ret), Report(m, m.q.list[0], ret, rep))
  {
    NotifyControl(m, k, t, ret);
    HeadOfRecord(m, k);
    NotifyFiles(m, t, ret);
    ReportTold(m, m.q.list[0], ret, rep);
    hide AfterNotify;
    NotifyEither(m, AfterNotify(m, t, ret), k, t, m.q.list[0], ret, Report(m, m.q.list[0], ret, rep));
  }

  lemma NotifyEither(m: Machine, n: Machine, k: Token, t: nat, f: FileId, ret: FsResult, rep: map<nat, FsResult>)
    requires Inv(m, k) && CanNotify(m, t) && f == m.q.list[0]
    requires f in m.q.files && m.q.files[f].busy
    requires n.ticket == m.ticket && n.nextTicket == m.nextTicket && n.dropped == m.dropped
    requires n.q.files == m.q.files[f := if m.q.isAsync then Released(ret) else m.q.files[f].(error := ret)]
    requires n.pc == m.pc[t := if m.q.isAsync then Advancing else Idle]
    ensures Told(m, rep) && Says(m, rep, f, ret) ==> Told(n, rep)
  {
    if Told(m, rep) && Says(m, rep, f, ret) {
      if m.q.isAsync {
        ReleaseTold(m, n, t, f, ret, rep);
      } else {
        StoredTold(m, n, k, t, f, ret, rep);
      }
    }
  }

  /** The result is stored for the thread that waits for it. */
  lemma StoredTold(m: Machine, n: Machine, k: Token, t: nat, f: FileId, ret: FsResult, rep: map<nat, FsResult>)
    requires Inv(m, k) && Told(m, rep) && f in m.q.files && m.q.files[f].busy && Says(m, rep, f, ret)
    requires m.q.list != [] && f == m.q.list[0]
    requires n.ticket == m.ticket && n.nextTicket == m.nextTicket && n.dropped == m.dropped
    requires n.q.files == m.q.files[f := m.q.files[f].(error := ret)]
    requires t < |m.pc| == |n.pc| && n.pc == m.pc[t := Idle]
    requires forall u | 0 <= u < |m.pc| :: !m.pc[u].Releasing?
    ensures Told(n, rep)
  {
    forall u | 0 <= u < |n.pc|
      ensures ThreadSays(n, rep, n.pc[u])
    {
      if u != t && m.pc[u].AwaitSync? { ExecutorBusy(m, k, u); }
    }
  }

  lemma FinishFiles(m: Machine, t: nat, ret: FsResult)
    requires CanFinish(m, t) && m.pc[t].own == m.q.files[m.pc[t].f].sync
    ensures var n, f := AfterFinish(m, t, ret), m.pc[t].f;
      && n.ticket == m.ticket && n.nextTicket == m.nextTicket && n.dropped == m.dropped
      && n.q.files == m.q.files[f := if m.pc[t].own then m.q.files[f].(error := ret) else Released(ret)]
      && n.pc == m.pc[t := if m.pc[t].own then Releasing(f, ret) else Advancing]
  {
    TranslateEndIs(m.q, m.pc[t].f, ret);
    hide TranslateEnd;
  }

  lemma FinishTold(m: Machine, k: Token, t: nat, ret: FsResult, rep: map<nat, FsResult>)
    requires Good(m, k) && CanFinish(m, t) && Told(m, rep)
    ensures Told(AfterFinish(m, t, ret), Report(m, m.pc[t].f, ret, rep))
  {
    FinishControl(m, k, t, ret);
    HeadOfRecord(m, k);
    FinishFiles(m, t, ret);
    ReportTold(m, m.pc[t].f, ret, rep);
    hide AfterFinish;
    FinishEither(m, AfterFinish(m, t, ret), k, t, m.pc[t].f, ret, Report(m, m.pc[t].f, ret, rep));
  }

  lemma FinishEither(m: Machine, n: Machine, k: Token, t: nat, f: FileId, ret: FsResult, rep: map<nat, FsResult>)
    requires TokenOk(m, k) && k == Held(t) && t < |m.pc| && m.pc[t].Translating?
    requires f in m.q.files && m.q.files[f].busy
    requires n.ticket == m.ticket && n.nextTicket == m.nextTicket && n.dropped == m.dropped
    requires n.q.files == m.q.files[f := if m.pc[t].own then m.q.files[f].(error := ret) else Released(ret)]
    requires n.pc == m.pc[t := if m.pc[t].own then Releasing(f, ret) else Advancing]
    ensures Told(m, rep) && Says(m, rep, f, ret) ==> Told(n, rep)
  {
    if Told(m, rep) && Says(m, rep, f, ret) {
      if m.pc[t].own {
        ReturnedTold(m, n, k, t, f, ret, rep);
      } else {
        ReleaseTold(m, n, t, f, ret, rep);
      }
    }
  }

  lemma ReturnedTold(m: Machine, n: Machine, k: Token, t: nat, f: FileId, ret: FsResult, rep: map<nat, FsResult>)
    requires Told(m, rep) && f in m.q.files && m.q.files[f].busy && Says(m, rep, f, ret) && k == Held(t)
    requires TokenOk(m, k)
    requires n.ticket == m.ticket && n.nextTicket == m.nextTicket && n.dropped == m.dropped
    requires n.q.files == m.q.files[f := m.q.files[f].(error := ret)]
    requires t < |m.pc| == |n.pc| && n.pc == m.pc[t := Releasing(f, ret)]
    ensures Told(n, rep)
  {}

  lemma SyncWakeTold(m: Machine, k: Token, t: nat, rep: map<nat, FsResult>)
    requires Inv(m, k) && CanSyncWake(m, t) && Told(m, rep)
    ensures Told(AfterSyncWake(m, t), rep)
  {
    assert ThreadSays(m, rep, m.pc[t]);
    if m.pc[t].inner { SteadyTold(m, k, AfterSyncWake(m, t), t, rep); }
  }

  lemma HeldRelease(m: Machine, k: Token, t: nat, rep: map<nat, FsResult>)
    requires Inv(m, k) && CanRelease(m, t) && Told(m, rep)
    ensures Told(AfterRelease(m, t), rep)
  {
    var n, f, ret := AfterRelease(m, t), m.pc[t].f, m.pc[t].ret;
    assert ThreadSays(m, rep, m.pc[t]);
    assert k == Held(t);
    ReleaseTold(m, n, t, f, ret, rep);
  }

  // ---- regions that release unexecuted commands --------------------------------------

  /** The files that leave the list are released with CANCELED, the others stay as they are. */
  ghost predicate Dismissed(q: Queue<FileId>, r: Queue<FileId>) {
    && r.files.Keys == q.files.Keys && (forall f | f in r.list :: f in q.list)
    && forall f | f in q.files :: r.files[f] == if f in q.list && f !in r.list then Released(Canceled) else q.files[f]
  }

  lemma SweepDismisses(q: Queue<FileId>)
    requires ListOk(q)
    ensures Dismissed(q, Sweep(q))
  {}

  lemma NextDismisses(q: Queue<FileId>)
    requires ListOk(q)
    ensures Dismissed(q, Next(q).q)
  {
    SweepDismisses(q);
    NextIsSweep(q);
    hide Next, Sweep;
  }

  lemma NextIsSweep(q: Queue<FileId>)
    requires ListOk(q)
    ensures Next(q).q.list == Sweep(q).list && Next(q).q.files == Sweep(q).files
  {
    assert Next(q).q.list == Sweep(q).list;
  }

  lemma UnloadDismisses(q: Queue<FileId>, resume: bool)
    requires ListOk(q)
    ensures Dismissed(q, Unload(q, resume)) && Unload(q, resume).list == []
  {}

  lemma DismissedTold(m: Machine, n: Machine, t: nat, rep: map<nat, FsResult>, now: map<nat, FsResult>)
    requires Told(m, rep) && Dismissed(m.q, n.q) && (forall f | f in m.q.list :: f in m.ticket && f in m.q.files)
    requires forall f | f in m.q.list :: m.q.files[f].busy
    requires n.ticket == m.ticket && n.nextTicket == m.nextTicket && n.dropped == m.dropped + Lost(m, n.q.list)
    requires now == WithDropped(m, n, rep)
    requires t < |m.pc| == |n.pc| && n.pc == m.pc[t := n.pc[t]] && !n.pc[t].Releasing? && !n.pc[t].AwaitSync?
    requires forall u | 0 <= u < |m.pc| && u != t :: !m.pc[u].Releasing? && !m.pc[u].AwaitSync?
    ensures Told(n, now)
  {
    forall f | f in n.q.files && f in n.ticket && !n.q.files[f].busy
      ensures Says(n, now, f, n.q.files[f].error)
    {
      if f in m.q.list {
        assert m.ticket[f] in Lost(m, n.q.list);
      } else {
        assert Says(m, rep, f, m.q.files[f].error);
        assert m.ticket[f] !in Lost(m, n.q.list);
      }
    }
    forall x | x in n.dropped
      ensures x < n.nextTicket && x in now && now[x] == Canceled
    {}
  }

  /** While nobody executes a command, nobody is about to return one. */
  lemma NobodyReturns(m: Machine, k: Token, t: nat)
    requires Inv(m, k) && (k == Free || (k.Held? && m.pc[k.t] == Advancing))
    ensures forall u | 0 <= u < |m.pc| :: !m.pc[u].Releasing? && !m.pc[u].AwaitSync?
  {
    forall u | 0 <= u < |m.pc|
      ensures !m.pc[u].Releasing? && !m.pc[u].AwaitSync?
    {
      if Executing(m.pc[u]) { assert k == Held(u); }
    }
  }

  lemma PickedTold(m: Machine, k: Token, t: nat, p: Pick<FileId>, rep: map<nat, FsResult>, now: map<nat, FsResult>)
    requires Good(m, k) && t < |m.pc| && Told(m, rep) && (k == Free || (k.Held? && m.pc[k.t] == Advancing))
    requires now == WithDropped(m, Picked(m, t, p), rep)
    ensures Dismissed(m.q, p.q) ==> Told(Picked(m, t, p), now)
  {
    NobodyReturns(m, k, t);
    hide Dismissed, Told;
    if Dismissed(m.q, p.q) { PickedDismissed(m, t, p, rep, now); }
  }

  lemma PickedDismissed(m: Machine, t: nat, p: Pick<FileId>, rep: map<nat, FsResult>, now: map<nat, FsResult>)
    requires t < |m.pc| && (forall f | f in m.q.list :: f in m.ticket && f in m.q.files)
    requires forall f | f in m.q.list :: m.q.files[f].busy
    requires now == WithDropped(m, Picked(m, t, p), rep)
    requires forall u | 0 <= u < |m.pc| && u != t :: !m.pc[u].Releasing? && !m.pc[u].AwaitSync?
    ensures Dismissed(m.q, p.q) && Told(m, rep) ==> Told(Picked(m, t, p), now)
  {
    if Dismissed(m.q, p.q) && Told(m, rep) { DismissedTold(m, Picked(m, t, p), t, rep, now); }
  }

  lemma NothingDropped(m: Machine, n: Machine, rep: map<nat, FsResult>)
    requires n.dropped == m.dropped
    ensures WithDropped(m, n, rep) == rep
  {}

  lemma NextTold(m: Machine, k: Token, t: nat, rep: map<nat, FsResult>)
    requires Good(m, k) && CanNext(m, t) && Told(m, rep)
    ensures Told(AfterNext(m, t), WithDropped(m, AfterNext(m, t), rep))
  {
    assert k == Held(t);
    NextDismisses(m.q);
    hide Dismissed, Next, Told;
    PickedTold(m, k, t, Next(m.q), rep, WithDropped(m, AfterNext(m, t), rep));
  }

  lemma ResumeDismisses(q: Queue<FileId>)
    requires ListOk(q) && q.suspend
    ensures Dismissed(q, Resume(q).q)
  {
    NextDismisses(q.(suspend := false));
    hide Next;
  }

  lemma ResumeNothing(m: Machine, t: nat)
    requires CanResume(m, t) && !m.q.suspend
    ensures Steady(m, AfterResume(m, t), t)
  {
    var n := AfterResume(m, t);
    assert Lost(m, m.q.list) == {} && m.pc[t := Idle] == m.pc;
    hide Next;
    assert n.q == m.q && n.dropped == m.dropped;
  }

  lemma ResumeTold(m: Machine, k: Token, t: nat, rep: map<nat, FsResult>)
    requires Good(m, k) && CanResume(m, t) && Told(m, rep)
    ensures Told(AfterResume(m, t), WithDropped(m, AfterResume(m, t), rep))
  {
    if m.q.suspend {
      ResumeDismisses(m.q);
      hide Dismissed, Resume, Told;
      PickedTold(m, k, t, Resume(m.q), rep, WithDropped(m, AfterResume(m, t), rep));
    } else {
      ResumeNothing(m, t);
      NothingDropped(m, AfterResume(m, t), rep);
      hide AfterResume, WithDropped;
      SteadyTold(m, k, AfterResume(m, t), t, rep);
    }
  }

  lemma UnloadedTold(m: Machine, k: Token, t: nat, resume: bool, rep: map<nat, FsResult>, now: map<nat, FsResult>)
    requires Good(m, k) && t < |m.pc| && Told(m, rep) && Unattended(m)
    requires now == WithDropped(m, Unloaded(m, t, resume), rep)
    ensures Told(Unloaded(m, t, resume), now)
  {
    if m.q.running {
      var u :| 0 <= u < |m.pc| && m.pc[u] == Advancing;
      assert k == Held(u);
    }
    NobodyReturns(m, k, t);
    UnloadDismisses(m.q, resume);
    hide Unload;
    DismissedTold(m, Unloaded(m, t, resume), t, rep, now);
  }

  lemma UnloadTold(m: Machine, k: Token, t: nat, rep: map<nat, FsResult>)
    requires Good(m, k) && CanUnload(m, t) && Told(m, rep)
    ensures Told(AfterUnload(m, t), WithDropped(m, AfterUnload(m, t), rep))
  {
    if m.q.running {
      UnloadSleepSteady(m, k, t);
      NothingDropped(m, AfterUnload(m, t), rep);
      hide AfterUnload, WithDropped;
      SteadyTold(m, k, AfterUnload(m, t), t, rep);
    } else {
      UnloadNowTold(m, k, t, rep);
    }
  }

  lemma UnloadNowTold(m: Machine, k: Token, t: nat, rep: map<nat, FsResult>)
    requires Good(m, k) && CanUnload(m, t) && Told(m, rep) && !m.q.running
    ensures Told(AfterUnload(m, t), WithDropped(m, AfterUnload(m, t), rep))
  {
    SuspendInv(m, k, t);
    SuspendHistory(m, k, t);
    SuspendSteady(m, t);
    var s := AfterSuspend(m, t);
    assert s == m.(q := Suspend(m.q).0) && s.dropped == m.dropped;
    SteadyTold(m, k, s, t, rep);
    assert AfterUnload(m, t) == Unloaded(s, t, !m.q.suspend);
    hide Unloaded, AfterSuspend, AfterUnload, Suspend;
    UnloadedTold(s, k, t, !m.q.suspend, rep, WithDropped(m, AfterUnload(m, t), rep));
  }

  lemma UnloadSleepSteady(m: Machine, k: Token, t: nat)
    requires Inv(m, k) && CanUnload(m, t) && m.q.running
    ensures Steady(m, AfterUnload(m, t), t) && AfterUnload(m, t).dropped == m.dropped
  {
    hide Unload;
  }

  // ---- every region, every run -------------------------------------------------------

  predicate EndsNothing(a: Action) {
    || a.DoPrepare? || a.DoActivate? || a.DoOperate? || a.DoHandover? || a.DoTranslate? || a.DoStartIo?
    || a.DoWait? || a.DoWaitWake? || a.DoCancel? || a.DoSuspend? || a.DoSuspendWake? || a.DoLoad?
  }

  lemma SteadyStep(m: Machine, k: Token, a: Action)
    requires Inv(m, k) && Enabled(m, a) && EndsNothing(a)
    ensures Steady(m, Apply(m, a), a.t)
  {
    hide Steady;
    match a
    case DoPrepare(t, f, syncCommand, blocking) => PrepareSteady(m, t, f, syncCommand, blocking);
    case DoActivate(t) => ActivateSteady(m, t);
    case DoOperate(t) => OperateSteady(m, t);
    case DoHandover(t) => HandoverSteady(m, t);
    case DoTranslate(t) => TranslateSteady(m, t);
    case DoStartIo(t, inner) => StartIoSteady(m, t, inner);
    case DoWait(t, f) => WaitSteady(m, t, f);
    case DoWaitWake(t) => IdleSteady(m, t);
    case DoCancel(t, f) => CancelSteady(m, t, f);
    case DoSuspend(t) => SuspendSteady(m, t);
    case DoSuspendWake(t) => IdleSteady(m, t);
    case DoLoad(t) => LoadSteady(m, t);
  }

  lemma SteadyReports(m: Machine, a: Action, rep: map<nat, FsResult>)
    requires Enabled(m, a) && !a.DoNotify? && !a.DoFinish? && Apply(m, a).dropped == m.dropped
    ensures Reported(m, a, rep) == rep
  {
    hide Apply, Enabled;
  }

  lemma OutcomeStep(m: Machine, k: Token, a: Action, rep: map<nat, FsResult>)
    requires Good(m, k) && Enabled(m, a) && Orderly(m, a) && Told(m, rep)
    ensures Told(Apply(m, a), Reported(m, a, rep))
  {
    hide Told;
    if EndsNothing(a) {
      SteadyStep(m, k, a);
      SteadyIsTold(m, k, a, rep);
    } else {
      EndingStep(m, k, a, rep);
    }
  }

  lemma SteadyIsTold(m: Machine, k: Token, a: Action, rep: map<nat, FsResult>)
    requires Inv(m, k) && Enabled(m, a) && EndsNothing(a)
    ensures Steady(m, Apply(m, a), a.t) && Told(m, rep) ==> Told(Apply(m, a), Reported(m, a, rep))
  {
    if Steady(m, Apply(m, a), a.t) && Told(m, rep) {
      SteadyReports(m, a, rep);
      hide Enabled, Apply;
      SteadyTold(m, k, Apply(m, a), a.t, rep);
    }
  }

  lemma EndingStep(m: Machine, k: Token, a: Action, rep: map<nat, FsResult>)
    requires Good(m, k) && Enabled(m, a) && Orderly(m, a) && Told(m, rep) && !EndsNothing(a)
    ensures Told(Apply(m, a), Reported(m, a, rep))
  {
    match a
    case DoEnqueue(t) =>
      EnqueueTold(m, k, t, rep);
      EnqueueRecord(m, t);
      SteadyReports(m, a, rep);
    case DoNotify(t, ret) => NotifyTold(m, k, t, ret, rep);
    case DoSyncWake(t) =>
      SyncWakeTold(m, k, t, rep);
      SteadyReports(m, a, rep);
    case DoFinish(t, ret) => FinishTold(m, k, t, ret, rep);
    case DoRelease(t) =>
      HeldRelease(m, k, t, rep);
      SteadyReports(m, a, rep);
    case DoNext(t) => NextTold(m, k, t, rep);
    case DoResume(t) => ResumeTold(m, k, t, rep);
    case DoUnload(t) => UnloadTold(m, k, t, rep);
    case DoUnloadWake(t) => UnloadedTold(m, k, t, true, rep, Reported(m, a, rep));
  }

  lemma {:induction false} OutcomeRun(m: Machine, k: Token, run: seq<Action>, n: Machine, rep: map<nat, FsResult>)
    requires Good(m, k) && Runs(m, run, n) && Told(m, rep)
    ensures Told(n, Record(m, run, n, rep))
    decreases |run|
  {
    hide Enabled, Apply, Orderly, Good, Told, Reported;
    if run != [] {
      OutcomeStep(m, k, run[0], rep);
      var l := Step(m, k, run[0]);
      OutcomeRun(Apply(m, run[0]), l, run[1..], n, Reported(m, run[0], rep));
    }
  }

  /** In every run from a fresh archive, a file that is no longer BUSY shows the result that was reported last for
      its last command: by the completion of its access, by its command function, or CANCELED if the command was
      released unexecuted. */
  lemma EndsAsReported(m0: Machine, run: seq<Action>, m: Machine, f: FileId)
    requires Initial(m0) && Runs(m0, run, m) && f in m.q.files && f in m.ticket && !m.q.files[f].busy
    ensures Says(m, Record(m0, run, m, map[]), f, m.q.files[f].error)
    ensures m.ticket[f] in m.dropped ==> m.q.files[f].error == Canceled
  {
    InitialGood(m0);
    OutcomeRun(m0, Free, run, m, map[]);
    hide Record;
  }
}
