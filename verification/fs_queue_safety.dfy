/** The invariant of the command queue: one token decides who runs the archive's commands. */
module QueueSafety {
  import opened Basics
  import opened CommandQueue
  import opened QueueMachine

  /** Who may run the next region on behalf of the archive while it is RUNNING. */
  datatype Token =
    | Free              // nobody: the archive is not RUNNING
    | Held(t: nat)      // thread t
    | Flight            // the completion callback of an asynchronous access
    | Handed(t: nat)    // thread t, which still sleeps but whose file is OPERATING

  predicate Executing(pc: Pc) {
    pc.Starting? || pc.Ready? || pc.Translating? || pc.AwaitSync? || pc.Releasing? || pc.Advancing? || pc.Chosen?
  }

  /** The file that is being operated on. */
  function Current(m: Machine, k: Token): Option<FileId>
    requires k.Held? || k.Handed? ==> k.t < |m.pc|
  {
    match k
    case Free => None
    case Flight => if m.q.list == [] then None else Some(m.q.list[0])
    case Handed(t) => if m.pc[t].AwaitOperating? then Some(m.pc[t].f) else None
    case Held(t) =>
      var pc := m.pc[t];
      if pc.Ready? || pc.Translating? || pc.AwaitSync? || pc.Releasing? then Some(pc.f) else None
  }

  ghost predicate TokenOk(m: Machine, k: Token) {
    && (m.q.running <==> k != Free)
    && (k.Held? || k.Handed? ==> k.t < |m.pc|)
    && (k.Handed? ==> m.pc[k.t].AwaitOperating?)
    && (forall t :: 0 <= t < |m.pc| ==> (Executing(m.pc[t]) <==> k == Held(t)))
  }

  ghost predicate HeadOk(m: Machine, k: Token)
    requires TokenOk(m, k)
  {
    && (Current(m, k).Some? ==> m.q.list != [] && m.q.list[0] == Current(m, k).value)
    && (forall f :: f in m.q.files ==> (m.q.files[f].operating <==> Current(m, k) == Some(f)))
    && (k.Held? && (m.pc[k.t].Starting? || m.pc[k.t].Chosen?) ==> m.q.list != [] && m.q.list[0] == m.pc[k.t].f)
    && (k == Flight ==> m.q.list != [])
  }

  ghost predicate ModeOk(m: Machine, k: Token)
    requires TokenOk(m, k) && ListOk(m.q) && HeadOk(m, k)
  {
    && (k == Flight ==> !m.q.files[m.q.list[0]].sync)
    && (k.Handed? ==> m.q.files[m.q.list[0]].sync)
    && (k.Held? && (m.pc[k.t].Ready? || m.pc[k.t].Translating?) ==> m.pc[k.t].own == m.q.files[m.q.list[0]].sync)
    && (k.Held? && (m.pc[k.t].AwaitSync? || m.pc[k.t].Releasing?) ==> m.q.files[m.q.list[0]].sync)
  }

  ghost predicate IsSending(pc: seq<Pc>, f: FileId) {
    exists t :: 0 <= t < |pc| && pc[t].Sending? && pc[t].f == f
  }

  ghost predicate FilesOk(m: Machine)
    requires ListOk(m.q)
  {
    && (forall f :: f in m.q.list ==> m.q.files[f].busy)
    && (forall f :: f in m.q.files && !m.q.files[f].busy ==> m.q.files[f] == Released(m.q.files[f].error))
    && (forall f :: f in m.q.files && m.q.files[f].busy && f !in m.q.list ==> IsSending(m.pc, f))
  }

  ghost predicate ClientsOk(m: Machine) {
    forall t, u :: 0 <= t < u < |m.pc| && Client(m.pc[t]).Some? ==> Client(m.pc[t]) != Client(m.pc[u])
  }

  ghost predicate ThreadOk(q: Queue<FileId>, pc: Pc) {
    && (Client(pc).Some? ==> Client(pc).value in q.files)
    && (pc.Sending? ==> q.files[pc.f].busy && pc.f !in q.list && !q.files[pc.f].operating)
    && (pc.AwaitOperating? ==> q.files[pc.f].busy == (pc.f in q.list))
    && (pc.AwaitOperating? && pc.f in q.list ==> q.files[pc.f].sync)
  }

  ghost predicate ThreadsOk(m: Machine) {
    forall t :: 0 <= t < |m.pc| ==> ThreadOk(m.q, m.pc[t])
  }

  ghost predicate IsAwaited(pc: seq<Pc>, f: FileId) {
    exists t :: 0 <= t < |pc| && (pc[t].AwaitOperating? || pc[t].Starting?) && pc[t].f == f
  }

  /** Every queued file in SYNC mode has a thread that sleeps for it. */
  ghost predicate SleepersOk(m: Machine, k: Token)
    requires TokenOk(m, k) && ListOk(m.q)
  {
    forall f :: f in m.q.list && m.q.files[f].sync && Current(m, k) != Some(f) ==> IsAwaited(m.pc, f)
  }

  ghost predicate FlagsOk(q: Queue<FileId>) {
    && (q.suspend ==> !q.running)
    && (q.suspending ==> q.running)
    && !q.unloading
    && (!q.running && !q.suspend ==> q.list == [])
  }

  ghost predicate IoOk(m: Machine, k: Token)
    requires TokenOk(m, k)
  {
    && (m.io <==> k == Flight || (k.Held? && m.pc[k.t].AwaitSync? && m.q.isSync))
    && (m.q.isAsync <==> k == Flight || (k.Held? && m.pc[k.t].Translating? && !m.pc[k.t].own))
    && (m.q.isSync ==> k.Held? && ((m.pc[k.t].Translating? && m.pc[k.t].own) || m.pc[k.t].AwaitSync?))
  }

  /** What concerns the flags, the token and the head of the list. */
  ghost predicate Control(m: Machine, k: Token) {
    ListOk(m.q) && TokenOk(m, k) && HeadOk(m, k) && ModeOk(m, k) && FlagsOk(m.q) && IoOk(m, k)
  }

  /** What concerns the other files and the threads that wait. */
  ghost predicate Clerical(m: Machine, k: Token)
    requires Control(m, k)
  {
    FilesOk(m) && ClientsOk(m) && ThreadsOk(m) && SleepersOk(m, k)
  }

  ghost predicate Inv(m: Machine, k: Token) {
    Control(m, k) && Clerical(m, k)
  }

  // ---- the flags, the token and the head of the list ---------------------------------

  lemma PrepareControl(m: Machine, k: Token, t: nat, f: FileId, syncCommand: bool, blocking: bool)
    requires Control(m, k) && CanPrepare(m, t, f) && f !in m.q.list
    ensures Control(AfterPrepare(m, t, f, syncCommand, blocking), k)
  {}

  /** What FSi_SendCommand's first region does, without the list function; `sync` is the mode that the
      command gets. */
  ghost predicate Joined(m: Machine, n: Machine, t: nat, f: FileId, sync: bool) {
    && t < |m.pc| == |n.pc| && m.pc[t].Sending? && m.pc[t].f == f && n.pc == m.pc[t := n.pc[t]] && f in m.q.files
    && n.q.list == m.q.list + [f] && n.io == m.io
    && n.q.files == m.q.files[f := m.q.files[f].(sync := sync)]
    && n.q.suspend == m.q.suspend && n.q.suspending == m.q.suspending && n.q.unloading == m.q.unloading
    && n.q.isAsync == m.q.isAsync && n.q.isSync == m.q.isSync && n.q.running == (m.q.running || !m.q.suspend)
    && n.pc[t] == (if !m.q.running && !m.q.suspend then Starting(f, false)
                  else if sync then AwaitOperating(f) else Idle)
  }

  lemma EnqueueOf(q: Queue<FileId>, f: FileId, c: bool)
    requires f in q.files && f !in q.list && !q.unloading
    ensures var sync := q.files[f].sync || c;
      && Enqueue(q, f, c).0 == q.(list := q.list + [f], files := q.files[f := q.files[f].(sync := sync)],
                                  running := q.running || !q.suspend)
      && Enqueue(q, f, c).1 == (if !q.running && !q.suspend then StartNow else if sync then Sleep else Queued)
  {
    NotThere(q.list, f);
  }

  lemma AfterEnqueueOf(m: Machine, t: nat)
    requires CanEnqueue(m, t)
    ensures var n, e, f := AfterEnqueue(m, t), Enqueue(m.q, m.pc[t].f, m.pc[t].syncCommand), m.pc[t].f;
      && n.q == e.0 && n.io == m.io
      && n.pc == m.pc[t := match e.1 case StartNow => Starting(f, false) case Sleep => AwaitOperating(f) case _ => Idle]
  {
    hide Enqueue;
  }

  lemma EnqueueJoined(m: Machine, t: nat)
    requires CanEnqueue(m, t) && m.pc[t].f !in m.q.list && !m.q.unloading
    ensures Joined(m, AfterEnqueue(m, t), t, m.pc[t].f, m.q.files[m.pc[t].f].sync || m.pc[t].syncCommand)
  {
    hide Enqueue, AfterEnqueue;
    EnqueueOf(m.q, m.pc[t].f, m.pc[t].syncCommand);
    AfterEnqueueOf(m, t);
  }

  lemma NotThere(s: seq<FileId>, f: FileId)
    requires f !in s
    ensures Without(s, f) == s
  {}

  lemma JoinedControl(m: Machine, k: Token, n: Machine, t: nat, f: FileId, sync: bool)
    requires Control(m, k) && Joined(m, n, t, f, sync) && f !in m.q.list && !m.q.files[f].operating
    ensures Control(n, if m.q.running || m.q.suspend then k else Held(t))
  {
    assert m.q.list != [] ==> n.q.list[0] == m.q.list[0];
  }

  lemma EnqueueControl(m: Machine, k: Token, t: nat)
    requires Control(m, k) && CanEnqueue(m, t) && ThreadOk(m.q, m.pc[t])
    ensures Control(AfterEnqueue(m, t), if m.q.running || m.q.suspend then k else Held(t))
  {
    hide AfterEnqueue;
    EnqueueJoined(m, t);
    JoinedControl(m, k, AfterEnqueue(m, t), t, m.pc[t].f, m.q.files[m.pc[t].f].sync || m.pc[t].syncCommand);
  }

  lemma ActivateControl(m: Machine, k: Token, t: nat)
    requires Control(m, k) && CanActivate(m, t)
    ensures Control(AfterActivate(m, t), k)
  {}

  lemma OperateControl(m: Machine, k: Token, t: nat, u: nat)
    requires Control(m, k) && CanOperate(m, t)
    requires m.pc[t].Chosen? && m.q.files[m.pc[t].f].sync ==> u < |m.pc| && m.pc[u] == AwaitOperating(m.pc[t].f)
    ensures k == Held(t) && m.q.list[0] == m.pc[t].f
    ensures Control(AfterOperate(m, t), if AfterOperate(m, t).pc[t] == Idle then Handed(u) else k)
  {}

  lemma HandoverControl(m: Machine, k: Token, t: nat)
    requires Control(m, k) && CanHandover(m, t) && k == Handed(t)
    ensures Control(AfterHandover(m, t), Held(t))
  {}

  lemma TranslateControl(m: Machine, k: Token, t: nat)
    requires Control(m, k) && CanTranslate(m, t)
    ensures k == Held(t) && AfterTranslate(m, t).pc[t] == Translating(m.pc[t].f, m.q.files[m.pc[t].f].sync)
    ensures Control(AfterTranslate(m, t), k)
  {}

  lemma StartIoControl(m: Machine, k: Token, t: nat, inner: bool)
    requires Control(m, k) && CanStartIo(m, t, inner)
    ensures k == Held(t) && m.q.list != [] && m.q.list[0] == m.pc[t].f
    ensures Control(AfterStartIo(m, t, inner), if m.q.files[m.pc[t].f].sync then k else Flight)
  {}

  lemma NotifyControl(m: Machine, k: Token, t: nat, ret: FsResult)
    requires Control(m, k) && CanNotify(m, t)
    ensures m.q.isAsync <==> k == Flight
    ensures Control(AfterNotify(m, t, ret), if k == Flight then Held(t) else k)
  {}

  lemma SyncWakeControl(m: Machine, k: Token, t: nat)
    requires Control(m, k) && CanSyncWake(m, t)
    ensures Control(AfterSyncWake(m, t), k)
  {}

  lemma FinishAsyncControl(m: Machine, k: Token, t: nat, ret: FsResult)
    requires Control(m, k) && CanFinish(m, t) && !m.pc[t].own
    ensures Control(AfterFinish(m, t, ret), k)
  {
    assert k == Held(t) && Current(m, k) == Some(m.pc[t].f);
    assert AfterFinish(m, t, ret).pc[t] == Advancing;
  }

  lemma FinishControl(m: Machine, k: Token, t: nat, ret: FsResult)
    requires Control(m, k) && CanFinish(m, t)
    ensures k == Held(t) && m.q.list != [] && m.q.list[0] == m.pc[t].f
    ensures m.pc[t].own == m.q.files[m.pc[t].f].sync
    ensures Control(AfterFinish(m, t, ret), k)
  {
    if !m.pc[t].own { FinishAsyncControl(m, k, t, ret); }
  }

  lemma ReleaseControl(m: Machine, k: Token, t: nat)
    requires Control(m, k) && CanRelease(m, t)
    ensures k == Held(t) && m.q.list != [] && m.q.list[0] == m.pc[t].f
    ensures Control(AfterRelease(m, t), k)
  {}

  /** Queue `r` is `q` with some queued files released. */
  ghost predicate Thinned(q: Queue<FileId>, r: Queue<FileId>) {
    && r.files.Keys == q.files.Keys
    && (forall f | f in r.list :: f in q.list)
    && (forall f | f in q.files ::
          if f in q.list && f !in r.list then r.files[f] == Released(r.files[f].error)
          else r.files[f] == q.files[f])
  }

  lemma SweepThins(q: Queue<FileId>)
    requires ListOk(q)
    ensures Thinned(q, Sweep(q))
  {}

  lemma NextThins(q: Queue<FileId>)
    requires ListOk(q)
    ensures Thinned(q, Next(q).q)
  {
    SweepThins(q);
    assert Next(q).q.list == Sweep(q).list && Next(q).q.files == Sweep(q).files;
  }

  /** What FSi_NextCommand does to the queue, without the list functions. */
  ghost predicate Chooses(q: Queue<FileId>, p: Pick<FileId>) {
    && Thinned(q, p.q) && ListOk(p.q) && p.q.running == p.chosen.Some? && p.start == (p.chosen.Some? && !q.running)
    && (p.chosen.Some? ==> p.q.list != [] && p.q.list[0] == p.chosen.value && !p.q.suspend && !p.q.suspending)
    && (p.chosen.None? ==> !p.q.suspending && (p.q.list == [] || p.q.suspend))
    && p.q.unloading == q.unloading && p.q.isAsync == q.isAsync && p.q.isSync == q.isSync
  }

  lemma NextChooses(q: Queue<FileId>)
    requires ListOk(q)
    ensures Chooses(q, Next(q))
  {
    NextThins(q);
    SweepThins(q);
  }

  /** A thread that holds the token, or may take it as nobody does, and operates on no file. */
  ghost predicate MayPick(m: Machine, k: Token, t: nat) {
    t < |m.pc| && ((k == Held(t) && m.pc[t] == Advancing) || (k == Free && !Executing(m.pc[t])))
  }

  lemma Picks(m: Machine, k: Token, t: nat, p: Pick<FileId>)
    requires Control(m, k) && MayPick(m, k, t) && p.chosen.Some? && p.q.running
    requires Thinned(m.q, p.q) && ListOk(p.q) && p.q.list != [] && p.q.list[0] == p.chosen.value
    requires !p.q.suspend && !p.q.suspending && !p.q.unloading && p.q.isAsync == m.q.isAsync && p.q.isSync == m.q.isSync
    ensures Control(Picked(m, t, p), Held(t))
  {
    PickedIs(m, t, p);
    hide Picked;
    assert Current(m, k) == None;
  }

  lemma PickedIs(m: Machine, t: nat, p: Pick<FileId>)
    requires t < |m.pc|
    ensures var n := Picked(m, t, p);
      n.q == p.q && n.io == m.io && n.pc == m.pc[t := if p.chosen.Some? then Chosen(p.chosen.value, !p.start) else Idle]
  {
    hide Lost;
  }

  lemma PicksNothing(m: Machine, k: Token, t: nat, p: Pick<FileId>)
    requires Control(m, k) && MayPick(m, k, t) && p.chosen.None? && !p.q.running
    requires Thinned(m.q, p.q) && ListOk(p.q) && !p.q.suspending && (p.q.list == [] || p.q.suspend)
    requires !p.q.unloading && p.q.isAsync == m.q.isAsync && p.q.isSync == m.q.isSync
    ensures Control(Picked(m, t, p), Free)
  {
    PickedIs(m, t, p);
    hide Picked;
    assert Current(m, k) == None;
  }

  lemma PickedControl(m: Machine, k: Token, t: nat, q: Queue<FileId>, p: Pick<FileId>)
    requires Control(m, k) && MayPick(m, k, t) && q.list == m.q.list && q.files == m.q.files && Chooses(q, p)
    requires q.unloading == m.q.unloading && q.isAsync == m.q.isAsync && q.isSync == m.q.isSync
    ensures Control(Picked(m, t, p), if p.chosen.Some? then Held(t) else Free)
  {
    hide Picked;
    if p.chosen.Some? {
      Picks(m, k, t, p);
    } else {
      PicksNothing(m, k, t, p);
    }
  }

  lemma NextControl(m: Machine, k: Token, t: nat)
    requires Control(m, k) && CanNext(m, t)
    ensures k == Held(t) && Current(m, k) == None
    ensures Control(AfterNext(m, t), if AfterNext(m, t).pc[t] == Idle then Free else k)
  {
    NextChooses(m.q);
    hide Next;
    PickedControl(m, k, t, m.q, Next(m.q));
  }

  lemma TakeOverControl(m: Machine, k: Token, t: nat, f: FileId)
    requires Control(m, k) && CanWait(m, t, f) && !m.q.files[f].operating
    ensures Control(Goto(m.(q := TakeOver(m.q, f)), t, AwaitOperating(f)), k)
  {
    assert Current(m, k) != Some(f);
  }

  /** A thread that does not run the archive moves on. */
  lemma MoveControl(m: Machine, k: Token, t: nat, p: Pc)
    requires Control(m, k) && t < |m.pc| && k != Handed(t) && !Executing(m.pc[t]) && !Executing(p)
    ensures Control(Goto(m, t, p), k)
  {}

  lemma CancelControl(m: Machine, k: Token, t: nat, f: FileId)
    requires Control(m, k) && CanCancel(m, t, f)
    ensures Control(AfterCancel(m, t, f), k)
  {}

  lemma SuspendControl(m: Machine, k: Token, t: nat)
    requires Control(m, k) && IsIdle(m, t)
    ensures Control(AfterSuspend(m, t), k)
  {}

  lemma ResumeControl(m: Machine, k: Token, t: nat)
    requires Control(m, k) && CanResume(m, t)
    ensures m.q.suspend ==> k == Free
    ensures Control(AfterResume(m, t), if AfterResume(m, t).pc[t] == Idle then k else Held(t))
  {
    if m.q.suspend {
      var q := m.q.(suspend := false);
      NextChooses(q);
      hide Next;
      PickedControl(m, k, t, q, Next(q));
    }
  }

  /** FS_UnloadArchive releases every command. */
  lemma UnloadedControl(m: Machine, k: Token, t: nat, resume: bool)
    requires Control(m, k) && t < |m.pc| && !Executing(m.pc[t]) && Unattended(m)
    requires !resume ==> m.q.suspend
    ensures Current(m, k) == None
    ensures Control(Unloaded(m, t, resume), k)
  {
    if m.q.running {
      var u :| 0 <= u < |m.pc| && m.pc[u] == Advancing;
      assert k == Held(u);
    } else {
      assert k == Free;
    }
  }

  lemma UnloadControl(m: Machine, k: Token, t: nat)
    requires Control(m, k) && CanUnload(m, t)
    ensures Control(AfterUnload(m, t), k)
  {
    if !m.q.running {
      var q := Suspend(m.q).0;
      UnloadedControl(m.(q := q), k, t, !m.q.suspend);
    }
  }

  lemma LoadControl(m: Machine, k: Token, t: nat)
    requires Control(m, k) && IsIdle(m, t)
    ensures Control(m.(q := m.q.(loaded := true)), k)
  {}

  // ---- the other files and the threads that wait -------------------------------------

  /** Thread `t` moving to `p` leaves what the other threads wait for alone. */
  lemma MoveKeeps(pc: seq<Pc>, t: nat, p: Pc)
    requires t < |pc|
    ensures forall g :: IsSending(pc, g) && !(pc[t].Sending? && pc[t].f == g) ==> IsSending(pc[t := p], g)
    ensures forall g :: IsAwaited(pc, g) && !((pc[t].AwaitOperating? || pc[t].Starting?) && pc[t].f == g)
                        ==> IsAwaited(pc[t := p], g)
    ensures (p.AwaitOperating? || p.Starting?) ==> IsAwaited(pc[t := p], p.f)
    ensures p.Sending? ==> IsSending(pc[t := p], p.f)
  {
    var pc' := pc[t := p];
    assert pc'[t] == p;
    forall g | IsSending(pc, g) && !(pc[t].Sending? && pc[t].f == g)
      ensures IsSending(pc', g)
    {
      var u :| 0 <= u < |pc| && pc[u].Sending? && pc[u].f == g;
      assert pc'[u] == pc[u];
    }
    forall g | IsAwaited(pc, g) && !((pc[t].AwaitOperating? || pc[t].Starting?) && pc[t].f == g)
      ensures IsAwaited(pc', g)
    {
      var u :| 0 <= u < |pc| && (pc[u].AwaitOperating? || pc[u].Starting?) && pc[u].f == g;
      assert pc'[u] == pc[u];
    }
  }

  /** Clients stay distinct when `t` keeps its file, drops it, or takes one that no thread serves. */
  lemma MoveClients(m: Machine, n: Machine, t: nat)
    requires ClientsOk(m) && t < |m.pc| == |n.pc| && n.pc == m.pc[t := n.pc[t]]
    requires Client(n.pc[t]).Some? && Client(n.pc[t]) != Client(m.pc[t]) ==> Unserved(m.pc, Client(n.pc[t]).value)
    ensures ClientsOk(n)
  {}

  /** Queue `r` differs from `q` in the status and the membership of file `f` alone. */
  ghost predicate OnlyFile(q: Queue<FileId>, r: Queue<FileId>, f: FileId) {
    && r.files.Keys == q.files.Keys
    && (forall g | g in q.files && g != f :: r.files[g] == q.files[g])
    && (forall g | g in q.files && g != f :: g in r.list <==> g in q.list)
  }

  ghost predicate Moved(m: Machine, n: Machine, t: nat) {
    t < |m.pc| == |n.pc| && n.pc == m.pc[t := n.pc[t]]
  }

  lemma OneFileFiles(m: Machine, n: Machine, t: nat, f: FileId)
    requires ListOk(m.q) && ListOk(n.q) && FilesOk(m) && Moved(m, n, t) && OnlyFile(m.q, n.q, f)
    requires f in n.q.list ==> n.q.files[f].busy
    requires f in n.q.files && !n.q.files[f].busy ==> n.q.files[f] == Released(n.q.files[f].error)
    requires f in n.q.files && n.q.files[f].busy && f !in n.q.list ==> IsSending(n.pc, f)
    requires m.pc[t].Sending? && n.pc[t] != m.pc[t] ==> m.pc[t].f == f
    ensures FilesOk(n)
  {
    MoveKeeps(m.pc, t, n.pc[t]);
  }

  lemma OneFileThreads(m: Machine, n: Machine, t: nat, f: FileId)
    requires ThreadsOk(m) && Moved(m, n, t) && OnlyFile(m.q, n.q, f)
    requires ThreadOk(n.q, n.pc[t])
    requires forall u :: 0 <= u < |m.pc| && u != t && Client(m.pc[u]) == Some(f) ==> ThreadOk(n.q, m.pc[u])
    ensures ThreadsOk(n)
  {}

  lemma OneFileSleepers(m: Machine, k: Token, n: Machine, l: Token, t: nat, f: FileId)
    requires TokenOk(m, k) && ListOk(m.q) && SleepersOk(m, k) && TokenOk(n, l) && ListOk(n.q)
    requires Moved(m, n, t) && OnlyFile(m.q, n.q, f)
    requires (m.pc[t].AwaitOperating? || m.pc[t].Starting?)
             ==> m.pc[t].f == f || ((n.pc[t].AwaitOperating? || n.pc[t].Starting?) && n.pc[t].f == m.pc[t].f)
    requires f in n.q.list && n.q.files[f].sync && Current(n, l) != Some(f) ==> IsAwaited(n.pc, f)
    requires Current(m, k).Some? && Current(m, k).value != f ==> Current(n, l) == Current(m, k)
    ensures SleepersOk(n, l)
  {
    MoveKeeps(m.pc, t, n.pc[t]);
  }

  // ---- the invariant is kept by every region -----------------------------------------

  lemma PrepareInv(m: Machine, k: Token, t: nat, f: FileId, syncCommand: bool, blocking: bool)
    requires Inv(m, k) && CanPrepare(m, t, f)
    ensures Inv(AfterPrepare(m, t, f, syncCommand, blocking), k)
  {
    var n := AfterPrepare(m, t, f, syncCommand, blocking);
    PrepareControl(m, k, t, f, syncCommand, blocking);
    MoveKeeps(m.pc, t, n.pc[t]);
    OneFileFiles(m, n, t, f);
    MoveClients(m, n, t);
    OneFileThreads(m, n, t, f);
    OneFileSleepers(m, k, n, k, t, f);
  }

  lemma EnqueueShape(m: Machine, t: nat)
    requires CanEnqueue(m, t) && m.pc[t].f !in m.q.list && !m.q.unloading
    ensures var n, f := AfterEnqueue(m, t), m.pc[t].f;
      && Moved(m, n, t) && OnlyFile(m.q, n.q, f) && n.q.list == m.q.list + [f]
      && n.q.files[f].busy == m.q.files[f].busy && n.q.files[f].operating == m.q.files[f].operating
      && n.q.suspend == m.q.suspend && n.q.running == (m.q.running || !m.q.suspend)
      && n.pc[t] == (if !m.q.running && !m.q.suspend then Starting(f, false)
                     else if n.q.files[f].sync then AwaitOperating(f) else Idle)
  {
    hide AfterEnqueue;
    EnqueueJoined(m, t);
  }

  lemma EnqueueRecord(m: Machine, t: nat)
    requires CanEnqueue(m, t) && !m.q.unloading
    ensures var n := AfterEnqueue(m, t);
      && n.ticket == m.ticket[m.pc[t].f := m.nextTicket] && n.nextTicket == m.nextTicket + 1
      && n.log == m.log && n.dropped == m.dropped
      && n.procActivate == m.procActivate && n.procIdle == m.procIdle
  {}

  lemma EnqueueInv(m: Machine, k: Token, t: nat)
    requires Inv(m, k) && CanEnqueue(m, t)
    ensures Inv(AfterEnqueue(m, t), if m.q.running || m.q.suspend then k else Held(t))
  {
    var n := AfterEnqueue(m, t);
    var f := m.pc[t].f;
    var l := if m.q.running || m.q.suspend then k else Held(t);
    EnqueueControl(m, k, t);
    EnqueueShape(m, t);
    EnqueueClerical(m, k, n, l, t, f);
  }

  lemma EnqueueClerical(m: Machine, k: Token, n: Machine, l: Token, t: nat, f: FileId)
    requires Inv(m, k) && Control(n, l) && Moved(m, n, t) && OnlyFile(m.q, n.q, f)
    requires m.pc[t].Sending? && m.pc[t].f == f && f in n.q.list && n.q.files[f].busy
    requires n.pc[t] == Starting(f, false) || (n.pc[t] == Idle && !n.q.files[f].sync)
             || (n.pc[t] == AwaitOperating(f) && n.q.files[f].sync)
    requires k.Flight? || k.Handed? || (k.Held? && k.t != t) ==> l == k
    ensures Clerical(n, l)
  {
    MoveKeeps(m.pc, t, n.pc[t]);
    OneFileFiles(m, n, t, f);
    MoveClients(m, n, t);
    OneFileThreads(m, n, t, f);
    OneFileSleepers(m, k, n, l, t, f);
  }

  lemma ActivateInv(m: Machine, k: Token, t: nat)
    requires Inv(m, k) && CanActivate(m, t)
    ensures Inv(AfterActivate(m, t), k)
  {
    var n := AfterActivate(m, t);
    var f := m.pc[t].f;
    ActivateControl(m, k, t);
    MoveKeeps(m.pc, t, n.pc[t]);
    OneFileFiles(m, n, t, f);
    MoveClients(m, n, t);
    OneFileThreads(m, n, t, f);
    OneFileSleepers(m, k, n, k, t, f);
  }

  /** A queued SYNC file that FSi_NextCommand picks has its client asleep. */
  lemma Sleeper(m: Machine, k: Token, t: nat) returns (u: nat)
    requires Inv(m, k) && CanOperate(m, t) && m.pc[t].Chosen? && m.q.files[m.pc[t].f].sync
    ensures u < |m.pc| && m.pc[u] == AwaitOperating(m.pc[t].f)
  {
    assert k == Held(t);
    assert IsAwaited(m.pc, m.pc[t].f);
    u :| u < |m.pc| && (m.pc[u].AwaitOperating? || m.pc[u].Starting?) && m.pc[u].f == m.pc[t].f;
    assert !Executing(m.pc[u]);
  }

  lemma OperateInv(m: Machine, k: Token, t: nat) returns (l: Token)
    requires Inv(m, k) && CanOperate(m, t)
    ensures k == Held(t) && Inv(AfterOperate(m, t), l)
    ensures if AfterOperate(m, t).pc[t] == Idle then l.Handed? else l == k
  {
    var n := AfterOperate(m, t);
    var f := m.pc[t].f;
    var u := 0;
    if n.pc[t] == Idle { u := Sleeper(m, k, t); }
    OperateControl(m, k, t, u);
    l := if n.pc[t] == Idle then Handed(u) else k;
    MoveKeeps(m.pc, t, n.pc[t]);
    OneFileFiles(m, n, t, f);
    MoveClients(m, n, t);
    OneFileThreads(m, n, t, f);
    OneFileSleepers(m, k, n, l, t, f);
  }

  lemma HandoverInv(m: Machine, k: Token, t: nat)
    requires Inv(m, k) && CanHandover(m, t)
    ensures k == Handed(t)
    ensures Inv(AfterHandover(m, t), Held(t))
  {
    var n := AfterHandover(m, t);
    var f := m.pc[t].f;
    assert Current(m, k) == Some(f);
    assert ThreadOk(m.q, m.pc[t]);
    HandoverControl(m, k, t);
    OneFileFiles(m, n, t, f);
    MoveClients(m, n, t);
    OneFileThreads(m, n, t, f);
    OneFileSleepers(m, k, n, Held(t), t, f);
  }

  lemma TranslateInv(m: Machine, k: Token, t: nat)
    requires Inv(m, k) && CanTranslate(m, t)
    ensures Inv(AfterTranslate(m, t), k)
  {
    var n := AfterTranslate(m, t);
    var f := m.pc[t].f;
    TranslateControl(m, k, t);
    assert Current(m, k) == Some(f);
    OneFileFiles(m, n, t, f);
    MoveClients(m, n, t);
    OneFileThreads(m, n, t, f);
    OneFileSleepers(m, k, n, k, t, f);
  }

  lemma StartIoInv(m: Machine, k: Token, t: nat, inner: bool)
    requires Inv(m, k) && CanStartIo(m, t, inner)
    ensures Inv(AfterStartIo(m, t, inner), if m.q.files[m.pc[t].f].sync then k else Flight)
  {
    var n := AfterStartIo(m, t, inner);
    var f := m.pc[t].f;
    StartIoControl(m, k, t, inner);
    OneFileFiles(m, n, t, f);
    MoveClients(m, n, t);
    OneFileThreads(m, n, t, f);
    OneFileSleepers(m, k, n, if m.q.files[f].sync then k else Flight, t, f);
  }

  /** The status and the place of the head after its result came in. */
  lemma HeadClerical(m: Machine, k: Token, n: Machine, l: Token, t: nat, f: FileId)
    requires Inv(m, k) && Control(n, l) && Moved(m, n, t) && OnlyFile(m.q, n.q, f) && Current(m, k) == Some(f)
    requires f in n.q.files
    requires (f !in n.q.list && n.q.files[f] == Released(n.q.files[f].error) && !m.q.files[f].sync)
             || (f in n.q.list && n.q.files[f] == m.q.files[f].(error := n.q.files[f].error)
                 && Current(n, l) == Some(f))
    requires !m.pc[t].Sending? && !m.pc[t].AwaitOperating? && !m.pc[t].Starting?
    requires Client(n.pc[t]) == None || Client(n.pc[t]) == Client(m.pc[t])
    requires ThreadOk(n.q, n.pc[t])
    ensures Clerical(n, l)
  {
    MoveClients(m, n, t);
    OneFileFiles(m, n, t, f);
    OneFileThreads(m, n, t, f);
    OneFileSleepers(m, k, n, l, t, f);
  }

  lemma NotifyInv(m: Machine, k: Token, t: nat, ret: FsResult)
    requires Inv(m, k) && CanNotify(m, t)
    ensures Inv(AfterNotify(m, t, ret), if k == Flight then Held(t) else k)
  {
    NotifyControl(m, k, t, ret);
    HeadClerical(m, k, AfterNotify(m, t, ret), if k == Flight then Held(t) else k, t, m.q.list[0]);
  }

  lemma SyncWakeInv(m: Machine, k: Token, t: nat)
    requires Inv(m, k) && CanSyncWake(m, t)
    ensures Inv(AfterSyncWake(m, t), k)
  {
    var n := AfterSyncWake(m, t);
    var f := m.pc[t].f;
    SyncWakeControl(m, k, t);
    OneFileFiles(m, n, t, f);
    MoveClients(m, n, t);
    OneFileThreads(m, n, t, f);
    OneFileSleepers(m, k, n, k, t, f);
  }

  ghost predicate Finished(m: Machine, n: Machine, t: nat, f: FileId, ret: FsResult)
    requires f in m.q.files
  {
    && Moved(m, n, t) && OnlyFile(m.q, n.q, f) && f in n.q.files
    && n.pc[t] == (if m.q.files[f].sync then Releasing(f, ret) else Advancing)
    && (if m.q.files[f].sync then n.q.list == m.q.list && n.q.files[f] == m.q.files[f].(error := ret)
        else f !in n.q.list && n.q.files[f] == Released(ret))
  }

  lemma ReleaseShape(q: Queue<FileId>, f: FileId, ret: FsResult)
    requires f in q.files
    ensures var r := Release(q, f, ret); OnlyFile(q, r, f) && f !in r.list && r.files[f] == Released(ret)
  {}

  lemma TranslateEndIs(q: Queue<FileId>, f: FileId, ret: FsResult)
    requires f in q.files
    ensures TranslateEnd(q, f, ret) ==
      if q.files[f].sync then q.(isSync := false, files := q.files[f := q.files[f].(error := ret)])
      else Release(q.(isAsync := false), f, ret)
  {}

  lemma ResultShape(q: Queue<FileId>, f: FileId, ret: FsResult)
    requires f in q.files
    ensures OnlyFile(q, q.(isSync := false, files := q.files[f := q.files[f].(error := ret)]), f)
  {}

  lemma TranslateEndShape(q: Queue<FileId>, f: FileId, ret: FsResult)
    requires f in q.files
    ensures var r := TranslateEnd(q, f, ret);
      && OnlyFile(q, r, f) && f in r.files
      && (if q.files[f].sync then r.list == q.list && r.files[f] == q.files[f].(error := ret)
          else f !in r.list && r.files[f] == Released(ret))
  {
    hide Release, OnlyFile, TranslateEnd;
    TranslateEndIs(q, f, ret);
    ResultShape(q, f, ret);
    ReleaseShape(q.(isAsync := false), f, ret);
    SameOnly(q, q.(isAsync := false), TranslateEnd(q, f, ret), f);
  }

  lemma SameOnly(q: Queue<FileId>, p: Queue<FileId>, r: Queue<FileId>, f: FileId)
    requires p.list == q.list && p.files == q.files
    ensures OnlyFile(p, r, f) ==> OnlyFile(q, r, f)
  {}

  lemma FinishShape(m: Machine, t: nat, ret: FsResult)
    requires CanFinish(m, t) && m.pc[t].own == m.q.files[m.pc[t].f].sync
    ensures Finished(m, AfterFinish(m, t, ret), t, m.pc[t].f, ret)
  {
    TranslateEndShape(m.q, m.pc[t].f, ret);
    hide TranslateEnd, OnlyFile;
  }

  lemma FinishInv(m: Machine, k: Token, t: nat, ret: FsResult)
    requires Inv(m, k) && CanFinish(m, t)
    ensures Inv(AfterFinish(m, t, ret), k)
  {
    FinishControl(m, k, t, ret);
    FinishShape(m, t, ret);
    hide AfterFinish;
    HeadClerical(m, k, AfterFinish(m, t, ret), k, t, m.pc[t].f);
  }

  lemma ReleaseInv(m: Machine, k: Token, t: nat)
    requires Inv(m, k) && CanRelease(m, t)
    ensures Inv(AfterRelease(m, t), k)
  {
    var n := AfterRelease(m, t);
    var f := m.pc[t].f;
    ReleaseControl(m, k, t);
    OneFileFiles(m, n, t, f);
    MoveClients(m, n, t);
    OneFileThreads(m, n, t, f);
    OneFileSleepers(m, k, n, k, t, f);
  }

  lemma ThinnedFiles(m: Machine, n: Machine, t: nat)
    requires ListOk(m.q) && ListOk(n.q) && FilesOk(m) && Moved(m, n, t) && Thinned(m.q, n.q) && !m.pc[t].Sending?
    ensures FilesOk(n)
  {
    MoveKeeps(m.pc, t, n.pc[t]);
  }

  lemma ThinnedThreads(m: Machine, n: Machine, t: nat)
    requires ThreadsOk(m) && Moved(m, n, t) && Thinned(m.q, n.q) && Client(n.pc[t]) == None
    ensures ThreadsOk(n)
  {
    forall u | 0 <= u < |n.pc|
      ensures ThreadOk(n.q, n.pc[u])
    {
      if u != t { ThinnedThread(m.q, n.q, m.pc[u]); }
    }
  }

  lemma ThinnedThread(q: Queue<FileId>, r: Queue<FileId>, pc: Pc)
    requires ThreadOk(q, pc) && Thinned(q, r)
    ensures ThreadOk(r, pc)
  {}

  lemma ThinnedSleepers(m: Machine, k: Token, n: Machine, l: Token, t: nat)
    requires TokenOk(m, k) && ListOk(m.q) && SleepersOk(m, k) && TokenOk(n, l) && ListOk(n.q)
    requires Moved(m, n, t) && Thinned(m.q, n.q) && Current(m, k) == None
    requires !m.pc[t].AwaitOperating? && !m.pc[t].Starting?
    ensures SleepersOk(n, l)
  {
    MoveKeeps(m.pc, t, n.pc[t]);
  }

  /** Releasing queued files while no file is operated on keeps the rest in order. */
  lemma ThinnedClerical(m: Machine, k: Token, n: Machine, l: Token, t: nat)
    requires Inv(m, k) && Control(n, l) && Moved(m, n, t) && Thinned(m.q, n.q)
    requires Current(m, k) == None
    requires !m.pc[t].Sending? && !m.pc[t].AwaitOperating? && !m.pc[t].Starting? && Client(n.pc[t]) == None
    ensures Clerical(n, l)
  {
    ThinnedFiles(m, n, t);
    MoveClients(m, n, t);
    ThinnedThreads(m, n, t);
    ThinnedSleepers(m, k, n, l, t);
  }

  lemma NextInv(m: Machine, k: Token, t: nat)
    requires Inv(m, k) && CanNext(m, t)
    ensures Inv(AfterNext(m, t), if AfterNext(m, t).pc[t] == Idle then Free else k)
  {
    var n := AfterNext(m, t);
    NextControl(m, k, t);
    NextThins(m.q);
    ThinnedClerical(m, k, n, if n.pc[t] == Idle then Free else k, t);
  }

  lemma ResumeInv(m: Machine, k: Token, t: nat)
    requires Inv(m, k) && CanResume(m, t)
    ensures Inv(AfterResume(m, t), if AfterResume(m, t).pc[t] == Idle then k else Held(t))
  {
    var n := AfterResume(m, t);
    ResumeControl(m, k, t);
    if m.q.suspend {
      NextThins(m.q.(suspend := false));
      ThinnedClerical(m, k, n, if n.pc[t] == Idle then k else Held(t), t);
    } else {
      assert n.q == m.q && n.pc == m.pc;
    }
  }

  lemma UnloadedInv(m: Machine, k: Token, t: nat, resume: bool)
    requires Inv(m, k) && (IsIdle(m, t) || CanUnloadWake(m, t)) && Unattended(m)
    requires !resume ==> m.q.suspend
    ensures Inv(Unloaded(m, t, resume), k)
  {
    UnloadedControl(m, k, t, resume);
    ThinnedClerical(m, k, Unloaded(m, t, resume), k, t);
  }

  /** A step that changes no file status and no list, by a thread that serves no queued file. */
  lemma QuietClerical(m: Machine, k: Token, n: Machine, t: nat)
    requires Inv(m, k) && Control(n, k) && Moved(m, n, t) && n.q.list == m.q.list && n.q.files == m.q.files
    requires !m.pc[t].Sending? && !m.pc[t].AwaitOperating? && !m.pc[t].Starting?
    requires Current(n, k) == Current(m, k) && ThreadOk(n.q, n.pc[t])
    requires Client(n.pc[t]).Some? && Client(n.pc[t]) != Client(m.pc[t]) ==> Unserved(m.pc, Client(n.pc[t]).value)
    ensures Clerical(n, k)
  {
    MoveKeeps(m.pc, t, n.pc[t]);
    MoveClients(m, n, t);
  }

  lemma MoveInv(m: Machine, k: Token, t: nat, p: Pc)
    requires Inv(m, k) && t < |m.pc| && !Executing(m.pc[t]) && !Executing(p)
    requires !m.pc[t].Sending? && !m.pc[t].AwaitOperating? && ThreadOk(m.q, p)
    requires Client(p).Some? && Client(p) != Client(m.pc[t]) ==> Unserved(m.pc, Client(p).value)
    ensures Inv(Goto(m, t, p), k)
  {
    MoveControl(m, k, t, p);
    QuietClerical(m, k, Goto(m, t, p), t);
  }

  lemma TakeOverInv(m: Machine, k: Token, t: nat, f: FileId)
    requires Inv(m, k) && CanWait(m, t, f) && !m.q.files[f].operating && m.q.files[f].busy
    ensures Inv(Goto(m.(q := TakeOver(m.q, f)), t, AwaitOperating(f)), k)
  {
    var n := Goto(m.(q := TakeOver(m.q, f)), t, AwaitOperating(f));
    TakeOverControl(m, k, t, f);
    assert f in m.q.list;
    MoveKeeps(m.pc, t, n.pc[t]);
    OneFileFiles(m, n, t, f);
    MoveClients(m, n, t);
    OneFileThreads(m, n, t, f);
    OneFileSleepers(m, k, n, k, t, f);
  }

  lemma WaitInv(m: Machine, k: Token, t: nat, f: FileId)
    requires Inv(m, k) && CanWait(m, t, f)
    ensures Inv(AfterWait(m, t, f), k)
  {
    var st := m.q.files[f];
    if !st.busy {
      assert AfterWait(m, t, f) == m;
    } else if !st.sync && !st.operating {
      TakeOverInv(m, k, t, f);
    } else {
      MoveInv(m, k, t, AwaitIdle(f));
    }
  }

  lemma CancelShape(m: Machine, t: nat, f: FileId)
    requires CanCancel(m, t, f) && m.q.files[f].busy
    ensures var n := AfterCancel(m, t, f);
      && n.pc == m.pc && n.q.list == m.q.list && OnlyFile(m.q, n.q, f)
      && n.q.files[f] == m.q.files[f].(cancel := true)
  {}

  lemma CancelClerical(m: Machine, k: Token, n: Machine, t: nat, f: FileId)
    requires Inv(m, k) && Control(n, k) && IsIdle(m, t) && f in m.q.files && m.q.files[f].busy
    requires n.pc == m.pc && n.q.list == m.q.list && OnlyFile(m.q, n.q, f)
    requires n.q.files[f] == m.q.files[f].(cancel := true)
    ensures Clerical(n, k)
  {
    assert Moved(m, n, t);
    assert Current(n, k) == Current(m, k);
    OneFileFiles(m, n, t, f);
    OneFileThreads(m, n, t, f);
    OneFileSleepers(m, k, n, k, t, f);
  }

  lemma CancelInv(m: Machine, k: Token, t: nat, f: FileId)
    requires Inv(m, k) && CanCancel(m, t, f)
    ensures Inv(AfterCancel(m, t, f), k)
  {
    var n := AfterCancel(m, t, f);
    CancelControl(m, k, t, f);
    if m.q.files[f].busy {
      CancelShape(m, t, f);
      CancelClerical(m, k, n, t, f);
    } else {
      assert n == m;
    }
  }

  lemma SuspendInv(m: Machine, k: Token, t: nat)
    requires Inv(m, k) && IsIdle(m, t)
    ensures Inv(AfterSuspend(m, t), k)
  {
    SuspendControl(m, k, t);
    QuietClerical(m, k, AfterSuspend(m, t), t);
  }

  lemma UnloadSleepInv(m: Machine, k: Token, t: nat)
    requires Inv(m, k) && CanUnload(m, t) && m.q.running
    ensures Inv(AfterUnload(m, t), k)
  {
    UnloadControl(m, k, t);
    assert !m.q.suspend;
    QuietClerical(m, k, AfterUnload(m, t), t);
  }

  lemma UnloadInv(m: Machine, k: Token, t: nat)
    requires Inv(m, k) && CanUnload(m, t)
    ensures Inv(AfterUnload(m, t), k)
  {
    if m.q.running {
      UnloadSleepInv(m, k, t);
    } else {
      SuspendInv(m, k, t);
      var s := AfterSuspend(m, t);
      assert s == m.(q := Suspend(m.q).0);
      UnloadedInv(s, k, t, !m.q.suspend);
    }
  }

  // ---- a woken unload on an attended archive -----------------------------------------

  /** FS_UnloadArchive keeps the invariant after its sleep exactly when it finds the archive
      unattended. Nothing in the source checks that: the sleep in FS_SuspendArchive only waits for
      SUSPENDING to be cleared, and another thread may have resumed the archive since. */
  lemma UnloadWakeExact(m: Machine, k: Token, t: nat)
    requires Inv(m, k) && CanUnloadWake(m, t)
    ensures (exists l :: Inv(AfterUnloadWake(m, t), l)) <==> Unattended(m)
  {
    if Unattended(m) {
      UnloadedInv(m, k, t, true);
      assert Inv(AfterUnloadWake(m, t), k);
    } else {
      forall l
        ensures !Inv(AfterUnloadWake(m, t), l)
      {
        UnloadWakeBreaks(m, k, t, l);
      }
    }
  }

  lemma UnloadWakeBreaks(m: Machine, k: Token, t: nat, l: Token)
    requires Inv(m, k) && CanUnloadWake(m, t) && !Unattended(m)
    ensures !Inv(AfterUnloadWake(m, t), l)
  {
    var n := AfterUnloadWake(m, t);
    assert n.q.list == [] && n.q.running;
  }
}
