/** All threads, completion callbacks and suspend/unload requests of one archive as a state
    machine whose steps are the atomic regions of module CommandQueue. */
module QueueMachine {
  import opened Basics
  import opened CommandQueue

  type FileId = nat

  /** Where a thread (or interrupt context) stands between two regions. `own` tells the caller of
      FSi_ExecuteSyncCommand from the caller of FSi_ExecuteAsyncCommand. */
  datatype Pc =
    | Idle
    | Sending(f: FileId, syncCommand: bool)   // FSi_SendCommand, before its first region
    | Starting(f: FileId, activated: bool)    // it set RUNNING; ACTIVATE, then OPERATING, are to come
    | AwaitOperating(f: FileId)               // asleep until OPERATING
    | AwaitIdle(f: FileId)                    // FS_WaitAsync, asleep until not BUSY
    | Ready(f: FileId, own: bool)             // about to translate the command
    | Translating(f: FileId, own: bool)
    | AwaitSync(f: FileId, inner: bool)       // asleep on sync_q, in FSi_ReadTable (inner) or FSi_TranslateCommand
    | Releasing(f: FileId, ret: FsResult)     // FSi_ExecuteSyncCommand, before FSi_ReleaseCommand
    | Advancing                               // about to call FSi_NextCommand
    | Chosen(f: FileId, activated: bool)      // between the two regions of FSi_NextCommand
    | AwaitSuspend                            // FS_SuspendArchive, asleep on stat_q
    | AwaitUnload                             // the same inside FS_UnloadArchive

  datatype Event = Activate | Execute(ticket: nat, own: bool) | GoIdle

  /** `io`: an archive access was started and its completion callback is still due.
      The last fields only record the run: the ticket (submission number) of each queued file,
      the next ticket, the tickets released unexecuted, and what the archive's code was asked to do. */
  datatype Machine = Machine(
    q: Queue<FileId>, pc: seq<Pc>, io: bool,
    procActivate: bool, procIdle: bool,
    ticket: map<FileId, nat>, nextTicket: nat, dropped: set<nat>, log: seq<Event>)

  /** One region run by thread `t`. */
  datatype Action =
    | DoPrepare(t: nat, f: FileId, syncCommand: bool, blocking: bool)
    | DoEnqueue(t: nat)
    | DoActivate(t: nat)
    | DoOperate(t: nat)
    | DoHandover(t: nat)
    | DoTranslate(t: nat)
    | DoStartIo(t: nat, inner: bool)
    | DoNotify(t: nat, ret: FsResult)
    | DoSyncWake(t: nat)
    | DoFinish(t: nat, ret: FsResult)
    | DoRelease(t: nat)
    | DoNext(t: nat)
    | DoWait(t: nat, f: FileId)
    | DoWaitWake(t: nat)
    | DoCancel(t: nat, f: FileId)
    | DoSuspend(t: nat)
    | DoSuspendWake(t: nat)
    | DoResume(t: nat)
    | DoUnload(t: nat)
    | DoUnloadWake(t: nat)
    | DoLoad(t: nat)

  // ---- the thread that serves each file handle ---------------------------------------

  /** The file whose client thread stands at `pc`. */
  function Client(pc: Pc): Option<FileId> {
    match pc
    case Sending(f, _) => Some(f)
    case Starting(f, _) => Some(f)
    case AwaitOperating(f) => Some(f)
    case AwaitIdle(f) => Some(f)
    case Ready(f, own) => if own then Some(f) else None
    case Translating(f, own) => if own then Some(f) else None
    case AwaitSync(f, _) => Some(f)
    case Releasing(f, _) => Some(f)
    case _ => None
  }

  predicate Unserved(pc: seq<Pc>, f: FileId) {
    forall t :: 0 <= t < |pc| ==> Client(pc[t]) != Some(f)
  }

  // ---- guards and effects ------------------------------------------------------------

  function Goto(m: Machine, t: nat, pc: Pc): Machine
    requires t < |m.pc|
  {
    m.(pc := m.pc[t := pc])
  }

  /** FSi_SendCommand is called: the handle is idle and no thread uses it. */
  predicate CanPrepare(m: Machine, t: nat, f: FileId) {
    t < |m.pc| && m.pc[t] == Idle && f in m.q.files && !m.q.files[f].busy && Unserved(m.pc, f)
  }

  function AfterPrepare(m: Machine, t: nat, f: FileId, syncCommand: bool, blocking: bool): Machine
    requires CanPrepare(m, t, f)
  {
    Goto(m.(q := Prepare(m.q, f, blocking)), t, Sending(f, syncCommand))
  }

  predicate CanEnqueue(m: Machine, t: nat) {
    t < |m.pc| && m.pc[t].Sending? && m.pc[t].f in m.q.files
  }

  function AfterEnqueue(m: Machine, t: nat): Machine
    requires CanEnqueue(m, t)
  {
    var f := m.pc[t].f;
    var (q, sent) := Enqueue(m.q, f, m.pc[t].syncCommand);
    if sent == Rejected then Goto(m.(q := q), t, Idle)
    else
      Goto(m.(q := q, ticket := m.ticket[f := m.nextTicket], nextTicket := m.nextTicket + 1), t,
           match sent case StartNow => Starting(f, false) case Queued => Idle case _ => AwaitOperating(f))
  }

  /** The archive's callback gets FS_COMMAND_ACTIVATE if FS_ARCHIVE_PROC_ACTIVATE is set. */
  predicate CanActivate(m: Machine, t: nat) {
    t < |m.pc| && (m.pc[t].Starting? || m.pc[t].Chosen?) && !m.pc[t].activated
  }

  function AfterActivate(m: Machine, t: nat): Machine
    requires CanActivate(m, t)
  {
    Goto(m.(log := if m.procActivate then m.log + [Activate] else m.log), t,
         if m.pc[t].Starting? then Starting(m.pc[t].f, true) else Chosen(m.pc[t].f, true))
  }

  predicate CanOperate(m: Machine, t: nat) {
    t < |m.pc| && (m.pc[t].Starting? || m.pc[t].Chosen?) && m.pc[t].activated && m.pc[t].f in m.q.files
  }

  function AfterOperate(m: Machine, t: nat): Machine
    requires CanOperate(m, t)
  {
    var f := m.pc[t].f;
    Goto(m.(q := Operate(m.q, f)), t,
         if !m.q.files[f].sync then Ready(f, false) else if m.pc[t].Starting? then Ready(f, true) else Idle)
  }

  /** A thread asleep in FSi_SendCommand or FS_WaitAsync finds OPERATING set. */
  predicate CanHandover(m: Machine, t: nat) {
    t < |m.pc| && m.pc[t].AwaitOperating? && m.pc[t].f in m.q.files && m.q.files[m.pc[t].f].operating
  }

  function AfterHandover(m: Machine, t: nat): Machine
    requires CanHandover(m, t)
  {
    Goto(m, t, Ready(m.pc[t].f, true))
  }

  predicate CanTranslate(m: Machine, t: nat) {
    t < |m.pc| && m.pc[t].Ready? && m.pc[t].f in m.q.files && m.pc[t].f in m.ticket
  }

  function AfterTranslate(m: Machine, t: nat): Machine
    requires CanTranslate(m, t)
  {
    var f := m.pc[t].f;
    var own := m.pc[t].own;
    if own || !m.q.files[f].sync then
      var q := if own then m.q else MarkAsync(m.q, f);
      Goto(m.(q := TranslateBegin(q, f), log := m.log + [Execute(m.ticket[f], own)]), t, Translating(f, own))
    else Goto(m.(q := Operate(m.q, f)), t, Idle)
  }

  /** The command function starts an access and answers PROC_ASYNC, or FSi_ReadTable does and waits within it. */
  predicate CanStartIo(m: Machine, t: nat, inner: bool) {
    && t < |m.pc| && m.pc[t].Translating? && m.pc[t].f in m.q.files && !m.io
    && (inner ==> m.q.files[m.pc[t].f].sync)
  }

  function AfterStartIo(m: Machine, t: nat, inner: bool): Machine
    requires CanStartIo(m, t, inner)
  {
    var f := m.pc[t].f;
    if m.q.files[f].sync then Goto(m.(q := m.q.(isSync := true), io := true), t, AwaitSync(f, inner))
    else Goto(m.(io := true), t, Idle)
  }

  /** The access ends: FS_NotifyArchiveAsyncEnd runs in the context `t`. */
  predicate CanNotify(m: Machine, t: nat) {
    t < |m.pc| && m.pc[t] == Idle && m.io && m.q.list != [] && ListOk(m.q)
  }

  function AfterNotify(m: Machine, t: nat, ret: FsResult): Machine
    requires CanNotify(m, t)
  {
    Goto(m.(q := Notify(m.q, ret), io := false), t, if m.q.isAsync then Advancing else Idle)
  }

  predicate CanSyncWake(m: Machine, t: nat) {
    t < |m.pc| && m.pc[t].AwaitSync? && !m.q.isSync && m.pc[t].f in m.q.files
  }

  /** Inside a command function the thread goes on with it; FSi_TranslateCommand returns the error that
      FS_NotifyArchiveAsyncEnd has stored. */
  function AfterSyncWake(m: Machine, t: nat): Machine
    requires CanSyncWake(m, t)
  {
    var f := m.pc[t].f;
    Goto(m, t, if m.pc[t].inner then Translating(f, true) else Releasing(f, m.q.files[f].error))
  }

  predicate CanFinish(m: Machine, t: nat) {
    t < |m.pc| && m.pc[t].Translating? && m.pc[t].f in m.q.files
  }

  function AfterFinish(m: Machine, t: nat, ret: FsResult): Machine
    requires CanFinish(m, t)
  {
    Goto(m.(q := TranslateEnd(m.q, m.pc[t].f, ret)), t,
         if m.pc[t].own then Releasing(m.pc[t].f, ret) else Advancing)
  }

  predicate CanRelease(m: Machine, t: nat) {
    t < |m.pc| && m.pc[t].Releasing? && m.pc[t].f in m.q.files
  }

  function AfterRelease(m: Machine, t: nat): Machine
    requires CanRelease(m, t)
  {
    Goto(m.(q := Release(m.q, m.pc[t].f, m.pc[t].ret)), t, Advancing)
  }

  /** The tickets of the files that `m` has queued and `after` has not. */
  function Lost(m: Machine, after: seq<FileId>): set<nat> {
    set f | f in m.q.list && f !in after && f in m.ticket :: m.ticket[f]
  }

  /** Thread `t` continues after FSi_NextCommand made the choice `p`. */
  function Picked(m: Machine, t: nat, p: Pick<FileId>): Machine
    requires t < |m.pc|
  {
    Goto(m.(q := p.q, dropped := m.dropped + Lost(m, p.q.list),
            log := if p.idle && m.procIdle then m.log + [GoIdle] else m.log), t,
         if p.chosen.Some? then Chosen(p.chosen.value, !p.start) else Idle)
  }

  predicate CanNext(m: Machine, t: nat) {
    t < |m.pc| && m.pc[t] == Advancing && ListOk(m.q)
  }

  function AfterNext(m: Machine, t: nat): Machine
    requires CanNext(m, t)
  {
    Picked(m, t, Next(m.q))
  }

  /** FS_WaitAsync is called: no thread uses the handle. */
  predicate CanWait(m: Machine, t: nat, f: FileId) {
    t < |m.pc| && m.pc[t] == Idle && f in m.q.files && Unserved(m.pc, f)
  }

  function AfterWait(m: Machine, t: nat, f: FileId): Machine
    requires CanWait(m, t, f)
  {
    var st := m.q.files[f];
    if !st.busy then m
    else if !st.sync && !st.operating then Goto(m.(q := TakeOver(m.q, f)), t, AwaitOperating(f))
    else Goto(m, t, AwaitIdle(f))
  }

  predicate CanWaitWake(m: Machine, t: nat) {
    t < |m.pc| && m.pc[t].AwaitIdle? && m.pc[t].f in m.q.files && !m.q.files[m.pc[t].f].busy
  }

  predicate CanCancel(m: Machine, t: nat, f: FileId) {
    t < |m.pc| && m.pc[t] == Idle && f in m.q.files
  }

  function AfterCancel(m: Machine, t: nat, f: FileId): Machine
    requires CanCancel(m, t, f)
  {
    m.(q := Cancel(m.q, f))
  }

  predicate IsIdle(m: Machine, t: nat) {
    t < |m.pc| && m.pc[t] == Idle
  }

  function AfterSuspend(m: Machine, t: nat): Machine
    requires IsIdle(m, t)
  {
    var (q, sleep) := Suspend(m.q);
    Goto(m.(q := q), t, if sleep then AwaitSuspend else Idle)
  }

  predicate CanSuspendWake(m: Machine, t: nat) {
    t < |m.pc| && m.pc[t] == AwaitSuspend && !m.q.suspending
  }

  predicate CanResume(m: Machine, t: nat) {
    IsIdle(m, t) && ListOk(m.q)
  }

  function AfterResume(m: Machine, t: nat): Machine
    requires CanResume(m, t)
  {
    Picked(m, t, Resume(m.q))
  }

  predicate CanUnload(m: Machine, t: nat) {
    IsIdle(m, t) && m.q.loaded && ListOk(m.q)
  }

  function Unloaded(m: Machine, t: nat, resume: bool): Machine
    requires t < |m.pc| && ListOk(m.q)
  {
    Goto(m.(q := Unload(m.q, resume), dropped := m.dropped + Lost(m, [])), t, Idle)
  }

  function AfterUnload(m: Machine, t: nat): Machine
    requires CanUnload(m, t)
  {
    var (q, sleep) := Suspend(m.q);
    if sleep then Goto(m.(q := q), t, AwaitUnload)
    else Unloaded(m.(q := q), t, !m.q.suspend)
  }

  predicate CanUnloadWake(m: Machine, t: nat) {
    t < |m.pc| && m.pc[t] == AwaitUnload && !m.q.suspending && ListOk(m.q)
  }

  function AfterUnloadWake(m: Machine, t: nat): Machine
    requires CanUnloadWake(m, t)
  {
    Unloaded(m, t, true)
  }

  predicate Enabled(m: Machine, a: Action) {
    match a
    case DoPrepare(t, f, _, _) => CanPrepare(m, t, f)
    case DoEnqueue(t) => CanEnqueue(m, t)
    case DoActivate(t) => CanActivate(m, t)
    case DoOperate(t) => CanOperate(m, t)
    case DoHandover(t) => CanHandover(m, t)
    case DoTranslate(t) => CanTranslate(m, t)
    case DoStartIo(t, inner) => CanStartIo(m, t, inner)
    case DoNotify(t, _) => CanNotify(m, t)
    case DoSyncWake(t) => CanSyncWake(m, t)
    case DoFinish(t, _) => CanFinish(m, t)
    case DoRelease(t) => CanRelease(m, t)
    case DoNext(t) => CanNext(m, t)
    case DoWait(t, f) => CanWait(m, t, f)
    case DoWaitWake(t) => CanWaitWake(m, t)
    case DoCancel(t, f) => CanCancel(m, t, f)
    case DoSuspend(t) => IsIdle(m, t)
    case DoSuspendWake(t) => CanSuspendWake(m, t)
    case DoResume(t) => CanResume(m, t)
    case DoUnload(t) => CanUnload(m, t)
    case DoUnloadWake(t) => CanUnloadWake(m, t)
    case DoLoad(t) => IsIdle(m, t) && !m.q.loaded
  }

  function Apply(m: Machine, a: Action): Machine
    requires Enabled(m, a)
  {
    match a
    case DoPrepare(t, f, syncCommand, blocking) => AfterPrepare(m, t, f, syncCommand, blocking)
    case DoEnqueue(t) => AfterEnqueue(m, t)
    case DoActivate(t) => AfterActivate(m, t)
    case DoOperate(t) => AfterOperate(m, t)
    case DoHandover(t) => AfterHandover(m, t)
    case DoTranslate(t) => AfterTranslate(m, t)
    case DoStartIo(t, inner) => AfterStartIo(m, t, inner)
    case DoNotify(t, ret) => AfterNotify(m, t, ret)
    case DoSyncWake(t) => AfterSyncWake(m, t)
    case DoFinish(t, ret) => AfterFinish(m, t, ret)
    case DoRelease(t) => AfterRelease(m, t)
    case DoNext(t) => AfterNext(m, t)
    case DoWait(t, f) => AfterWait(m, t, f)
    case DoWaitWake(t) => Goto(m, t, Idle)
    case DoCancel(t, f) => AfterCancel(m, t, f)
    case DoSuspend(t) => AfterSuspend(m, t)
    case DoSuspendWake(t) => Goto(m, t, Idle)
    case DoResume(t) => AfterResume(m, t)
    case DoUnload(t) => AfterUnload(m, t)
    case DoUnloadWake(t) => AfterUnloadWake(m, t)
    case DoLoad(t) => m.(q := m.q.(loaded := true))
  }

  /** A freshly initialised archive, `n` idle threads and the handles of `files`, none busy. */
  predicate Initial(m: Machine) {
    && m.q.list == []
    && (forall f | f in m.q.files :: !m.q.files[f].busy && !m.q.files[f].cancel && !m.q.files[f].sync
                                   && !m.q.files[f].isAsync && !m.q.files[f].operating)
    && !m.q.running && !m.q.suspend && !m.q.suspending && !m.q.canceling && !m.q.unloading
    && !m.q.isAsync && !m.q.isSync
    && (forall t :: 0 <= t < |m.pc| ==> m.pc[t] == Idle)
    && !m.io && m.ticket == map[] && m.nextTicket == 0 && m.dropped == {} && m.log == []
  }

  /** No command is in the hands of a thread or of the hardware: the archive is not RUNNING, or the
      thread that runs it is just about to call FSi_NextCommand. */
  predicate Unattended(m: Machine) {
    !m.q.running || exists u :: 0 <= u < |m.pc| && m.pc[u] == Advancing
  }

  /** An unloading thread that slept in FS_SuspendArchive finds the archive unattended when it wakes. */
  predicate Orderly(m: Machine, a: Action) {
    a.DoUnloadWake? ==> Unattended(m)
  }

  /** `m'` is reached from `m` by the actions `run`, every one of them enabled and orderly. */
  predicate Runs(m: Machine, run: seq<Action>, m': Machine)
    decreases |run|
  {
    if run == [] then m' == m
    else Enabled(m, run[0]) && Orderly(m, run[0]) && Runs(Apply(m, run[0]), run[1..], m')
  }
}
