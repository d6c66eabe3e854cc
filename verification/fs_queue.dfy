/** The atomic regions of the file-system command queue (fs_archive.c, fs_command.c, fs_file.c),
    as functions on the state of one archive. A region is what runs between
    OS_DisableInterrupts and the matching OS_RestoreInterrupts.

    `F` is the type of file handles. Module QueueMachine runs these functions as the steps of all
    threads; module ArchiveObjects proves the imperative code equal to them. */
module CommandQueue {
  import opened Basics

  datatype FsResult = Success | Failure | Busy | Canceled | Unsupported | Error

  /** FSFile.stat (the bits the queue uses) and FSFile.error. */
  datatype Stat = Stat(busy: bool, cancel: bool, sync: bool, isAsync: bool, operating: bool, error: FsResult)

  /** FSArchive.flag and FSArchive.list, with the status of every file handle. */
  datatype Queue<F> = Queue(
    list: seq<F>, files: map<F, Stat>,
    running: bool, suspend: bool, suspending: bool, canceling: bool,
    unloading: bool, loaded: bool, isAsync: bool, isSync: bool)

  /** What FSi_NextCommand decides: the head it starts, whether ACTIVATE is due, whether IDLE was called. */
  datatype Pick<F> = Pick(q: Queue<F>, chosen: Option<F>, start: bool, idle: bool)

  /** How the first region of FSi_SendCommand ends. */
  datatype Sent = Rejected | StartNow | Queued | Sleep

  function Released(ret: FsResult): Stat {
    Stat(false, false, false, false, false, ret)
  }

  function Without<F(==)>(s: seq<F>, f: F): (r: seq<F>)
    ensures (forall x | x in r :: x in s && x != f) && (forall x | x in s :: x in r || x == f)
    ensures Distinct(s) ==> Distinct(r)
    ensures |r| <= |s|
    ensures f !in s ==> r == s
  {
    if s == [] then []
    else
      var rest := Without(s[1..], f);
      assert s == [s[0]] + s[1..];
      assert Distinct(s) ==> s[0] !in s[1..] && s[0] !in rest;
      if s[0] == f then rest else [s[0]] + rest
  }

  /** The files of the list that the cancel sweep leaves alone, in order. */
  function Kept<F(==)>(s: seq<F>, files: map<F, Stat>): (r: seq<F>)
    requires forall f :: f in s ==> f in files
    ensures (forall x | x in r :: x in s && !files[x].cancel) && (forall x | x in s :: x in r || files[x].cancel)
    ensures Distinct(s) ==> Distinct(r)
  {
    if s == [] then []
    else
      var rest := Kept(s[1..], files);
      assert s == [s[0]] + s[1..];
      if files[s[0]].cancel then rest else [s[0]] + rest
  }

  predicate ListOk<F(==)>(q: Queue<F>) {
    Distinct(q.list) && forall f :: f in q.list ==> f in q.files
  }

  // ---- fs_command.c ------------------------------------------------------------------

  /** FSi_ReleaseCommand */
  function Release<F(==)>(q: Queue<F>, f: F, ret: FsResult): Queue<F> {
    q.(list := Without(q.list, f), files := q.files[f := Released(ret)])
  }

  /** FSi_TranslateCommand, up to the call of the command function. */
  function TranslateBegin<F(==)>(q: Queue<F>, f: F): Queue<F>
    requires f in q.files
  {
    if q.files[f].sync then q.(isSync := true) else q.(isAsync := true)
  }

  /** FSi_TranslateCommand, after a command function that did not return PROC_ASYNC. */
  function TranslateEnd<F(==)>(q: Queue<F>, f: F, ret: FsResult): Queue<F>
    requires f in q.files
  {
    if !q.files[f].sync then Release(q.(isAsync := false), f, ret)
    else q.(isSync := false, files := q.files[f := q.files[f].(error := ret)])
  }

  // ---- fs_archive.c ------------------------------------------------------------------

  /** The cancel sweep at the head of FSi_NextCommand. */
  function Sweep<F(==)>(q: Queue<F>): Queue<F>
    requires ListOk(q)
  {
    if !q.canceling then q
    else q.(canceling := false,
            list := Kept(q.list, q.files),
            files := map f | f in q.files ::
              if f in q.list && q.files[f].cancel then Released(Canceled) else q.files[f])
  }

  /** FSi_NextCommand, first region. */
  function Next<F(==)>(q: Queue<F>): Pick<F>
    requires ListOk(q)
  {
    var q1 := Sweep(q);
    if !q1.suspending && !q1.suspend && q1.list != [] then
      Pick(q1.(running := true), Some(q1.list[0]), !q1.running, false)
    else
      var q2 := q1.(running := false);
      var q3 := if q2.suspending then q2.(suspending := false, suspend := true) else q2;
      Pick(q3, None, false, q1.running)
  }

  /** `p_file->stat |= FS_FILE_STATUS_OPERATING`, second region of FSi_NextCommand and FSi_SendCommand. */
  function Operate<F(==)>(q: Queue<F>, f: F): Queue<F>
    requires f in q.files
  {
    q.(files := q.files[f := q.files[f].(operating := true)])
  }

  /** The region of FSi_ExecuteAsyncCommand when the file is still asynchronous. */
  function MarkAsync<F(==)>(q: Queue<F>, f: F): Queue<F>
    requires f in q.files
  {
    q.(files := q.files[f := q.files[f].(operating := true, isAsync := true)])
  }

  /** FSi_SendCommand before its first region (and FSi_ReadFileCore's early SYNC bit). */
  function Prepare<F(==)>(q: Queue<F>, f: F, blocking: bool): Queue<F>
    requires f in q.files
  {
    var st := q.files[f];
    q.(files := q.files[f := st.(busy := true, error := Busy, sync := st.sync || blocking)])
  }

  /** FSi_SendCommand, first region. `syncCommand` is `bit & FS_ARCHIVE_PROC_SYNC`. */
  function Enqueue<F(==)>(q: Queue<F>, f: F, syncCommand: bool): (Queue<F>, Sent)
    requires f in q.files
  {
    if q.unloading then (Release(q, f, Canceled), Rejected)
    else
      var st := q.files[f];
      var st1 := st.(sync := st.sync || syncCommand);
      var q1 := q.(files := q.files[f := st1], list := Without(q.list, f) + [f]);
      if !q1.suspend && !q1.running then (q1.(running := true), StartNow)
      else if !st1.sync then (q1, Queued)
      else (q1, Sleep)
  }

  /** FS_SuspendArchive up to its sleep; the second result says whether it has to sleep. */
  function Suspend<F(==)>(q: Queue<F>): (Queue<F>, bool) {
    if q.suspend then (q, false)
    else if q.running then (q.(suspending := true), true)
    else (q.(suspend := true), false)
  }

  /** FS_ResumeArchive */
  function Resume<F(==)>(q: Queue<F>): Pick<F>
    requires ListOk(q)
  {
    if q.suspend then Next(q.(suspend := false)) else Pick(q, None, false, false)
  }

  /** FS_UnloadArchive after its call of FS_SuspendArchive. */
  function Unload<F(==)>(q: Queue<F>, resume: bool): Queue<F>
    requires ListOk(q)
  {
    var q1 := q.(unloading := true, list := [],
                 files := map f | f in q.files :: if f in q.list then Released(Canceled) else q.files[f]);
    var q2 := if resume then Resume(q1).q else q1;
    q2.(canceling := false, loaded := false, unloading := false)
  }

  /** FS_NotifyArchiveAsyncEnd up to its call of FSi_NextCommand. */
  function Notify<F(==)>(q: Queue<F>, ret: FsResult): Queue<F>
    requires ListOk(q) && q.list != []
  {
    var f := q.list[0];
    if q.isAsync then Release(q.(isAsync := false), f, ret)
    else q.(isSync := false, files := q.files[f := q.files[f].(error := ret)])
  }

  // ---- fs_file.c ---------------------------------------------------------------------

  /** FS_WaitAsync when the caller takes the command over. */
  function TakeOver<F(==)>(q: Queue<F>, f: F): Queue<F>
    requires f in q.files
  {
    q.(files := q.files[f := q.files[f].(sync := true)])
  }

  /** FS_CancelFile */
  function Cancel<F(==)>(q: Queue<F>, f: F): Queue<F>
    requires f in q.files
  {
    if q.files[f].busy then q.(canceling := true, files := q.files[f := q.files[f].(cancel := true)])
    else q
  }
}
