/** Backup requests (card_backup.c and CARDi_Request of card_request.c): a stream command is cut into
    256-byte requests, a sector write erases each sector and programs it page by page. */
module CardBackup {
  import opened Basics
  import opened Bytes
  import opened BackupDevice
  import opened CardSpi

  const CHUNK := 256   // sizeof(backup_cache_page_buf)
  const CARD_RETRY_COUNT_MAX := 10

  // ---- one request -------------------------------------------------------------------

  /** What a device's memory does with the bytes of a request. */
  function Cells(spec: Spec, req: Req): Kind {
    if req == Write then Eeprom else spec.kind
  }

  /** How a request that programs, writes or verifies `data` may leave the device: `done` bytes are written. */
  ghost predicate Sent(spec: Spec, req: Req, was: seq<Byte>, now: seq<Byte>, dst: nat, data: seq<Byte>, done: nat,
                       result: CardResult)
    requires dst + |data| <= |was|
  {
    && done <= |data| && now == Flat(Cells(spec, req), was, dst, data[..done])
    && (result == Unsupported <==> req !in spec.caps)
    && (req == Verify || result == Unsupported ==> done == 0)
    && (result == Success ==> if req == Verify then now[dst..dst + |data|] == data else done == |data|)
    && (result == Failure ==> req == Verify && now[dst..dst + |data|] != data) && (result == Timeout ==> req != Verify)
    && result in {Success, Failure, Timeout, NoResponse, Unsupported}
  }

  /** How often a request is sent at most. */
  function Attempts(retries: int): nat {
    if retries > 1 then retries else 1
  }

  /** The ARM7's task thread: it clears the result, refuses a request that the device is not capable of, and runs
      the core function of any other. */
  method Dispatch(bus: Bus, req: Req, dst: nat, data: seq<Byte>) returns (ghost done: nat)
    requires bus.Valid() && req in {Program, Write, Verify} && dst + |data| <= bus.spec.totalSize
    modifies bus
    ensures bus.verified == old(bus.verified) + if req == Verify && bus.result == Success then |data| else 0
    ensures bus.looks == old(bus.looks)
    ensures bus.Valid() && Sent(bus.spec, req, old(bus.device.mem), bus.device.mem, dst, data, done, bus.result)
    ensures bus.timeouts >= old(bus.timeouts) && (bus.result == Timeout ==> bus.timeouts > old(bus.timeouts))
    ensures !bus.trouble ==> !old(bus.trouble) && bus.result !in {Timeout, NoResponse}
  {
    hide Identified;
    done := 0;
    FlatNothing(Cells(bus.spec, req), bus.device.mem, dst);
    bus.result := Success;
    if req !in bus.spec.caps {
      bus.result := Unsupported;
    } else if req == Program {
      done := bus.ProgramBackupCore(dst, data);
    } else if req == Write {
      done := bus.WriteBackupCore(dst, data);
    } else {
      bus.VerifyBackupCore(dst, data);
    }
  }

  /** CARDi_Request for them: after a time-out the whole request is sent again, up to `retries` times in all. It
      reports a time-out only if every attempt ran into one. */
  method Request(bus: Bus, req: Req, dst: nat, data: seq<Byte>, retries: int) returns (ok: bool, ghost done: nat)
    requires bus.Valid() && req in {Program, Write, Verify} && dst + |data| <= bus.spec.totalSize
    modifies bus
    ensures bus.verified == old(bus.verified) + if req == Verify && bus.result == Success then |data| else 0
    ensures bus.looks == old(bus.looks)
    ensures bus.Valid() && Sent(bus.spec, req, old(bus.device.mem), bus.device.mem, dst, data, done, bus.result)
    ensures ok == (bus.result == Success)
    ensures bus.timeouts >= old(bus.timeouts)
    ensures bus.result == Timeout ==> bus.timeouts >= old(bus.timeouts) + Attempts(retries)
    ensures !bus.trouble ==> !old(bus.trouble) && bus.result !in {Timeout, NoResponse}
  {
    hide Sent;
    ghost var was := bus.device.mem;
    var left := retries;
    done := Dispatch(bus, req, dst, data);
    left := left - 1;
    while bus.result == Timeout && left > 0
      invariant bus.Valid() && Sent(bus.spec, req, was, bus.device.mem, dst, data, done, bus.result)
      invariant !bus.trouble ==> !old(bus.trouble) && bus.result !in {Timeout, NoResponse}
      invariant bus.looks == old(bus.looks)
      invariant bus.verified == old(bus.verified) + if req == Verify && bus.result == Success then |data| else 0
      invariant bus.timeouts >= old(bus.timeouts)
      invariant bus.result == Timeout ==> bus.timeouts >= old(bus.timeouts) + (retries - left) && left < retries
    {
      ghost var before, first := bus.device.mem, bus.result;
      ghost var again := Dispatch(bus, req, dst, data);
      SentAgain(bus.spec, req, was, before, bus.device.mem, dst, data, done, again, bus.result);
      done := if done > again then done else again;
      left := left - 1;
    }
    ok := bus.result == Success;
  }

  /** A request that timed out and is sent again has written the longer of the two prefixes. */
  lemma SentAgain(spec: Spec, req: Req, was: seq<Byte>, before: seq<Byte>, now: seq<Byte>, dst: nat, data: seq<Byte>,
                  done: nat, again: nat, result: CardResult)
    requires dst + |data| <= |was| == |before|
    ensures Sent(spec, req, was, before, dst, data, done, Timeout)
         && Sent(spec, req, before, now, dst, data, again, result)
        ==> Sent(spec, req, was, now, dst, data, if done > again then done else again, result)
  {
    hide Flat;
    if Sent(spec, req, was, before, dst, data, done, Timeout)
       && Sent(spec, req, before, now, dst, data, again, result) {
      FlatAgain(Cells(spec, req), was, dst, data, done, again);
    }
  }

  /** CARD_REQ_READ_BACKUP, sent once. */
  method RequestRead(bus: Bus, src: nat, len: nat) returns (ok: bool, bytes: seq<Byte>)
    requires bus.Valid() && src + len <= bus.spec.totalSize
    modifies bus
    ensures bus.looks == old(bus.looks) && bus.verified == old(bus.verified)
    ensures bus.Valid() && bus.device.mem == old(bus.device.mem) && bus.result in {Success, NoResponse}
    ensures ok == (bus.result == Success) && (ok ==> bytes == bus.device.mem[src..src + len])
    ensures bus.timeouts >= old(bus.timeouts)
    ensures !bus.trouble ==> !old(bus.trouble) && ok
  {
    bus.result := Success;
    bytes := bus.ReadBackupCore(src, len);
    ok := bus.result == Success;
  }

  /** CARD_REQ_ERASE_SECTOR_BACKUP for at most one sector, with its retries. */
  method RequestErase(bus: Bus, dst: nat, len: nat, retries: int) returns (ok: bool, ghost done: nat)
    requires bus.Valid() && len <= bus.spec.sectSize && dst + len <= bus.spec.totalSize
    modifies bus
    ensures bus.looks == old(bus.looks) && bus.verified == old(bus.verified)
    ensures bus.Valid() && ok == (bus.result == Success)
    ensures done <= len && bus.device.mem == Erased(old(bus.device.mem), dst, done) && (ok ==> done == len)
    ensures bus.result == Unsupported <==> bus.spec.kind != Flash
    ensures bus.result == InvalidParam <==>
      bus.spec.kind == Flash && !(dst % bus.spec.sectSize == 0 && len % bus.spec.sectSize == 0)
    ensures bus.result in {Success, Timeout, NoResponse, Unsupported, InvalidParam}
    ensures bus.result in {Unsupported, InvalidParam} ==> done == 0
    ensures bus.timeouts >= old(bus.timeouts)
    ensures bus.result == Timeout ==> bus.timeouts >= old(bus.timeouts) + Attempts(retries)
    ensures !bus.trouble ==> !old(bus.trouble) && bus.result !in {Timeout, NoResponse}
  {
    ghost var was := bus.device.mem;
    var left := retries;
    assert Erased(was, dst, 0) == was;
    done := DispatchErase(bus, dst, len);
    left := left - 1;
    while bus.result == Timeout && left > 0
      invariant bus.Valid() && done <= len && bus.device.mem == Erased(was, dst, done)
      invariant bus.result == Success ==> done == len
      invariant bus.result == Unsupported <==> bus.spec.kind != Flash
      invariant bus.result == InvalidParam <==>
        bus.spec.kind == Flash && !(dst % bus.spec.sectSize == 0 && len % bus.spec.sectSize == 0)
      invariant bus.result in {Success, Timeout, NoResponse, Unsupported, InvalidParam}
      invariant bus.result in {Unsupported, InvalidParam} ==> done == 0
      invariant !bus.trouble ==> !old(bus.trouble) && bus.result !in {Timeout, NoResponse}
      invariant bus.looks == old(bus.looks) && bus.verified == old(bus.verified)
      invariant bus.timeouts >= old(bus.timeouts)
      invariant bus.result == Timeout ==> bus.timeouts >= old(bus.timeouts) + (retries - left) && left < retries
    {
      ghost var again := DispatchErase(bus, dst, len);
      ErasedAgain(was, dst, done, again);
      done := if done > again then done else again;
      left := left - 1;
    }
    ok := bus.result == Success;
  }

  lemma ErasedAgain(mem: seq<Byte>, at: nat, m: nat, n: nat)
    requires at + m <= |mem| && at + n <= |mem|
    ensures Erased(Erased(mem, at, m), at, n) == Erased(mem, at, if m > n then m else n)
  {}

  method DispatchErase(bus: Bus, dst: nat, len: nat) returns (ghost done: nat)
    requires bus.Valid() && len <= bus.spec.sectSize && dst + len <= bus.spec.totalSize
    modifies bus
    ensures bus.looks == old(bus.looks) && bus.verified == old(bus.verified)
    ensures bus.Valid() && done <= len && bus.device.mem == Erased(old(bus.device.mem), dst, done)
    ensures bus.result == Success ==> done == len
    ensures bus.result == Unsupported <==> bus.spec.kind != Flash
    ensures bus.result == InvalidParam <==>
      bus.spec.kind == Flash && !(dst % bus.spec.sectSize == 0 && len % bus.spec.sectSize == 0)
    ensures bus.result in {Success, Timeout, NoResponse, Unsupported, InvalidParam}
    ensures bus.result in {Unsupported, InvalidParam} ==> done == 0
    ensures bus.timeouts >= old(bus.timeouts) && (bus.result == Timeout ==> bus.timeouts > old(bus.timeouts))
    ensures !bus.trouble ==> !old(bus.trouble) && bus.result !in {Timeout, NoResponse}
  {
    done := 0;
    assert Erased(bus.device.mem, dst, 0) == bus.device.mem;
    bus.result := Success;
    if EraseSector !in bus.spec.caps {
      bus.result := Unsupported;
    } else {
      ghost var was := bus.device.mem;
      done := bus.EraseBackupSectorCore(dst, len);
      if bus.result == InvalidParam {
        assert bus.device.mem == was;
        done := 0;
      }
    }
  }

  // ---- a stream of requests ----------------------------------------------------------

  /** What one more chunk of a stream does to the device. */
  lemma ChunkJoins(spec: Spec, req: Req, was: seq<Byte>, before: seq<Byte>, now: seq<Byte>, dst0: nat, src: seq<Byte>,
                   from: nat, len: nat, more: nat, result: CardResult)
    requires from + len <= |src| && dst0 + |src| <= |was| == |before|
    ensures before == Flat(Cells(spec, req), was, dst0, src[..if req == Verify then 0 else from])
      && Sent(spec, req, before, now, dst0 + from, src[from..from + len], more, result)
      ==> now == Flat(Cells(spec, req), was, dst0, src[..if req == Verify then 0 else from + more])
          && now[dst0..dst0 + from] == before[dst0..dst0 + from]
  {
    hide Flat;
    if before == Flat(Cells(spec, req), was, dst0, src[..if req == Verify then 0 else from])
       && Sent(spec, req, before, now, dst0 + from, src[from..from + len], more, result)
    {
      var chunk := src[from..from + len];
      FlatNothing(Cells(spec, req), before, dst0 + from);
      assert src[..from] + chunk[..more] == src[..from + more];
      FlatJoins(Cells(spec, req), was, dst0, src[..from], chunk[..more]);
      FlatKeeps(Cells(spec, req), before, dst0 + from, chunk[..more], dst0, dst0 + from);
    }
  }

  /** The first `n` bytes of `src` stand at `dst`. */
  ghost predicate Matches(mem: seq<Byte>, dst: nat, src: seq<Byte>, n: nat) {
    n <= |src| && dst + n <= |mem| && mem[dst..dst + n] == src[..n]
  }

  lemma MatchesStart(mem: seq<Byte>, dst: nat, src: seq<Byte>)
    ensures dst <= |mem| ==> Matches(mem, dst, src, 0)
  {}

  lemma MatchesNext(before: seq<Byte>, now: seq<Byte>, dst: nat, src: seq<Byte>, from: nat, len: nat)
    requires from + len <= |src| && dst + |src| <= |before| == |now|
    requires now[dst..dst + from] == before[dst..dst + from]
    requires now[dst + from..dst + from + len] == src[from..from + len]
    ensures Matches(before, dst, src, from) ==> Matches(now, dst, src, from + len)
  {
    if Matches(before, dst, src, from) {
      assert now[dst..dst + from + len] == now[dst..dst + from] + now[dst + from..dst + from + len];
      assert src[..from + len] == src[..from] + src[from..from + len];
    }
  }

  /** One chunk: the request, and with `verify` the comparison behind it. */
  method SendChunk(bus: Bus, req: Req, verify: bool, dst: nat, chunk: seq<Byte>, retries: int)
    returns (ok: bool, ghost more: nat, ghost sent: CardResult)
    requires bus.Valid() && req in {Program, Write, Verify} && dst + |chunk| <= bus.spec.totalSize
    modifies bus
    ensures ok && verify ==> bus.verified >= old(bus.verified) + |chunk|
    ensures bus.looks == old(bus.looks) && bus.verified >= old(bus.verified)
    ensures bus.Valid() && Sent(bus.spec, req, old(bus.device.mem), bus.device.mem, dst, chunk, more, sent)
    ensures ok == (bus.result == Success) && (ok ==> sent == Success)
    ensures ok && (verify || req == Verify) ==> bus.device.mem[dst..dst + |chunk|] == chunk
    ensures bus.result in {Success, Failure, Timeout, NoResponse, Unsupported}
    ensures bus.result == Unsupported <==> req !in bus.spec.caps
    ensures bus.result == Failure ==> (verify || req == Verify) && bus.device.mem[dst..dst + |chunk|] != chunk
    ensures sent == Success || sent == bus.result
    ensures bus.timeouts >= old(bus.timeouts)
    ensures bus.result == Timeout ==> bus.timeouts >= old(bus.timeouts) + Attempts(retries)
    ensures !bus.trouble ==> !old(bus.trouble) && bus.result !in {Timeout, NoResponse}
  {
    hide Flat;
    ok, more := Request(bus, req, dst, chunk, retries);
    sent := bus.result;
    if ok && verify {
      ghost var before := bus.device.mem;
      FlatNothing(Cells(bus.spec, Verify), before, dst);
      ghost var none;
      ok, none := Request(bus, Verify, dst, chunk, 1);
      VerifyKeeps(bus.spec, before, bus.device.mem, dst, chunk, none, bus.result);
    }
  }

  lemma VerifyKeeps(spec: Spec, was: seq<Byte>, now: seq<Byte>, dst: nat, data: seq<Byte>, done: nat,
                    result: CardResult)
    requires dst + |data| <= |was| && Sent(spec, Verify, was, now, dst, data, done, result)
    ensures now == was
  {
    FlatNothing(Cells(spec, Verify), was, dst);
  }

  /** After the requests the range would hold `src`: whether comparing it succeeds. */
  ghost predicate Takes(spec: Spec, req: Req, mem: seq<Byte>, dst: nat, src: seq<Byte>)
    requires dst + |src| <= |mem|
  {
    Flat(Cells(spec, req), mem, dst, if req == Verify then [] else src)[dst..dst + |src|] == src
  }

  /** Only cells that can merely be cleared may fail to take what is written. */
  lemma OverwritesTake(spec: Spec, req: Req, mem: seq<Byte>, dst: nat, src: seq<Byte>)
    requires dst + |src| <= |mem| && req != Verify && Cells(spec, req) != Flash
    ensures Takes(spec, req, mem, dst, src)
  {}

  /** On cells that can only be cleared, a programmed range holds the source exactly if no bit would have to be set. */
  lemma TakesExact(spec: Spec, mem: seq<Byte>, dst: nat, src: seq<Byte>)
    requires dst + |src| <= |mem| && spec.kind == Flash
    ensures Takes(spec, Program, mem, dst, src) <==> BitsThere(mem, dst, src)
  {
    ProgramTakes(mem, dst, src);
  }

  /** A chunk that does not compare shows that the range does not take the source. */
  lemma ChunkRefused(spec: Spec, req: Req, was: seq<Byte>, now: seq<Byte>, dst0: nat, src: seq<Byte>, from: nat,
                     len: nat)
    requires from + len <= |src| && dst0 + |src| <= |was|
    ensures now == Flat(Cells(spec, req), was, dst0, src[..if req == Verify then 0 else from + len])
            && now[dst0 + from..dst0 + from + len] != src[from..from + len]
      ==> !Takes(spec, req, was, dst0, src)
  {
    hide Flat;
    var all := Flat(Cells(spec, req), was, dst0, if req == Verify then [] else src);
    if req == Verify {
      assert src[..0] == [];
    } else {
      SameChunk(Cells(spec, req), was, dst0, src, from, len);
    }
    SubSlice(all, dst0, |src|, from, len);
  }

  /** What comes behind a chunk does not change it. */
  lemma SameChunk(kind: Kind, mem: seq<Byte>, at: nat, src: seq<Byte>, from: nat, len: nat)
    requires from + len <= |src| && at + |src| <= |mem|
    ensures Flat(kind, mem, at, src[..from + len])[at + from..at + from + len]
         == Flat(kind, mem, at, src)[at + from..at + from + len]
  {}

  lemma AllTaken(spec: Spec, req: Req, was: seq<Byte>, now: seq<Byte>, dst0: nat, src: seq<Byte>)
    requires dst0 + |src| <= |was|
    ensures now == Flat(Cells(spec, req), was, dst0, src[..if req == Verify then 0 else |src|])
            && Matches(now, dst0, src, |src|)
      ==> Takes(spec, req, was, dst0, src)
  {
    assert src[..|src|] == src && src[..0] == [];
  }

  /** One iteration of the stream's loop, behind `from` bytes: `more` bytes are written. */
  method StreamChunk(bus: Bus, req: Req, verify: bool, dst0: nat, src: seq<Byte>, from: nat, len: nat, retries: int,
                     ghost was: seq<Byte>) returns (ok: bool, ghost more: nat)
    requires bus.Valid() && req in {Program, Write, Verify} && |was| == bus.spec.totalSize
    requires from + len <= |src| && dst0 + |src| <= bus.spec.totalSize
    requires bus.device.mem == Flat(Cells(bus.spec, req), was, dst0, src[..if req == Verify then 0 else from])
    requires verify || req == Verify ==> Matches(bus.device.mem, dst0, src, from)
    modifies bus
    ensures bus.Valid() && bus.looks == old(bus.looks) && bus.timeouts >= old(bus.timeouts) && more <= len
    ensures bus.device.mem == Flat(Cells(bus.spec, req), was, dst0, src[..if req == Verify then 0 else from + more])
    ensures verify || req == Verify ==> Matches(bus.device.mem, dst0, src, if ok then from + len else from)
    ensures ok == (bus.result == Success) && (ok && req != Verify ==> more == len)
    ensures bus.result in {Success, Failure, Timeout, NoResponse, Unsupported}
    ensures bus.result == Unsupported <==> req !in bus.spec.caps
    ensures bus.result == Unsupported ==> more == 0
    ensures bus.result == Failure ==> (verify || req == Verify) && !Takes(bus.spec, req, was, dst0, src)
    ensures bus.result == Timeout ==> bus.timeouts >= old(bus.timeouts) + Attempts(retries)
    ensures !bus.trouble ==> !old(bus.trouble) && bus.result !in {Timeout, NoResponse}
  {
    hide Flat, Identified, Sent, Matches, Takes, Attempts, Cells;
    ghost var before, sent := bus.device.mem, Success;
    ok, more, sent := SendChunk(bus, req, verify, dst0 + from, src[from..from + len], retries);
    ChunkJoins(bus.spec, req, was, before, bus.device.mem, dst0, src, from, len, more, sent);
    SentMore(bus.spec, req, before, bus.device.mem, dst0 + from, src[from..from + len], more, sent);
    if verify || req == Verify {
      MatchesNothing(before, bus.device.mem, dst0, src, from);
      if ok { MatchesNext(before, bus.device.mem, dst0, src, from, len); }
    }
    if !ok { ChunkRefused(bus.spec, req, was, bus.device.mem, dst0, src, from, len); }
  }

  /** CARDi_RequestStreamCommandCore in the modes that send, with and without verification: whatever happens, a
      prefix of `src` has been written flatly; it is all of `src` on success, and otherwise it ends in the first
      chunk that was not finished. What was verified is in the device, also in cells that can only be cleared. A
      stream of mere comparisons writes nothing. If no wait runs out and nothing is cancelled, a verified stream
      fails exactly if the memory does not take the source. */
  method RequestStream(bus: Bus, req: Req, verify: bool, dst0: nat, src: seq<Byte>, retries: int)
    returns (ghost done: nat, ghost finished: nat)
    requires bus.Valid() && req in {Program, Write, Verify} && dst0 + |src| <= bus.spec.totalSize
    modifies bus
    ensures finished <= CHUNK * (bus.looks - old(bus.looks))
    ensures bus.Valid() && done <= |src| && finished <= |src|
    ensures bus.device.mem == Flat(Cells(bus.spec, req), old(bus.device.mem), dst0, src[..done])
    ensures if req == Verify then done == 0 else finished <= done <= finished + CHUNK
    ensures finished % CHUNK == 0 || finished == |src|
    ensures bus.result == Success ==> finished == |src|
    ensures verify || req == Verify ==> Matches(bus.device.mem, dst0, src, finished)
    ensures bus.result == Canceled && req != Verify ==> done == finished
    ensures bus.result in {Success, Failure, Timeout, NoResponse, Unsupported, Canceled}
    ensures bus.result == Unsupported ==> req !in bus.spec.caps && done == 0
    ensures req !in bus.spec.caps ==> bus.result in {Unsupported, Canceled}
    ensures bus.result == Failure ==> verify || req == Verify
    ensures bus.result == Timeout ==> bus.timeouts >= old(bus.timeouts) + Attempts(retries)
    ensures !bus.trouble ==> !old(bus.trouble) && bus.result !in {Timeout, NoResponse, Canceled}
    ensures bus.result == Failure ==> !Takes(bus.spec, req, old(bus.device.mem), dst0, src)
    ensures bus.result == Success && (verify || req == Verify) ==> Takes(bus.spec, req, old(bus.device.mem), dst0, src)
  {
    hide Flat, Identified, Matches, Takes, Attempts, Cells;
    ghost var was, cells := bus.device.mem, Cells(bus.spec, req);
    var from, dst, rest := 0, dst0, |src|;
    assert Flat(cells, was, dst0, src[..0]) == was by { FlatNothing(cells, was, dst0); }
    MatchesStart(was, dst0, src);
    while true
      invariant 0 <= from && 0 <= rest && from + rest == |src| && dst == dst0 + from
      invariant from % CHUNK == 0 && (rest > 0 || from == 0)
      invariant bus.Valid() && (!bus.trouble ==> !old(bus.trouble)) && bus.timeouts >= old(bus.timeouts)
      invariant from <= CHUNK * (bus.looks - old(bus.looks))
      invariant bus.device.mem == Flat(cells, was, dst0, src[..if req == Verify then 0 else from])
      invariant verify || req == Verify ==> Matches(bus.device.mem, dst0, src, from)
      invariant from > 0 ==> req in bus.spec.caps
      decreases rest
    {
      finished := from;
      done := if req == Verify then 0 else from;
      var len := if CHUNK < rest then CHUNK else rest;
      var cancel := bus.Canceling();
      if cancel {
        break;
      }
      ghost var more;
      var ok;
      ok, more := StreamChunk(bus, req, verify, dst0, src, from, len, retries, was);
      done := if req == Verify then 0 else from + more;
      if !ok { break; }
      from, dst, rest := from + len, dst + len, rest - len;
      if rest == 0 {
        AllTaken(bus.spec, req, was, bus.device.mem, dst0, src);
        finished := from;
        break;
      }
    }
  }

  /** CARDi_ProgramAndVerifyBackup on flash: exactly the bits that are clear in a prefix of the source are cleared in
      the range. If no wait runs out and nothing is cancelled, it succeeds exactly if no bit would have to be set. A
      time-out is reported when ten waits have run out. */
  method ProgramAndVerify(bus: Bus, dst: nat, src: seq<Byte>) returns (ok: bool, ghost done: nat)
    requires bus.Valid() && bus.spec.kind == Flash && dst + |src| <= bus.spec.totalSize
    modifies bus
    ensures bus.Valid() && done <= |src| && BitsCleared(old(bus.device.mem), bus.device.mem, dst, src[..done])
    ensures ok ==>
      done == |src| && bus.device.mem[dst..dst + |src|] == src && BitsThere(old(bus.device.mem), dst, src)
    ensures bus.result == Failure ==> !BitsThere(old(bus.device.mem), dst, src)
    ensures bus.result == Timeout ==> bus.timeouts >= old(bus.timeouts) + 10
    ensures ok == (bus.result == Success)
    ensures !bus.trouble ==> !old(bus.trouble) && bus.result in {Success, Failure}
  {
    hide Flat, BitsCleared, BitsThere, Takes;
    ghost var was := bus.device.mem;
    ghost var finished;
    done, finished := RequestStream(bus, Program, true, dst, src, CARD_RETRY_COUNT_MAX);
    ok := bus.result == Success;
    FlatClears(was, dst, src[..done]);
    TakesExact(bus.spec, was, dst, src);
    assert src[..|src|] == src;
  }

  lemma SentMore(spec: Spec, req: Req, was: seq<Byte>, now: seq<Byte>, dst: nat, data: seq<Byte>, done: nat,
                 result: CardResult)
    requires dst + |data| <= |was|
    ensures Sent(spec, req, was, now, dst, data, done, result) ==>
      && done <= |data| && |now| == |was| && (req !in spec.caps ==> done == 0)
      && (result == Success && req != Verify ==> done == |data|) && (result == Failure ==> req == Verify)
  {}

  lemma MatchesNothing(before: seq<Byte>, now: seq<Byte>, dst: nat, src: seq<Byte>, from: nat)
    requires dst + from <= |before| == |now| && now[dst..dst + from] == before[dst..dst + from]
    ensures Matches(before, dst, src, from) ==> Matches(now, dst, src, from)
  {}

  /** The same function in the mode that receives: a prefix of the range, all of it on success, arrives in memory
      and nothing else changes there or in the device. */
  method RequestReceive(bus: Bus, src0: nat, memory: array<Byte>, dst0: nat, len0: nat) returns (ghost done: nat)
    requires bus.Valid() && src0 + len0 <= bus.spec.totalSize && dst0 + len0 <= memory.Length
    modifies bus, memory
    ensures done <= CHUNK * (bus.looks - old(bus.looks))
    ensures bus.Valid() && bus.device.mem == old(bus.device.mem) && done <= len0
    ensures memory[..] == Patched(old(memory[..]), dst0, bus.device.mem[src0..src0 + done])
    ensures bus.result in {Success, NoResponse, Canceled}
    ensures bus.result == Success ==> done == len0
    ensures !bus.trouble ==> !old(bus.trouble) && bus.result == Success
  {
    hide Patched, Identified;
    ghost var was, mem := memory[..], bus.device.mem;
    var src, dst, rest := src0, dst0, len0;
    done := 0;
    PatchedNothing(was, dst0, mem[src0..src0]);
    while true
      invariant 0 <= rest && done + rest == len0 && src == src0 + done && dst == dst0 + done
      invariant bus.Valid() && bus.device.mem == mem && (!bus.trouble ==> !old(bus.trouble))
      invariant done <= CHUNK * (bus.looks - old(bus.looks))
      invariant memory[..] == Patched(was, dst0, mem[src0..src0 + done])
      decreases rest
    {
      var len := if CHUNK < rest then CHUNK else rest;
      var cancel := bus.Canceling();
      if cancel { break; }
      var ok, bytes := RequestRead(bus, src, len);
      if !ok { break; }
      Copy(bytes, memory, dst);
      PatchedJoins(was, dst0, mem[src0..src0 + done], bytes);
      assert mem[src0..src0 + done] + mem[src..src + len] == mem[src0..src0 + done + len];
      done := done + len;
      src, dst, rest := src + len, dst + len, rest - len;
      if rest == 0 { break; }
    }
  }

  lemma PatchedNothing(s: seq<Byte>, at: nat, none: seq<Byte>)
    requires at <= |s| && none == []
    ensures Patched(s, at, none) == s
  {}

  /** The same function for sector erases: one request a sector, so that the range is erased on success whether or
      not the device has an erase time. */
  method RequestEraseStream(bus: Bus, dst0: nat, len0: nat, retries: int) returns (ghost done: nat)
    requires bus.Valid() && dst0 + len0 <= bus.spec.totalSize
    modifies bus
    ensures bus.Valid() && done <= len0 && bus.device.mem == Erased(old(bus.device.mem), dst0, done)
    ensures bus.result == Success ==> done == len0
    ensures bus.result == Unsupported ==> bus.spec.kind != Flash && done == 0
    ensures bus.result == InvalidParam ==> !(dst0 % bus.spec.sectSize == 0 && len0 % bus.spec.sectSize == 0)
    ensures bus.result in {Success, Timeout, NoResponse, Unsupported, InvalidParam, Canceled}
    ensures bus.result == Timeout ==> bus.timeouts >= old(bus.timeouts) + Attempts(retries)
    ensures !bus.trouble ==> !old(bus.trouble) && bus.result !in {Timeout, NoResponse, Canceled}
  {
    hide Erased;
    ghost var was, whole := bus.device.mem, dst0 % bus.spec.sectSize == 0 && len0 % bus.spec.sectSize == 0;
    var sect, dst, rest := bus.spec.sectSize, dst0, len0;
    done := 0;
    ErasedNothing(was, dst0);
    while true
      invariant 0 <= rest && done + rest == len0 && dst == dst0 + done
      invariant bus.Valid() && bus.device.mem == Erased(was, dst0, done)
      invariant (!bus.trouble ==> !old(bus.trouble)) && bus.timeouts >= old(bus.timeouts)
      invariant whole ==> dst % sect == 0 && rest % sect == 0
      invariant done > 0 ==> bus.spec.kind == Flash
      decreases rest
    {
      var len := if sect < rest then sect else rest;
      var cancel := bus.Canceling();
      if cancel { break; }
      if whole { SectorNext(dst, rest, sect); }
      ghost var before, more := bus.device.mem, 0;
      var ok;
      ok, more := RequestErase(bus, dst, len, retries);
      ErasedJoins(was, dst0, done, more);
      done := done + more;
      if !ok { break; }
      dst, rest := dst + len, rest - len;
      if rest == 0 { break; }
    }
  }

  lemma ErasedNothing(mem: seq<Byte>, at: nat)
    requires at <= |mem|
    ensures Erased(mem, at, 0) == mem
  {}

  /** The next sector of an aligned range. */
  lemma SectorNext(dst: nat, rest: nat, sect: nat)
    requires sect > 0 && dst % sect == 0 && rest % sect == 0
    ensures rest > 0 ==> rest >= sect && (dst + sect) % sect == 0 && (rest - sect) % sect == 0 && sect % sect == 0
  {
    if rest > 0 {
      AtLeast(rest, sect);
      ModStep(dst, sect);
      ModStep(0, sect);
    }
  }

  // ---- writing sectors ---------------------------------------------------------------

  /** Programming an erased range is overwriting it. */
  lemma ErasedThenProgram(mem: seq<Byte>, at: nat, n: nat, data: seq<Byte>, k: nat, page: seq<Byte>)
    requires at + n <= |mem| && |data| == k && k + |page| <= n
    ensures Flat(Flash, Flat(Eeprom, Erased(mem, at, n), at, data), at + k, page)
         == Flat(Eeprom, Erased(mem, at, n), at, data + page)
  {
    var a := Flat(Flash, Flat(Eeprom, Erased(mem, at, n), at, data), at + k, page);
    var b := Flat(Eeprom, Erased(mem, at, n), at, data + page);
    forall i | 0 <= i < |mem|
      ensures a[i] == b[i]
    {
      ErasedByte(mem, at, n, data, page, i);
    }
  }

  lemma ErasedByte(mem: seq<Byte>, at: nat, n: nat, data: seq<Byte>, page: seq<Byte>, i: nat)
    requires at + n <= |mem| && |data| + |page| <= n && i < |mem|
    ensures Flat(Flash, Flat(Eeprom, Erased(mem, at, n), at, data), at + |data|, page)[i]
         == Flat(Eeprom, Erased(mem, at, n), at, data + page)[i]
  {
    var k := at + |data|;
    if k <= i < k + |page| {
      assert (data + page)[i - at] == page[i - k];
      AndOnes(0xFF, page[i - k]);
    }
  }

  lemma WholeSector(mem: seq<Byte>, at: nat, data: seq<Byte>)
    requires at + |data| <= |mem|
    ensures Flat(Eeprom, Erased(mem, at, |data|), at, data) == Flat(Eeprom, mem, at, data)
  {}

  /** The page loop of CARDi_RequestWriteSectorCommandCore for the sector at `dst0`; `written` bytes of
      the sector were programmed before it ended. `mem` is the memory before the sector was erased. */
  method ProgramSector(bus: Bus, verify: bool, dst0: nat, src: seq<Byte>, from: nat, ghost mem: seq<Byte>)
    returns (written: nat, clean: bool)
    requires bus.Valid() && bus.spec.kind == Flash && |mem| == bus.spec.totalSize
    requires dst0 + bus.spec.sectSize <= bus.spec.totalSize && from + bus.spec.sectSize <= |src|
    requires bus.device.mem == Erased(mem, dst0, bus.spec.sectSize)
    modifies bus
    ensures clean && verify ==> bus.verified >= old(bus.verified) + written
    ensures written <= CHUNK * (bus.looks - old(bus.looks)) && bus.verified >= old(bus.verified)
    ensures bus.Valid() && written <= bus.spec.sectSize
    ensures !bus.trouble ==> !old(bus.trouble) && clean
    ensures clean ==>
      && written == bus.spec.sectSize
      && bus.device.mem == Flat(Eeprom, mem, dst0, src[from..from + bus.spec.sectSize])
  {
    hide Flat, Erased;
    var sect := bus.spec.sectSize;
    var len := sect;
    written := 0;
    clean := true;
    ghost var erased := bus.device.mem;
    FlatNothing(Eeprom, erased, dst0);
    assert src[from..from] == src[from..][..0];
    while len > 0
      invariant 0 <= len && written + len == sect && len % CHUNK == 0
      invariant bus.Valid() && (!bus.trouble ==> !old(bus.trouble))
      invariant bus.device.mem == Flat(Eeprom, erased, dst0, src[from..from + written])
      invariant written <= CHUNK * (bus.looks - old(bus.looks)) && bus.verified >= old(bus.verified)
      invariant verify ==> bus.verified >= old(bus.verified) + written
    {
      var cancel := bus.Canceling();
      if cancel {
        clean := false;
        return;
      }
      ghost var so := src[from..from + written];
      clean := ProgramErased(bus, verify, dst0, written, so, src[from + written..from + written + CHUNK], mem);
      if !clean { return; }
      assert so + src[from + written..from + written + CHUNK] == src[from..from + written + CHUNK];
      written := written + CHUNK;
      len := len - CHUNK;
    }
    WholeSector(mem, dst0, src[from..from + sect]);
  }

  /** One page of that loop, behind the part `so` of the sector. */
  method ProgramErased(bus: Bus, verify: bool, dst0: nat, written: nat, ghost so: seq<Byte>, page: seq<Byte>,
                       ghost mem: seq<Byte>) returns (clean: bool)
    requires bus.Valid() && bus.spec.kind == Flash && |mem| == bus.spec.totalSize && |so| == written
    requires written + |page| <= bus.spec.sectSize && dst0 + bus.spec.sectSize <= bus.spec.totalSize
    requires bus.device.mem == Flat(Eeprom, Erased(mem, dst0, bus.spec.sectSize), dst0, so)
    modifies bus
    ensures clean && verify ==> bus.verified >= old(bus.verified) + |page|
    ensures bus.looks == old(bus.looks) && bus.verified >= old(bus.verified)
    ensures bus.Valid() && (!bus.trouble ==> !old(bus.trouble) && clean)
    ensures clean ==> bus.device.mem == Flat(Eeprom, Erased(mem, dst0, bus.spec.sectSize), dst0, so + page)
  {
    hide Flat, Erased;
    ErasedThenProgram(mem, dst0, bus.spec.sectSize, so, written, page);
    FlatHolds(Erased(mem, dst0, bus.spec.sectSize), dst0, so, page);
    ghost var more, sent;
    clean, more, sent := SendChunk(bus, Program, verify, dst0 + written, page, CARD_RETRY_COUNT_MAX);
    assert page[..|page|] == page;
  }

  lemma FlatHolds(mem: seq<Byte>, at: nat, a: seq<Byte>, b: seq<Byte>)
    requires at + |a| + |b| <= |mem|
    ensures Flat(Eeprom, mem, at, a + b)[at + |a|..at + |a| + |b|] == b
  {}

  /** CARDi_RequestWriteSectorCommandCore, with and without verification. If every request succeeded and nothing
      was cancelled (`clean`), the range holds the source and no other byte has changed; on flash that is so
      whenever no wait ran out and no cancellation came. A device that cannot erase sectors refuses the first
      request and keeps its contents. */
  method RequestWriteSectors(bus: Bus, verify: bool, dst0: nat, src: seq<Byte>) returns (clean: bool)
    requires bus.Valid() && dst0 + |src| <= bus.spec.totalSize
    modifies bus
    ensures clean && verify ==> bus.verified >= old(bus.verified) + |src|
    ensures clean ==> |src| <= CHUNK * (bus.looks - old(bus.looks))
    ensures bus.Valid()
    ensures dst0 % bus.spec.sectSize != 0 || |src| % bus.spec.sectSize != 0 ==>
      !clean && bus.result == InvalidParam && bus.device == old(bus.device)
    ensures clean ==> bus.device.mem == Flat(Eeprom, old(bus.device.mem), dst0, src)
    ensures bus.spec.kind != Flash ==> bus.device.mem == old(bus.device.mem)
    ensures bus.spec.kind != Flash && src != [] ==> !clean && bus.result in {InvalidParam, Canceled, Unsupported}
    ensures !bus.trouble && dst0 % bus.spec.sectSize == 0 && |src| % bus.spec.sectSize == 0 ==>
      !old(bus.trouble) && (clean <==> bus.spec.kind == Flash || src == [])
  {
    var sect := bus.spec.sectSize;
    ghost var was := bus.device.mem;
    if dst0 % sect != 0 || |src| % sect != 0 {    // ((dst | len) & (sector_size - 1)) != 0
      bus.result := InvalidParam;
      return false;
    }
    hide Flat, Erased, Identified;
    var from, rest := 0, |src|;
    clean := true;
    FlatNothing(Eeprom, was, dst0);
    while rest > 0
      invariant 0 <= from && 0 <= rest && from + rest <= |src| && rest % sect == 0 && bus.Valid()
      invariant !bus.trouble ==> !old(bus.trouble) && clean && (dst0 + from) % sect == 0
      invariant clean ==> from + rest == |src| && bus.device.mem == Flat(Eeprom, was, dst0, src[..from])
      invariant bus.spec.kind != Flash ==> clean && rest == |src| && bus.device.mem == was
      invariant from <= CHUNK * (bus.looks - old(bus.looks)) && bus.verified >= old(bus.verified)
      invariant clean && verify ==> bus.verified >= old(bus.verified) + from
    {
      AtLeast(rest, sect);
      var cancel := bus.Canceling();
      if cancel { return false; }
      var ok, written := WriteSector(bus, verify, dst0 + from, src, from);
      if !ok.Some? { return false; }
      ModStep(dst0 + from, sect);
      SectorJoins(was, dst0, src, from, sect);
      clean := clean && ok.value;
      from := from + written;
      rest := rest - sect;
    }
    assert src[..|src|] == src;
  }

  lemma SectorJoins(was: seq<Byte>, dst0: nat, src: seq<Byte>, from: nat, sect: nat)
    requires dst0 + |src| <= |was| && from + sect <= |src|
    ensures Flat(Eeprom, Flat(Eeprom, was, dst0, src[..from]), dst0 + from, src[from..from + sect])
         == Flat(Eeprom, was, dst0, src[..from + sect])
  {
    FlatJoins(Eeprom, was, dst0, src[..from], src[from..from + sect]);
    assert src[..from] + src[from..from + sect] == src[..from + sect];
  }

  /** One iteration of its loop: None if the erase fails, otherwise whether the whole sector was programmed. */
  method WriteSector(bus: Bus, verify: bool, dst: nat, src: seq<Byte>, from: nat)
    returns (ok: Option<bool>, written: nat)
    requires bus.Valid() && dst + bus.spec.sectSize <= bus.spec.totalSize && from + bus.spec.sectSize <= |src|
    modifies bus
    ensures ok == Some(true) && verify ==> bus.verified >= old(bus.verified) + written
    ensures written <= CHUNK * (bus.looks - old(bus.looks)) && bus.verified >= old(bus.verified)
    ensures bus.Valid() && written <= bus.spec.sectSize
    ensures bus.spec.kind != Flash ==>
      ok == None && bus.result == Unsupported && bus.device.mem == old(bus.device.mem)
    ensures ok == Some(true) ==>
      && written == bus.spec.sectSize
      && bus.device.mem == Flat(Eeprom, old(bus.device.mem), dst, src[from..from + bus.spec.sectSize])
    ensures !bus.trouble ==>
      !old(bus.trouble) && (bus.spec.kind == Flash && dst % bus.spec.sectSize == 0 ==> ok == Some(true))
  {
    hide Flat, Erased;
    ghost var was := bus.device.mem;
    written := 0;
    ErasedNothing(was, dst);
    SectorNext(0, bus.spec.sectSize, bus.spec.sectSize);
    ghost var done;
    var erased;
    erased, done := RequestErase(bus, dst, bus.spec.sectSize, 1);
    if !erased { return None, 0; }
    var clean;
    written, clean := ProgramSector(bus, verify, dst, src, from, was);
    ok := Some(clean);
  }
}
