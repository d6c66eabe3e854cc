/** The SPI side of the backup device (card_spi.c): commands are sent byte by byte, programs and
    writes are cut at device pages. */
module CardSpi {
  import opened Bytes
  import opened BackupDevice

  datatype Device = Device(mem: seq<Byte>, wel: bool, busy: bool)

  /** A page write overwrites even flash; everything else merges as the cells do. */
  function Effect(spec: Spec, op: Byte): Kind {
    if op == PAGE_WRITE then Eeprom else spec.kind
  }

  /** What the device does when it is deselected after the bytes `cmd`. While it is busy it ignores
      commands, and without the write-enable latch it ignores writes. */
  function Execute(spec: Spec, d: Device, cmd: seq<Byte>): (r: Device)
    requires Identified(spec) && |d.mem| == spec.totalSize
    ensures |r.mem| == spec.totalSize
  {
    if d.busy then d
    else if cmd == [WRITE_ENABLE] then d.(wel := true)
    else if !d.wel || |cmd| <= spec.addrWidth then d
    else
      var op, addr := Operation(spec.addrWidth, cmd[0]), Address(spec.addrWidth, cmd) % spec.totalSize;
      if Changes(spec, op) then Commanded(spec, d, op, addr, cmd[1 + spec.addrWidth..]) else d
  }

  /** The operations of the device that change its memory. */
  predicate Changes(spec: Spec, op: Byte) {
    op == PROGRAM_PAGE || (op == PAGE_WRITE && Write in spec.caps) || (op == SECTOR_ERASE && spec.kind == Flash)
  }

  /** What such an operation does to a device that is ready and enabled for it. */
  function Commanded(spec: Spec, d: Device, op: Byte, addr: nat, data: seq<Byte>): (r: Device)
    requires Identified(spec) && |d.mem| == spec.totalSize && addr < spec.totalSize
    ensures |r.mem| == spec.totalSize
  {
    SectorInside(spec, addr);
    Device(if op == SECTOR_ERASE then Erased(d.mem, addr / spec.sectSize * spec.sectSize, spec.sectSize)
           else PageProgram(Effect(spec, op), DevicePage(spec.kind, spec.totalSize), d.mem, addr, data),
           false, spec.kind != Fram)
  }

  /** The command as the code sends it. */
  lemma Executes(spec: Spec, d: Device, op: Byte, addr: nat, data: seq<Byte>)
    requires Identified(spec) && |d.mem| == spec.totalSize && addr < spec.totalSize && Changes(spec, op)
    ensures Execute(spec, d, AddressBytes(spec.addrWidth, op, addr) + data)
         == if d.busy || !d.wel then d else Commanded(spec, d, op, addr, data)
  {
    hide Commanded;
    AddressDecodes(spec.addrWidth, op, addr, data);
    SmallMod(addr, spec.totalSize);
  }

  /** What the device sends while `n` more bytes are clocked out behind the bytes `cmd`. */
  function Output(spec: Spec, d: Device, cmd: seq<Byte>, n: nat): (r: seq<Byte>)
    requires Identified(spec) && |d.mem| == spec.totalSize
    ensures |r| == n
  {
    if d.busy || |cmd| != 1 + spec.addrWidth || Operation(spec.addrWidth, cmd[0]) != READ_ARRAY then seq(n, i => 0xFF)
    else seq(n, i requires 0 <= i => d.mem[(Address(spec.addrWidth, cmd) + i) % spec.totalSize])
  }

  /** A read command changes nothing. */
  lemma ReadsOnly(spec: Spec, d: Device, addr: nat)
    requires Identified(spec) && |d.mem| == spec.totalSize
    ensures Execute(spec, d, AddressBytes(spec.addrWidth, READ_ARRAY, addr)) == d
  {
    var cmd := AddressBytes(spec.addrWidth, READ_ARRAY, addr);
    assert Operation(spec.addrWidth, cmd[0]) == READ_ARRAY;
  }

  lemma Outputs(spec: Spec, d: Device, addr: nat, n: nat)
    requires Identified(spec) && |d.mem| == spec.totalSize && addr + n <= spec.totalSize
    ensures !d.busy ==> Output(spec, d, AddressBytes(spec.addrWidth, READ_ARRAY, addr), n) == d.mem[addr..addr + n]
  {
    var cmd := AddressBytes(spec.addrWidth, READ_ARRAY, addr);
    if !d.busy && n > 0 {
      AddressDecodes(spec.addrWidth, READ_ARRAY, addr, []);
      assert cmd + [] == cmd;
      forall i | 0 <= i < n
        ensures Output(spec, d, cmd, n)[i] == d.mem[addr..addr + n][i]
      {
        SmallMod(addr + i, spec.totalSize);
      }
    }
  }

  lemma SectorInside(spec: Spec, addr: nat)
    requires Identified(spec) && addr < spec.totalSize
    ensures addr / spec.sectSize * spec.sectSize + spec.sectSize <= spec.totalSize
  {
    InPage(spec.sectSize, spec.totalSize, addr, spec.sectSize - 1);
  }

  class Bus {
    const spec: Spec
    var device: Device
    var rest: nat            // cardi_param.rest_comm
    var sent: seq<Byte>      // what the selected device has received of the current command
    var result: CardResult   // cmd->result
    ghost var trouble: bool  // a wait has run out, or a cancellation was seen
    ghost var timeouts: nat  // how many waits have run out
    ghost var slept: nat     // for how many milliseconds the driver has slept
    ghost var looks: nat     // how often the cancellation flag has been looked at
    ghost var verified: nat  // how many bytes have been compared with success

    ghost predicate Valid()
      reads this
    {
      Identified(spec) && |device.mem| == spec.totalSize && (spec.kind == Fram ==> !device.busy)
    }

    constructor (spec: Spec, mem: seq<Byte>)
      requires Identified(spec) && |mem| == spec.totalSize
      ensures Valid() && this.spec == spec && device == Device(mem, false, false) && !trouble
    {
      this.spec, device := spec, Device(mem, false, false);
      rest, sent, result := 0, [], Success;
      trouble, timeouts, slept, looks, verified := false, 0, 0, 0, 0;
    }

    /** The CARD_STAT_CANCEL flag, which CARD_CancelBackupAsync may have set meanwhile. */
    method Canceling() returns (cancel: bool)
      modifies `result, `trouble, `looks
      ensures looks == old(looks) + 1
      ensures !trouble ==> !old(trouble) && !cancel
      ensures result == if cancel then Canceled else old(result)
    {
      cancel := *;
      looks := looks + 1;
      if cancel { result, trouble := Canceled, true; }
    }

    /** CARDi_CommandBegin */
    method CommandBegin(len: nat)
      modifies `rest, `sent
      ensures rest == len && sent == []
    {
      rest, sent := len, [];
    }

    /** CARDi_CommArrayWrite: the device is deselected with the last byte of the command. */
    method CommArrayWrite(bytes: seq<Byte>)
      requires Valid() && |bytes| <= rest
      modifies `device, `rest, `sent
      ensures Valid() && rest == old(rest) - |bytes|
      ensures rest > 0 || bytes == [] ==> sent == old(sent) + bytes && device == old(device)
      ensures rest == 0 && bytes != [] ==> sent == [] && device == Execute(spec, old(device), old(sent) + bytes)
    {
      hide Identified;
      ghost var before, got := device, sent;
      var i := 0;
      while i < |bytes|
        invariant i <= |bytes| && Valid() && rest == old(rest) - i
        invariant rest > 0 || i == 0 ==> sent == got + bytes[..i] && device == before
        invariant rest == 0 && i > 0 ==> sent == [] && device == Execute(spec, before, got + bytes)
      {
        rest := rest - 1;
        sent := sent + [bytes[i]];
        assert sent == got + bytes[..i + 1];
        if rest == 0 {
          assert bytes[..i + 1] == bytes;
          device, sent := Execute(spec, device, sent), [];
        }
        i := i + 1;
      }
    }

    /** CARDi_CommandCheckBusy: the device may have finished meanwhile. */
    method CheckBusy() returns (ready: bool)
      modifies `device
      ensures device == old(device).(busy := device.busy) && (device.busy ==> old(device).busy)
      ensures ready == !device.busy
    {
      if device.busy {
        var still: bool := *;
        device := device.(busy := still);
      }
      ready := !device.busy;
    }

    /** OS_Sleep */
    method Sleep(ms: nat)
      modifies `slept
      ensures slept == old(slept) + ms
    {
      slept := slept + ms;
    }

    /** CARDi_CommandEnd: it gives up a device only behind the longer of the two times, and sleeps no longer. */
    method CommandEnd(forceWait: nat, timeout: nat)
      modifies `device, `result, `trouble, `timeouts, `slept
      ensures timeouts >= old(timeouts)
      ensures result == Timeout ==> old(result) == Timeout || timeouts > old(timeouts)
      ensures slept <= old(slept) + if forceWait > timeout then forceWait else timeout
      ensures result != old(result) ==> slept == old(slept) + if forceWait > timeout then forceWait else timeout
      ensures !trouble ==> !old(trouble) && result == old(result)
      ensures device == old(device).(busy := device.busy) && (device.busy ==> old(device).busy)
      ensures result == old(result) || result == Timeout
      ensures forceWait + timeout > 0 && device.busy ==> result == Timeout
      ensures forceWait + timeout == 0 || !old(device).busy ==> result == old(result) && device == old(device)
    {
      if forceWait + timeout > 0 {
        var ready;
        if forceWait > 0 { Sleep(forceWait); }
        if timeout > 0 {
          var left: int := timeout - forceWait;
          ready := CheckBusy();
          while !ready && left > 0
            invariant device == old(device).(busy := device.busy)
            invariant (device.busy ==> old(device).busy) && ready == !device.busy
            invariant result == old(result) && trouble == old(trouble) && timeouts == old(timeouts)
            invariant left <= 0 ==> left == 0 || timeout < forceWait
            invariant slept == old(slept) + if timeout < forceWait then forceWait else timeout - left
          {
            var interval := if left < 5 then left else 5;
            Sleep(interval);
            left := left - interval;
            ready := CheckBusy();
          }
        }
        ready := CheckBusy();
        if !ready { result, trouble, timeouts := Timeout, true, timeouts + 1; }
      }
    }

    /** CARDi_WaitPrevCommand */
    method WaitPrevCommand() returns (ok: bool)
      requires Valid() && result == Success
      modifies `device, `result, `trouble, `timeouts, `slept
      ensures timeouts >= old(timeouts)
      ensures !trouble ==> !old(trouble) && ok
      ensures Valid() && device == old(device).(busy := device.busy)
      ensures if ok then !device.busy && result == Success else result == NoResponse
      ensures !old(device).busy ==> ok
    {
      CommandEnd(0, 50);
      if result == Timeout {
        result := NoResponse;
        return false;
      }
      ok := true;
    }

    /** CARDi_WriteEnable */
    method WriteEnable()
      requires Valid()
      modifies `device, `rest, `sent
      ensures Valid() && device == if old(device).busy then old(device) else old(device).(wel := true)
    {
      CommandBegin(1);
      assert sent + [WRITE_ENABLE] == [WRITE_ENABLE];
      CommArrayWrite([WRITE_ENABLE]);
    }

    /** One command with an address: CARDi_WriteEnable, CARDi_SendSpiAddressingCommand and the data behind it. A
        busy device ignores it. */
    method AddressCommand(op: Byte, addr: nat, data: seq<Byte>)
      requires Valid() && addr < spec.totalSize && Changes(spec, op)
      modifies `device, `rest, `sent
      ensures Valid()
      ensures device == if old(device).busy then old(device) else Commanded(spec, old(device), op, addr, data)
    {
      hide Execute, Commanded, Changes, AddressBytes;
      WriteEnable();
      Executes(spec, device, op, addr, data);
      CommandBegin(1 + spec.addrWidth + |data|);
      var cmd := AddressBytes(spec.addrWidth, op, addr);
      assert cmd + [] == cmd && [] + cmd == cmd;
      CommArrayWrite(cmd);
      CommArrayWrite(data);
      SameMemory(old(device), op, addr, data);
    }

    /** The write-enable latch plays no part in what the operation does. */
    lemma SameMemory(d: Device, op: Byte, addr: nat, data: seq<Byte>)
      requires Identified(spec) && |d.mem| == spec.totalSize && addr < spec.totalSize
      ensures Commanded(spec, d.(wel := true), op, addr, data) == Commanded(spec, d, op, addr, data)
      ensures spec.kind == Fram ==> !Commanded(spec, d, op, addr, data).busy
    {}

    /** CARDi_CommArrayRead behind the bytes of a read command, which changes nothing. */
    method CommArrayRead(n: nat) returns (bytes: seq<Byte>)
      requires Valid() && rest == n
      modifies `rest, `sent
      ensures bytes == Output(spec, device, old(sent), n)
    {
      bytes := Output(spec, device, sent, n);
      rest, sent := 0, [];
    }

    /** CARDi_CommArrayVerify: from the first difference on, nothing more is compared. */
    method CommArrayVerify(src: seq<Byte>) returns (cmp: bool)
      requires Valid() && rest == |src|
      modifies `rest, `sent
      ensures cmp == (Output(spec, device, old(sent), |src|) == src)
    {
      var bytes := Output(spec, device, sent, |src|);
      cmp := true;
      var i := 0;
      while i < |src| && cmp
        invariant i <= |src| && (cmp ==> bytes[..i] == src[..i]) && (!cmp ==> bytes != src)
      {
        cmp := bytes[i] == src[i];
        i := i + 1;
      }
      assert cmp ==> bytes == bytes[..i] && src == src[..i];
      rest, sent := 0, [];
    }

    /** The head of a read command. */
    method ReadCommand(addr: nat, n: nat)
      requires Valid()
      modifies `device, `rest, `sent
      ensures Valid() && device == old(device) && rest == n
      ensures n > 0 ==> sent == AddressBytes(spec.addrWidth, READ_ARRAY, addr)
    {
      hide AddressBytes;
      CommandBegin(1 + spec.addrWidth + n);
      var cmd := AddressBytes(spec.addrWidth, READ_ARRAY, addr);
      assert [] + cmd == cmd && cmd + [] == cmd;
      ReadsOnly(spec, device, addr);
      CommArrayWrite(cmd);
    }

    /** CARDi_ReadBackupCore */
    method ReadBackupCore(src: nat, len: nat) returns (bytes: seq<Byte>)
      requires Valid() && result == Success && src + len <= spec.totalSize
      modifies `device, `rest, `sent, `result, `trouble, `timeouts, `slept
      ensures timeouts >= old(timeouts)
      ensures Valid() && device.mem == old(device).mem
      ensures result in {Success, NoResponse} && (result == Success ==> bytes == device.mem[src..src + len])
      ensures !trouble ==> !old(trouble) && result == Success
    {
      bytes := [];
      var ok := WaitPrevCommand();
      if ok {
        hide AddressBytes, Output;
        ReadCommand(src, len);
        Outputs(spec, device, src, len);
        bytes := CommArrayRead(len);
      }
    }

    /** CARDi_VerifyBackupCore */
    method VerifyBackupCore(dst: nat, src: seq<Byte>)
      requires Valid() && result == Success && dst + |src| <= spec.totalSize
      modifies `device, `rest, `sent, `result, `trouble, `timeouts, `slept, `verified
      ensures timeouts >= old(timeouts)
      ensures verified == old(verified) + if result == Success then |src| else 0
      ensures Valid() && device.mem == old(device).mem && result in {Success, Failure, NoResponse}
      ensures result != NoResponse ==> (result == Success <==> device.mem[dst..dst + |src|] == src)
      ensures !trouble ==> !old(trouble) && result != NoResponse
    {
      var ok := WaitPrevCommand();
      if ok {
        hide AddressBytes, Output;
        ReadCommand(dst, |src|);
        Outputs(spec, device, dst, |src|);
        var cmp := CommArrayVerify(src);
        if cmp { verified := verified + |src|; } else { result := Failure; }
      }
    }

    /** The loop of CARDi_ProgramBackupCore and of CARDi_WriteBackupCore: `done` bytes have been written
        flatly, all of them on success. */
    method WritePages(op: Byte, dst0: nat, src: seq<Byte>, forceWait: nat, timeout: nat) returns (ghost done: nat)
      requires Valid() && !device.busy && result == Success && dst0 + |src| <= spec.totalSize
      requires op == PROGRAM_PAGE || (op == PAGE_WRITE && Write in spec.caps)
      requires spec.kind == Fram || forceWait + timeout > 0
      modifies `device, `rest, `sent, `result, `trouble, `timeouts, `slept
      ensures timeouts >= old(timeouts) && (result == Timeout ==> timeouts > old(timeouts))
      ensures Valid() && done <= |src| && device.mem == Flat(Effect(spec, op), old(device.mem), dst0, src[..done])
      ensures result == Success || result == Timeout
      ensures result == Success ==> done == |src| && !device.busy
      ensures !trouble ==> !old(trouble) && result == Success
    {
      hide Flat, Effect, KindOf, DevicePage;
      ghost var kind, was := Effect(spec, op), device.mem;
      var dst, len, from := dst0, |src|, 0;
      done := 0;
      FlatNothing(kind, was, dst0);
      while len > 0
        invariant 0 <= from && 0 <= len && from + len == |src| && dst == dst0 + from && done == from
        invariant Valid() && !device.busy && result == Success && (!trouble ==> !old(trouble))
        invariant timeouts >= old(timeouts)
        invariant device.mem == Flat(kind, was, dst0, src[..done])
      {
        var mod := dst % spec.pageSize;       // dst & (page - 1)
        var size := spec.pageSize - mod;
        if size > len { size := len; }
        WritePage(op, dst, src[from..from + size], forceWait, timeout);
        FlatJoins(kind, was, dst0, src[..from], src[from..from + size]);
        assert src[..from] + src[from..from + size] == src[..from + size];
        done := from + size;
        if result != Success { break; }
        from := from + size;
        dst := dst + size;
        len := len - size;
      }
    }

    /** One iteration of that loop, for bytes inside one page. */
    method WritePage(op: Byte, dst: nat, data: seq<Byte>, forceWait: nat, timeout: nat)
      requires Valid() && !device.busy && result == Success && dst < spec.totalSize
      requires dst % spec.pageSize + |data| <= spec.pageSize
      requires op == PROGRAM_PAGE || (op == PAGE_WRITE && Write in spec.caps)
      requires spec.kind == Fram || forceWait + timeout > 0
      modifies `device, `rest, `sent, `result, `trouble, `timeouts, `slept
      ensures timeouts >= old(timeouts) && (result == Timeout ==> timeouts > old(timeouts))
      ensures Valid() && dst + |data| <= spec.totalSize
      ensures device.mem == Flat(Effect(spec, op), old(device.mem), dst, data)
      ensures result == Success || result == Timeout
      ensures result == Success ==> !device.busy
      ensures !trouble ==> !old(trouble) && result == Success
    {
      hide Flat, PageProgram;
      PageIsFlat(Effect(spec, op), spec.pageSize, device.mem, dst, data);
      AddressCommand(op, dst, data);
      CommandEnd(forceWait, timeout);
    }

    /** CARDi_ProgramBackupCore */
    method ProgramBackupCore(dst: nat, src: seq<Byte>) returns (ghost done: nat)
      requires Valid() && result == Success && dst + |src| <= spec.totalSize
      modifies `device, `rest, `sent, `result, `trouble, `timeouts, `slept
      ensures timeouts >= old(timeouts) && (result == Timeout ==> timeouts > old(timeouts))
      ensures Valid() && done <= |src| && device.mem == Flat(spec.kind, old(device.mem), dst, src[..done])
      ensures result in {Success, Timeout, NoResponse} && (result == Success ==> done == |src|)
      ensures spec.kind == Flash ==> BitsCleared(old(device.mem), device.mem, dst, src[..done])
      ensures !trouble ==> !old(trouble) && result == Success
    {
      done := 0;
      hide Flat, BitsCleared;
      FlatNothing(spec.kind, device.mem, dst);
      ghost var was := device.mem;
      var ok := WaitPrevCommand();
      if ok { done := WritePages(PROGRAM_PAGE, dst, src, spec.programPage, 0); }
      FlatClears(was, dst, src[..done]);
    }

    /** CARDi_WriteBackupCore, for the devices with CARD_BACKUP_CAPS_WRITE */
    method WriteBackupCore(dst: nat, src: seq<Byte>) returns (ghost done: nat)
      requires Valid() && result == Success && dst + |src| <= spec.totalSize && Write in spec.caps
      modifies `device, `rest, `sent, `result, `trouble, `timeouts, `slept
      ensures timeouts >= old(timeouts) && (result == Timeout ==> timeouts > old(timeouts))
      ensures Valid() && done <= |src| && device.mem == Flat(Eeprom, old(device.mem), dst, src[..done])
      ensures result in {Success, Timeout, NoResponse} && (result == Success ==> done == |src|)
      ensures !trouble ==> !old(trouble) && result == Success
    {
      done := 0;
      FlatNothing(Eeprom, device.mem, dst);
      var ok := WaitPrevCommand();
      if ok { done := WritePages(PAGE_WRITE, dst, src, spec.writePage, spec.writePageTotal); }
    }

    /** CARDi_EraseBackupSectorCore: misaligned requests, and no others, are refused; otherwise the sectors of a
        prefix are erased, all of them on success. Without an erase time nothing waits for the device, so that
        it ignores the commands for all sectors but the first, and that is a success, too. */
    method EraseBackupSectorCore(dst0: nat, len0: nat) returns (ghost done: nat)
      requires Valid() && result == Success && spec.kind == Flash && dst0 + len0 <= spec.totalSize
      modifies `device, `rest, `sent, `result, `trouble, `timeouts, `slept
      ensures timeouts >= old(timeouts) && (result == Timeout ==> timeouts > old(timeouts))
      ensures Valid() && done <= len0 && device.mem == Erased(old(device.mem), dst0, done)
      ensures result == InvalidParam <==> !(dst0 % spec.sectSize == 0 && len0 % spec.sectSize == 0)
      ensures result in {Success, Timeout, NoResponse, InvalidParam}
      ensures result == Success ==> done == if ErasesWait(spec) || len0 <= spec.sectSize then len0 else spec.sectSize
      ensures result == InvalidParam ==> device == old(device)
      ensures !trouble ==> !old(trouble) && (result == Success || result == InvalidParam)
    {
      done := 0;
      ghost var was := device.mem;
      assert Erased(was, dst0, 0) == was;
      if dst0 % spec.sectSize != 0 || len0 % spec.sectSize != 0 {    // ((dst | len) & (sector - 1)) != 0
        result := InvalidParam;
        return;
      }
      var ok := WaitPrevCommand();
      if !ok { return; }
      var dst, len := dst0, len0;
      while len > 0
        invariant 0 <= len <= len0 && dst + len == dst0 + len0 && dst % spec.sectSize == 0 && len % spec.sectSize == 0
        invariant Valid() && result == Success && (!trouble ==> !old(trouble)) && timeouts >= old(timeouts)
        invariant device.busy ==> done == spec.sectSize
        invariant device.busy <==> !ErasesWait(spec) && len < len0
        invariant !device.busy ==> done == len0 - len
        invariant done <= len0 && device.mem == Erased(was, dst0, done)
      {
        AtLeast(len, spec.sectSize);
        ModStep(dst, spec.sectSize);
        ghost var more := EraseSectorAt(dst, was, dst0, done);
        done := done + more;
        if result != Success { break; }
        dst := dst + spec.sectSize;
        len := len - spec.sectSize;
      }
    }

    /** One iteration of that loop: how many more bytes are erased. */
    method EraseSectorAt(dst: nat, ghost was: seq<Byte>, ghost dst0: nat, ghost done: nat) returns (ghost more: nat)
      requires Valid() && result == Success && spec.kind == Flash && dst % spec.sectSize == 0
      requires dst + spec.sectSize <= spec.totalSize == |was| && dst0 + done <= spec.totalSize
      requires device.mem == Erased(was, dst0, done) && (!device.busy ==> dst == dst0 + done)
      modifies `device, `rest, `sent, `result, `trouble, `timeouts, `slept
      ensures timeouts >= old(timeouts) && (result == Timeout ==> timeouts > old(timeouts))
      ensures Valid() && more == (if old(device).busy then 0 else spec.sectSize)
      ensures dst0 + done + more <= spec.totalSize && device.mem == Erased(was, dst0, done + more)
      ensures result == Success || result == Timeout
      ensures result == Success && device.busy ==> !ErasesWait(spec)
      ensures !ErasesWait(spec) ==> device.busy
      ensures !trouble ==> !old(trouble) && result == Success
    {
      hide Execute, Changes, AddressBytes;
      more := if device.busy then 0 else spec.sectSize;
      SectorAt(spec, device, dst);
      ErasedJoins(was, dst0, done, spec.sectSize);
      AddressCommand(SECTOR_ERASE, dst, []);
      CommandEnd(spec.eraseSector, spec.eraseSectorTotal);
    }
  }

  lemma SectorAt(spec: Spec, d: Device, dst: nat)
    requires Identified(spec) && |d.mem| == spec.totalSize && spec.kind == Flash
    requires dst % spec.sectSize == 0 && dst + spec.sectSize <= spec.totalSize
    ensures Changes(spec, SECTOR_ERASE)
    ensures Commanded(spec, d, SECTOR_ERASE, dst, []) == Device(Erased(d.mem, dst, spec.sectSize), false, true)
  {
    DivMod(dst, spec.sectSize);
  }

  lemma ErasedJoins(mem: seq<Byte>, at: nat, m: nat, n: nat)
    ensures at + m + n <= |mem| ==> Erased(Erased(mem, at, m), at + m, n) == Erased(mem, at, m + n)
  {}

  lemma FlatNothing(kind: Kind, mem: seq<Byte>, at: nat)
    requires at <= |mem|
    ensures forall src: seq<Byte> :: Flat(kind, mem, at, src[..0]) == mem
  {
    forall src: seq<Byte> ensures Flat(kind, mem, at, src[..0]) == mem {}
  }

  lemma AtLeast(x: nat, m: nat)
    requires x > 0 && m > 0 && x % m == 0
    ensures x >= m && (x - m) % m == 0
  {
    if x < m { SmallMod(x, m); }
    ModStep(x - m, m);
  }
}
