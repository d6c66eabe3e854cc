/** Backup devices: the geometry that CARDi_IdentifyBackupCore of card_spi.c fills in, and what a
    device does with the bytes of one SPI command. */
module BackupDevice {
  import opened Bytes

  datatype CardResult = Success | Failure | InvalidParam | Unsupported | Timeout | NoResponse | Canceled

  datatype Kind = Eeprom | Flash | Fram

  /** CARDRequest, the requests that read, write and erase: CARD_REQ_READ_BACKUP and so on. */
  datatype Req = Read | Write | Program | Verify | EraseSector

  /** CARDiCommandArg.spec, the fields that reading, programming, writing and erasing use; `caps` are the
      requests whose bit is set in the capabilities. */
  datatype Spec = Spec(kind: Kind, totalSize: nat, sectSize: nat, pageSize: nat, addrWidth: nat, programPage: nat,
                       writePage: nat, writePageTotal: nat, eraseSector: nat, eraseSectorTotal: nat, caps: set<Req>)

  const DEVICE_EEPROM := 1
  const DEVICE_FLASH := 2
  const DEVICE_FRAM := 3

  const WRITE_ENABLE := 0x06
  const PROGRAM_PAGE := 0x02
  const READ_ARRAY := 0x03
  const PAGE_WRITE := 0x0A
  const SECTOR_ERASE := 0xD8

  // ---- identification ----------------------------------------------------------------

  function SizeOf(bits: nat): nat {
    if bits == 0 then 1 else 2 * SizeOf(bits - 1)
  }

  /** 1 << bits in 32 bits. */
  function ShiftOne(bits: nat): nat {
    if bits < 32 then SizeOf(bits) else 0
  }

  predicate KnownSize(device: nat, size: nat) {
    || (device == DEVICE_EEPROM && size in {0x200, 0x2000, 0x1_0000})
    || (device == DEVICE_FLASH && size in {0x4_0000, 0x8_0000, 0x10_0000, 0x20_0000, 0x40_0000, 0x80_0000})
    || (device == DEVICE_FRAM && size in {0x2000, 0x8000})
  }

  /** The page inside which a device of this kind and size wraps. A ferroelectric memory has no pages. */
  function DevicePage(kind: Kind, size: nat): nat {
    match kind
    case Eeprom => if size == 0x200 then 0x10 else if size == 0x2000 then 0x20 else 0x80
    case Flash => 0x100
    case Fram => size
  }

  function KindOf(device: nat): Kind {
    if device == DEVICE_EEPROM then Eeprom else if device == DEVICE_FLASH then Flash else Fram
  }

  /** After a sector erase the code waits, so that the device is ready or the erase reports a time-out. */
  predicate ErasesWait(s: Spec) {
    s.eraseSector + s.eraseSectorTotal > 0
  }

  /** CARDi_IdentifyBackupCore for a type other than CARD_BACKUP_TYPE_NOT_USE. On an unknown type the
      source clears the type and the size and reports CARD_RESULT_UNSUPPORTED. Flash of 8 megabytes from a
      vender other than 0 and 1 gets no erase time. */
  method IdentifyBackupCore(device: nat, sizeBits: nat, vender: nat) returns (spec: Spec, result: CardResult)
    ensures result == (if KnownSize(device, ShiftOne(sizeBits)) then Success else Unsupported)
    ensures if result == Success then Identified(spec) && spec.totalSize == ShiftOne(sizeBits) else spec.totalSize == 0
    ensures result == Success ==>
      && spec.kind == KindOf(device) && (Write in spec.caps <==> device == DEVICE_FLASH && spec.totalSize <= 0x20_0000)
      && spec.sectSize == if device == DEVICE_FLASH then 0x1_0000 else spec.pageSize
    ensures result == Success ==>
      (ErasesWait(spec) <==> device == DEVICE_FLASH && !(ShiftOne(sizeBits) == 0x80_0000 && vender > 1))
  {
    var size := ShiftOne(sizeBits);
    result := Success;
    spec := Spec(Eeprom, size, 0, 0, 0, 0, 0, 0, 0, 0, {});
    if device == DEVICE_EEPROM {
      match size {
        case 0x200 => spec := spec.(pageSize := 0x10, addrWidth := 1, programPage := 5);
        case 0x2000 => spec := spec.(pageSize := 0x20, addrWidth := 2, programPage := 5);
        case 0x10000 => spec := spec.(pageSize := 0x80, addrWidth := 2, programPage := 10);
        case _ => result := Unsupported;
      }
      spec := spec.(sectSize := spec.pageSize, caps := {Read, Program, Verify});
    } else if device == DEVICE_FLASH {
      match size {
        case 0x40000 | 0x80000 | 0x100000 =>
          spec := spec.(writePage := 25, writePageTotal := 300, eraseSector := 5000, caps := {Write});
        case 0x200000 =>
          spec := spec.(writePage := 23, writePageTotal := 300,
                        eraseSector := 500, eraseSectorTotal := 5000, caps := {Write});
        case 0x400000 =>
          spec := spec.(eraseSector := 600, eraseSectorTotal := 3000);
        case 0x800000 =>
          if vender == 0 || vender == 1 {
            spec := spec.(eraseSector := 1000, eraseSectorTotal := 3000);
          }
        case _ =>
          result := Unsupported;
      }
      spec := spec.(kind := Flash, sectSize := 0x1_0000, pageSize := 0x100, addrWidth := 3, programPage := 5,
                    caps := spec.caps + {Read, Program, Verify, EraseSector});
    } else if device == DEVICE_FRAM {
      match size {
        case 0x2000 | 0x8000 =>
        case _ => result := Unsupported;
      }
      spec := spec.(kind := Fram, pageSize := size, sectSize := size, addrWidth := 2, caps := {Read, Program, Verify});
    } else {
      result := Unsupported;
    }
    if result == Unsupported { spec := spec.(totalSize := 0); }
  }

  /** How many bytes the address of a command can tell apart. */
  function Reach(width: nat): nat {
    if width == 1 then 0x200 else if width == 2 then 0x1_0000 else 0x100_0000
  }

  /** What identification promises: every address of the device fits its commands, the page size is the device's,
      pages divide sectors and sectors divide the device, and only a ferroelectric memory needs no waiting. */
  predicate Identified(s: Spec) {
    && 1 <= s.addrWidth <= 3 && 0 < s.pageSize && 0 < s.sectSize && 0 < s.totalSize <= Reach(s.addrWidth)
    && s.pageSize == DevicePage(s.kind, s.totalSize)
    && s.sectSize % s.pageSize == 0 && s.totalSize % s.sectSize == 0 && s.totalSize % s.pageSize == 0
    && (s.kind == Fram || s.programPage > 0)
    && Read in s.caps && Program in s.caps && Verify in s.caps
    && (Write in s.caps ==> s.kind == Flash && s.writePage > 0)
    && (EraseSector in s.caps <==> s.kind == Flash)
    && (s.kind == Flash ==> s.sectSize == 0x1_0000 && s.pageSize == 0x100 && s.addrWidth == 3)
  }

  // ---- addresses ---------------------------------------------------------------------

  /** The first 1 + width bytes of the word that CARDi_SendSpiAddressingCommand builds: the operation
      and the address, high byte first. With one address byte, address bit 8 is bit 3 of the operation. */
  function AddressBytes(width: nat, op: Byte, addr: nat): (s: seq<Byte>)
    requires 1 <= width <= 3
    ensures |s| == 1 + width
  {
    if width == 1 then [if addr / 0x100 % 2 == 1 && op / 8 % 2 == 0 then (op + 8) % 0x100 else op, addr % 0x100]
    else if width == 2 then [op, addr / 0x100 % 0x100, addr % 0x100]
    else [op, addr / 0x1_0000 % 0x100, addr / 0x100 % 0x100, addr % 0x100]
  }

  /** The operation that a device with one address byte sees behind address bit 8. */
  function Operation(width: nat, first: Byte): Byte {
    if width == 1 && first in {0x0A, 0x0B} then first - 8 else first
  }

  function Address(width: nat, cmd: seq<Byte>): nat
    requires 1 <= width <= 3 && |cmd| > width
  {
    if width == 1 then (if cmd[0] / 8 % 2 == 1 then 0x100 else 0) + cmd[1]
    else if width == 2 then 0x100 * cmd[1] as int + cmd[2]
    else 0x1_0000 * cmd[1] as int + 0x100 * cmd[2] as int + cmd[3]
  }

  /** The device recovers the operation and the address from the command bytes. */
  lemma AddressDecodes(width: nat, op: Byte, addr: nat, data: seq<Byte>)
    requires 1 <= width <= 3 && addr < Reach(width)
    requires op in {PROGRAM_PAGE, READ_ARRAY} || (width > 1 && op in {PAGE_WRITE, SECTOR_ERASE})
    ensures var cmd := AddressBytes(width, op, addr) + data;
            Operation(width, cmd[0]) == op && Address(width, cmd) == addr && cmd[1 + width..] == data
  {}

  // ---- commands ----------------------------------------------------------------------

  /** What programming leaves of an old byte: flash cells can only be cleared. */
  function Merge(kind: Kind, was: Byte, b: Byte): Byte {
    if kind == Flash then BitAnd(was, b) else b
  }

  /** The flat effect of writing `data` at `at`. */
  function Flat(kind: Kind, mem: seq<Byte>, at: nat, data: seq<Byte>): (r: seq<Byte>)
    requires at + |data| <= |mem|
    ensures |r| == |mem|
  {
    seq(|mem|, i requires 0 <= i < |mem| => if at <= i < at + |data| then Merge(kind, mem[i], data[i - at]) else mem[i])
  }

  /** Where the device puts byte `n` of a page program: inside the page of the address. */
  function Spot(page: nat, addr: nat, n: nat): nat
    requires page > 0
  {
    addr / page * page + (addr % page + n) % page
  }

  lemma SpotInside(page: nat, size: nat, addr: nat, n: nat)
    requires page > 0 && addr < size && size % page == 0
    ensures Spot(page, addr, n) < size
    ensures addr % page + n < page ==> Spot(page, addr, n) == addr + n
  {
    var low := addr % page;
    var off := (low + n) % page;
    InPage(page, size, addr, off);
    if low + n < page { SmallMod(low + n, page); }
    DivMod(addr, page);
  }

  lemma SmallMod(x: nat, m: nat)
    requires x < m
    ensures x % m == x
  {}

  lemma DivMod(x: nat, m: nat)
    requires m > 0
    ensures x == x / m * m + x % m
  {}

  /** A page program as the device does it: byte by byte, wrapping inside the page. */
  function PageProgram(kind: Kind, page: nat, mem: seq<Byte>, addr: nat, data: seq<Byte>): (r: seq<Byte>)
    requires page > 0 && addr < |mem| && |mem| % page == 0
    ensures |r| == |mem|
    decreases |data|
  {
    if data == [] then mem
    else
      var n := |data| - 1;
      var before := PageProgram(kind, page, mem, addr, data[..n]);
      SpotInside(page, |mem|, addr, n);
      var i := Spot(page, addr, n);
      before[i := Merge(kind, before[i], data[n])]
  }

  lemma InPage(page: nat, size: nat, addr: nat, off: nat)
    requires page > 0 && addr < size && size % page == 0 && off < page
    ensures addr / page * page + off < size
  {
    var q, k := addr / page, size / page;
    assert addr == q * page + addr % page && size == k * page;
    if q >= k {
      assert q * page >= k * page by { Monotone(k, q, page); }
    } else {
      assert (q + 1) * page <= k * page by { Monotone(q + 1, k, page); }
      assert (q + 1) * page == q * page + page;
    }
  }

  lemma Monotone(a: nat, b: nat, m: nat)
    requires a <= b
    ensures a * m <= b * m
  {}

  /** Inside one page nothing wraps. */
  lemma {:induction false} PageIsFlat(kind: Kind, page: nat, mem: seq<Byte>, addr: nat, data: seq<Byte>)
    requires page > 0 && addr < |mem| && |mem| % page == 0 && addr % page + |data| <= page
    ensures addr + |data| <= |mem| && PageProgram(kind, page, mem, addr, data) == Flat(kind, mem, addr, data)
    decreases |data|
  {
    hide Spot, Merge;
    if data == [] {
      assert Flat(kind, mem, addr, data) == mem;
    } else {
      var n := |data| - 1;
      PageIsFlat(kind, page, mem, addr, data[..n]);
      SpotInside(page, |mem|, addr, n);
      var before := Flat(kind, mem, addr, data[..n]);
      assert Flat(kind, mem, addr, data) == before[addr + n := Merge(kind, before[addr + n], data[n])];
    }
  }

  /** Writing one part behind the other is writing both. */
  lemma FlatJoins(kind: Kind, mem: seq<Byte>, at: nat, a: seq<Byte>, b: seq<Byte>)
    requires at + |a| + |b| <= |mem|
    ensures Flat(kind, Flat(kind, mem, at, a), at + |a|, b) == Flat(kind, mem, at, a + b)
  {
    forall i | 0 <= i < |mem|
      ensures Flat(kind, Flat(kind, mem, at, a), at + |a|, b)[i] == Flat(kind, mem, at, a + b)[i]
    {}
  }

  /** Writing again what is already there, or less, changes nothing; writing more adds the rest. */
  lemma FlatAgain(kind: Kind, mem: seq<Byte>, at: nat, data: seq<Byte>, m: nat, n: nat)
    requires m <= |data| && n <= |data| && at + |data| <= |mem|
    ensures Flat(kind, Flat(kind, mem, at, data[..m]), at, data[..n])
       == Flat(kind, mem, at, data[..if m > n then m else n])
  {
    forall i | 0 <= i < |mem|
      ensures Flat(kind, Flat(kind, mem, at, data[..m]), at, data[..n])[i]
         == Flat(kind, mem, at, data[..if m > n then m else n])[i]
    {
      if at <= i < at + m && i < at + n { AndAgain(mem[i], data[i - at]); }
    }
  }

  /** What programming `data` over cells that can only be cleared may do: inside the range a bit is set afterwards
      exactly if it was set before and is set in the data, and outside it every bit stays. */
  ghost predicate BitsCleared(was: seq<Byte>, now: seq<Byte>, at: nat, data: seq<Byte>) {
    && |now| == |was|
    && forall j, i :: 0 <= j < |was| && 0 <= i < 8 ==>
         (Bit(now[j], i) <==> Bit(was[j], i) && (at <= j < at + |data| ==> Bit(data[j - at], i)))
  }

  lemma FlatClears(mem: seq<Byte>, at: nat, data: seq<Byte>)
    requires at + |data| <= |mem|
    ensures BitsCleared(mem, Flat(Flash, mem, at, data), at, data)
  {
    hide Bit, BitAnd;
    var now := Flat(Flash, mem, at, data);
    forall j, i | 0 <= j < |mem| && 0 <= i < 8
      ensures Bit(now[j], i) <==> Bit(mem[j], i) && (at <= j < at + |data| ==> Bit(data[j - at], i))
    {
      if at <= j < at + |data| { AndBits(mem[j], data[j - at], i); }
    }
  }

  /** Every bit that is set in `src` is set in the memory at `at`. */
  ghost predicate BitsThere(mem: seq<Byte>, at: nat, src: seq<Byte>)
    requires at + |src| <= |mem|
  {
    forall k, i :: 0 <= k < |src| && 0 <= i < 8 && Bit(src[k], i) ==> Bit(mem[at + k], i)
  }

  /** Programming `src` on such cells leaves `src` exactly if no bit would have to be set. */
  lemma ProgramTakes(mem: seq<Byte>, at: nat, src: seq<Byte>)
    requires at + |src| <= |mem|
    ensures Flat(Flash, mem, at, src)[at..at + |src|] == src <==> BitsThere(mem, at, src)
  {
    hide Bit, BitAnd;
    var now := Flat(Flash, mem, at, src)[at..at + |src|];
    forall k | 0 <= k < |src|
      ensures now[k] == src[k] <==> forall i :: 0 <= i < 8 && Bit(src[k], i) ==> Bit(mem[at + k], i)
    {
      AndIsSecond(mem[at + k], src[k]);
    }
    if now == src {
      forall k, i | 0 <= k < |src| && 0 <= i < 8 && Bit(src[k], i)
        ensures Bit(mem[at + k], i)
      {
        assert now[k] == src[k];
      }
    }
  }

  function Erased(mem: seq<Byte>, at: nat, n: nat): (r: seq<Byte>)
    requires at + n <= |mem|
    ensures |r| == |mem|
  {
    seq(|mem|, i requires 0 <= i < |mem| => if at <= i < at + n then 0xFF else mem[i])
  }

  /** Bytes in front of what is written stay. */
  lemma FlatKeeps(kind: Kind, mem: seq<Byte>, at: nat, data: seq<Byte>, from: nat, end: nat)
    requires from <= end <= at && at + |data| <= |mem|
    ensures Flat(kind, mem, at, data)[from..end] == mem[from..end]
  {}
}
