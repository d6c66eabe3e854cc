/** Reads of the game card (card_rom.c): pages go to the destination directly or through a one-page
    cache, and the DMA chain moves one page for each interrupt. */
module CardRom {
  import opened Bytes

  const PAGE := 512   // CARD_ROM_PAGE_SIZE

  /** CARD_ALIGN_HI_BIT */
  function PageOf(a: nat): nat {
    a / PAGE * PAGE
  }

  /** What a read delivers: the cached part as it is in the cache, the rest from the ROM. */
  function Delivered(rom: seq<Byte>, cachePage: nat, cacheBuf: seq<Byte>, from: nat, size: nat): (s: seq<Byte>)
    requires |cacheBuf| == PAGE && from + size <= |rom|
    ensures |s| == size
  {
    var page := PageOf(from);
    if page != cachePage then rom[from..from + size]
    else
      var n := if PAGE - (from - page) > size then size else PAGE - (from - page);
      cacheBuf[from - page..from - page + n] + rom[from + n..from + size]
  }

  /** Before the first read page 0 is tagged but was never read: a read then delivers the ROM exactly
      if it starts behind page 0 or the ROM is zero where the request meets page 0. */
  lemma DeliveredAtStart(rom: seq<Byte>, from: nat, size: nat)
    requires |rom| % PAGE == 0 && from + size <= |rom|
    ensures Delivered(rom, 0, seq(PAGE, i => 0), from, size) == rom[from..from + size] <==>
            from >= PAGE || forall i :: from <= i < from + size && i < PAGE ==> rom[i] == 0
  {
    if from < PAGE {
      var sent := Delivered(rom, 0, seq(PAGE, i => 0), from, size);
      forall i | from <= i < from + size
        ensures sent[i - from] == (if i < PAGE then 0 else rom[i]) && rom[from..from + size][i - from] == rom[i]
      {}
      if !(forall i :: from <= i < from + size && i < PAGE ==> rom[i] == 0) {
        var i :| from <= i < from + size && i < PAGE && rom[i] != 0;
        assert sent[i - from] != rom[from..from + size][i - from];
      }
    }
  }

  class Reader {
    const rom: seq<Byte>
    const memory: array<Byte>
    var cachePage: nat          // rom_stat.cache_page
    var cacheBuf: seq<Byte>     // rom_stat.cache_buf
    var src: nat                // cardi_common.src, dst and len
    var dst: nat
    var len: nat

    /** The cached page is the ROM page it is tagged with. */
    predicate CacheOk()
      reads this
    {
      && |cacheBuf| == PAGE
      && (cachePage % PAGE == 0 && cachePage + PAGE <= |rom| ==> cacheBuf == rom[cachePage..cachePage + PAGE])
    }

    /** The request lies in the ROM and in memory. */
    predicate InRange()
      reads this
    {
      |rom| % PAGE == 0 && src + len <= |rom| && dst + len <= memory.Length
    }

    /** rom_stat before the first read: the tag and the buffer are zero. */
    constructor (rom: seq<Byte>, memory: array<Byte>)
      ensures this.rom == rom && this.memory == memory && cachePage == 0 && cacheBuf == seq(PAGE, i => 0)
    {
      this.rom, this.memory := rom, memory;
      cachePage, cacheBuf := 0, seq(PAGE, i => 0);
      src, dst, len := 0, 0, 0;
    }

    /** What is left of the request `from`, `to`, `size`, of which the first part is in memory. */
    ghost predicate Progress(from: nat, to: nat, size: nat, was: seq<Byte>)
      reads this, memory
    {
      && from <= src && src + len == from + size <= |rom| && dst == to + (src - from) && to + size <= |was|
      && memory[..] == Patched(was, to, rom[from..src])
    }

    lemma Advance(from: nat, to: nat, size: nat, was: seq<Byte>, now: seq<Byte>, n: nat)
      requires Progress(from, to, size, was) && n <= len
      requires now == Patched(memory[..], dst, rom[src..src + n])
      ensures now == Patched(was, to, rom[from..src + n])
    {
      PatchedJoins(was, to, rom[from..src], rom[src..src + n]);
      assert rom[from..src] + rom[src..src + n] == rom[from..src + n];
    }

    /** CARDi_OnReadPageDirect */
    method OnReadPageDirect() returns (more: bool)
      requires len >= PAGE
      modifies `src, `dst, `len
      ensures src == old(src) + PAGE && dst == old(dst) + PAGE && len == old(len) - PAGE && more == (len > 0)
    {
      src, dst, len := src + PAGE, dst + PAGE, len - PAGE;
      more := len > 0;
    }

    /** How much of the request the cached page covers. */
    function CachedLen(): (n: nat)
      reads this
      ensures n <= len && n <= PAGE
    {
      if PageOf(src) != cachePage then 0
      else
        var n := PAGE - (src - PageOf(src));
        if n > len then len else n
    }

    /** The bytes that the cache gives for the request. */
    function CachedBytes(): (s: seq<Byte>)
      requires |cacheBuf| == PAGE
      reads this
      ensures |s| == CachedLen()
    {
      var mod := src - PageOf(src);
      if PageOf(src) != cachePage then [] else cacheBuf[mod..mod + CachedLen()]
    }

    lemma CacheIsRom()
      requires CacheOk() && InRange()
      ensures CachedBytes() == rom[src..src + CachedLen()]
    {
      if PageOf(src) == cachePage && len > 0 {
        PageInside(src, |rom|);
        var mod, n := src - PageOf(src), CachedLen();
        SubSlice(rom, cachePage, PAGE, mod, n);
      }
    }

    /** CARDi_ReadFromCache */
    method ReadFromCache() returns (more: bool)
      requires |cacheBuf| == PAGE && InRange()
      modifies `src, `dst, `len, memory
      ensures var n := old(CachedLen());
        src == old(src) + n && dst == old(dst) + n && len == old(len) - n && more == (len > 0)
      ensures memory[..] == Patched(old(memory[..]), old(dst), old(CachedBytes()))
    {
      var curPage := PageOf(src);
      if curPage == cachePage {
        var mod := src - curPage;
        var n := PAGE - mod;
        if n > len { n := len; }
        Copy(cacheBuf[mod..mod + n], memory, dst);
        src, dst, len := src + n, dst + n, len - n;
      }
      more := len > 0;
    }

    /** The page of `src` comes into the cache. */
    method FillCache()
      requires InRange() && len > 0
      modifies `cacheBuf, `cachePage
      ensures CacheOk() && cachePage == PageOf(src)
      ensures CachedLen() > 0 && CachedBytes() == rom[src..src + CachedLen()]
    {
      var page := PageOf(src);
      PageInside(src, |rom|);
      cacheBuf, cachePage := rom[page..page + PAGE], page;
      CacheIsRom();
    }

    /** One page of CARDi_ReadCard through the cache. */
    method ReadThroughCache(ghost from: nat, ghost to: nat, ghost size: nat, ghost was: seq<Byte>) returns (more: bool)
      requires InRange() && Progress(from, to, size, was) && len > 0
      modifies this, memory
      ensures CacheOk() && InRange() && Progress(from, to, size, was) && len < old(len) && more == (len > 0)
    {
      hide Patched, PageOf;
      FillCache();
      Advance(from, to, size, was, Patched(memory[..], dst, rom[src..src + CachedLen()]), CachedLen());
      more := ReadFromCache();
    }

    /** One page of CARDi_ReadCard straight to the destination. */
    method ReadDirect(ghost from: nat, ghost to: nat, ghost size: nat, ghost was: seq<Byte>) returns (more: bool)
      requires InRange() && Progress(from, to, size, was) && len >= PAGE
      modifies `src, `dst, `len, memory
      ensures InRange() && Progress(from, to, size, was) && len == old(len) - PAGE && more == (len > 0)
    {
      Advance(from, to, size, was, Patched(memory[..], dst, rom[src..src + PAGE]), PAGE);
      Copy(rom[src..src + PAGE], memory, dst);
      more := OnReadPageDirect();
    }

    /** CARDi_ReadCard: the card sends whole pages; one that is not wanted whole, or not at an aligned
        address, goes through the cache. */
    method ReadCard(ghost from: nat, ghost to: nat, ghost size: nat, ghost was: seq<Byte>)
      requires |cacheBuf| == PAGE && InRange() && Progress(from, to, size, was) && len > 0
      modifies this, memory
      ensures |cacheBuf| == PAGE && len == 0 && Progress(from, to, size, was)
      ensures old(CacheOk()) ==> CacheOk()
    {
      hide Progress;
      while true
        invariant |cacheBuf| == PAGE && InRange() && Progress(from, to, size, was) && len > 0
        invariant old(CacheOk()) ==> CacheOk()
        decreases len
      {
        var more;
        if PageOf(src) != src || dst % 4 != 0 || len < PAGE {
          more := ReadThroughCache(from, to, size, was);
        } else {
          more := ReadDirect(from, to, size, was);
        }
        if !more { break; }
      }
    }

    /** CARDi_ReadRomSyncCore, for every source, destination and length */
    method ReadRomSync()
      requires |cacheBuf| == PAGE && InRange()
      modifies this, memory
      ensures |cacheBuf| == PAGE && (old(CacheOk()) ==> CacheOk())
      ensures memory[..] == Patched(old(memory[..]), old(dst),
              Delivered(rom, old(cachePage), old(cacheBuf), old(src), old(len)))
    {
      hide Patched, Delivered, PageOf;
      DeliveredSplits(memory[..]);
      var more := ReadFromCache();
      if more { ServeRest(src, dst, len); }
    }

    lemma DeliveredSplits(was: seq<Byte>)
      requires |cacheBuf| == PAGE && src + len <= |rom| && dst + len <= |was|
      ensures var n, head := CachedLen(), CachedBytes();
        && Patched(Patched(was, dst, head), dst + n, rom[src + n..src + len])
              == Patched(was, dst, Delivered(rom, cachePage, cacheBuf, src, len))
        && (n == len ==> Delivered(rom, cachePage, cacheBuf, src, len) == head)
    {
      var n, head := CachedLen(), CachedBytes();
      var tail := rom[src + n..src + len];
      assert Delivered(rom, cachePage, cacheBuf, src, len) == head + tail;
      assert n == len ==> tail == [];
      hide Delivered, PageOf;
      PatchedJoins(was, dst, head, tail);
    }

    method ServeRest(from: nat, to: nat, size: nat)
      requires |cacheBuf| == PAGE && InRange() && from == src && to == dst && size == len > 0
      modifies this, memory
      ensures |cacheBuf| == PAGE && (old(CacheOk()) ==> CacheOk())
      ensures memory[..] == Patched(old(memory[..]), to, rom[from..from + size])
    {
      ghost var was := memory[..];
      NothingPatched(was, to, rom[from..from]);
      ReadCard(from, to, size, was);
    }

    /** While the cache is right, exactly the bytes of the ROM arrive. */
    lemma DeliveredIsRom(from: nat, size: nat)
      requires CacheOk() && |rom| % PAGE == 0 && from + size <= |rom|
      ensures Delivered(rom, cachePage, cacheBuf, from, size) == rom[from..from + size]
    {
      var page := PageOf(from);
      if page == cachePage && size > 0 {
        PageInside(from, |rom|);
        var n := if PAGE - (from - page) > size then size else PAGE - (from - page);
        assert cacheBuf[from - page..from - page + n] == rom[from..from + n] by {
          SubSlice(rom, page, PAGE, from - page, n);
        }
        assert rom[from..from + size] == rom[from..from + n] + rom[from + n..from + size];
      }
    }

    /** CARDi_SetCardDma, and the DMA it starts. */
    method CardDma()
      requires src + PAGE <= |rom| && dst + PAGE <= memory.Length
      modifies memory
      ensures memory[..] == Patched(old(memory[..]), dst, rom[src..src + PAGE])
    {
      Copy(rom[src..src + PAGE], memory, dst);
    }

    /** CARDi_OnReadCard, the interrupt behind each page */
    method OnReadCard(ghost from: nat, ghost to: nat, ghost size: nat, ghost was: seq<Byte>) returns (more: bool)
      requires InRange() && len >= PAGE && len % PAGE == 0
      requires src + len == from + size && from <= src
      requires dst == to + (src - from) && to + size <= |was| == memory.Length
      requires memory[..] == Patched(was, to, rom[from..src + PAGE])
      modifies `src, `dst, `len, memory
      ensures InRange() && len == old(len) - PAGE && more == (len > 0) && len % PAGE == 0
      ensures src + len == from + size && from <= src && dst == to + (src - from)
      ensures memory[..] == Patched(was, to, rom[from..if more then src + PAGE else src])
    {
      more := OnReadPageDirect();
      if more {
        Advance(from, to, size, was, Patched(memory[..], dst, rom[src..src + PAGE]), PAGE);
        CardDma();
      }
    }

    /** The chain of interrupts behind the first page. */
    method DmaChain(from: nat, to: nat, size: nat)
      requires InRange() && src == from && dst == to && len == size > 0 && len % PAGE == 0
      modifies `src, `dst, `len, memory
      ensures memory[..] == Patched(old(memory[..]), to, rom[from..from + size])
    {
      hide Patched;
      ghost var was := memory[..];
      CardDma();
      var more := true;
      while more
        invariant InRange() && len % PAGE == 0 && more == (len > 0)
        invariant src + len == from + size && from <= src && dst == to + (src - from)
        invariant memory[..] == Patched(was, to, rom[from..if more then src + PAGE else src])
        decreases len
      {
        more := OnReadCard(from, to, size, was);
      }
    }

    /** CARDi_TryReadCardDma; `channel` stands for its tests of the DMA channel and of the tightly coupled
        memories. */
    method TryReadCardDma(channel: bool) returns (started: bool)
      requires InRange()
      modifies `src, `dst, `len, memory
      ensures started == (old(dst) % 32 == 0 && channel && old(src) % PAGE == 0 && old(len) % PAGE == 0 && old(len) > 0)
      ensures if started then memory[..] == Patched(old(memory[..]), old(dst), rom[old(src)..old(src) + old(len)])
              else memory[..] == old(memory[..]) && src == old(src) && dst == old(dst) && len == old(len)
    {
      started := dst % 32 == 0 && channel && src % PAGE == 0 && len % PAGE == 0 && len > 0;
      if started { DmaChain(src, dst, len); }
    }

    /** CARDi_ReadRom: by DMA or by the processor, the bytes of the ROM arrive and nothing else changes. */
    method ReadRom(from: nat, to: nat, size: nat, channel: bool)
      requires CacheOk() && |rom| % PAGE == 0 && from + size <= |rom| && to + size <= memory.Length
      modifies this, memory
      ensures CacheOk() && memory[..] == Patched(old(memory[..]), to, rom[from..from + size])
    {
      hide Patched, Delivered;
      DeliveredIsRom(from, size);
      src, dst, len := from, to, size;
      var started := TryReadCardDma(channel);
      if !started { ReadRomSync(); }
    }
  }

  lemma NothingPatched(s: seq<Byte>, at: nat, nothing: seq<Byte>)
    requires at <= |s| && nothing == []
    ensures Patched(s, at, nothing) == s
  {}

  lemma PageInside(a: nat, size: nat)
    requires a < size && size % PAGE == 0
    ensures PageOf(a) <= a < PageOf(a) + PAGE <= size && PageOf(a) % PAGE == 0
  {}
}
