/** What holds of every driver call and of every run of calls, card changes included. */
module SdProperties {
  import opened SdBus
  import opened Sdmm
  import opened SdExchange
  import opened SdSectors

  /**
   Between calls chip-select is high, the card is in no transaction, and a cleared
   STA_NOINIT means that CardType is a known code that fits the card in the socket -
   unless that card was put in after the initialization, in which case it is still idle.
   */
  predicate Valid(s: State) {
    && !s.bus.selected
    && (s.stat & STA_NOINIT == 0 ==> s.cardType in {CT_SDC2 | CT_BLOCK, CT_SDC2, CT_MMC3})
    && (s.bus.slot.Some? ==> Fits(s.stat, s.cardType, s.bus.slot.value))
  }

  predicate Fits(stat: bv8, cardType: bv8, c: Card) {
    && WellFormed(c) && c.phase == Waiting && c.out == []
    && (!c.spi ==> c.idle)
    && (stat & STA_NOINIT == 0 && Working(c) ==> (cardType & CT_BLOCK != 0) == (c.kind == V2Block))
  }

  predicate ReadyFor(s: State, drv: Byte) {
    StatusBits(s.stat, drv, s.bus.slot.Some?) & STA_NOINIT == 0
  }

  lemma ReadyStat(s: State, drv: Byte)
    ensures ReadyFor(s, drv) <==> drv == 0 && s.stat & STA_NOINIT == 0
  {
  }

  /** The sector of the card that a sector number reaches through a 32-bit address. */
  function Reached(c: Card, sector: Word): Word {
    if c.kind == V2Block then sector else sector % 0x80_0000
  }

  lemma WireTarget(c: Card, cardType: bv8, sector: Word)
    requires (cardType & CT_BLOCK != 0) == (c.kind == V2Block)
    ensures Target(c, WireAddress(cardType, sector)) == Reached(c, sector)
    ensures Addressed(c, WireAddress(cardType, sector)).Some? <==> Reached(c, sector) < |c.flash|
  {
    var q, r := sector / 0x80_0000, sector % 0x80_0000;
    assert sector * 512 == q * 0x1_0000_0000 + r * 512;
    assert sector * 512 % 0x1_0000_0000 == r * 512;
  }

  /** Byte addresses wrap at 4 GiB, so the sector named is the one reached exactly below 2^23. */
  lemma ReachedExactly(c: Card, cardType: bv8, sector: Word)
    requires (cardType & CT_BLOCK != 0) == (c.kind == V2Block)
    ensures Target(c, WireAddress(cardType, sector)) == sector <==> c.kind == V2Block || sector < 0x80_0000
  {
    WireTarget(c, cardType, sector);
    hide Target, WireAddress;
  }

  lemma DeselectRests(b: Bus)
    ensures
      var b' := Deselect(b);
      && !b'.selected && b'.script == b.script && b'.log == b.log && b'.tick == b.tick
      && b'.slot == match b.slot { case None => None case Some(c) => Some(Rested(c, c.busy)) }
  {
    SilentClocks(SetCs(b, true), 1);
  }

  /** With no card in the socket every command times out on 0xFF. */
  lemma CommandUnheard(b: Bus, index: Byte, arg: Word)
    requires b.slot.None? && index < 64
    ensures Command(b, index, arg).0.slot.None? && Command(b, index, arg).1 == 0xFF
    ensures Command(b, index, arg).0.script == b.script
  {
    SilentClocks(SetCs(b, true), 1);
    var b1 := SetCs(Deselect(b), false);
    SilentClocks(b1, 1);
    PollSilence(Recv(b1, 1).0, Ready, 5000);
    var b2 := if index == CMD12 then b else Select(Deselect(b)).0;
    assert b2.slot.None?;
    var sent := Send(b2, Frame(index, arg));
    SilentClocks(sent, 1);
    PollSilence(if index == CMD12 then Recv(sent, 1).0 else sent, Response, 10);
  }

  lemma SendCmdUnheard(b: Bus, cmd: Byte, arg: Word)
    requires b.slot.None? && cmd % 128 < 64
    ensures SendCmd(b, cmd, arg).0.slot.None? && SendCmd(b, cmd, arg).1 == 0xFF
    ensures SendCmd(b, cmd, arg).0.script == b.script
  {
    hide Command;
    if cmd < 0x80 {
      CommandUnheard(b, cmd, arg);
    } else {
      CommandUnheard(b, CMD55, 0);
    }
  }

  // ---------------------------------------------------------------------------
  // Writing
  // ---------------------------------------------------------------------------

  /**
   The outcome of writing `blocks` to a card. The first `n` of them are on the card, at
   the right sectors, and nothing else on the card changed. One block is a success when it is
   accepted; several are when all are and the stop token goes out. `tick` counts the replies.
   A card that is prompt, initialized and large enough takes everything.
   */
  ghost predicate Wrote(script: nat -> Reply, c: Card, c': Card, sector: Word, blocks: seq<Block>,
                        n: nat, ok: bool, tick: nat)
    requires n <= |blocks|
  {
    var s := Reached(c, sector);
    && Contents(c') == Contents(c).(flash := Overlay(c.flash, s, blocks[..n]))
    && (n > 0 || ok ==> Working(c) && s + n <= |c.flash|)
    && (ok ==> n == |blocks|)
    && (n == |blocks| == 1 ==> ok)
    && (n == |blocks| > 1 ==> StopReached(script, tick, ok))
    && (Cooperative(script) && Working(c) && c.busy <= 5000 && s + |blocks| <= |c.flash| ==>
          ok && c'.busy <= 5000)
  }

  lemma SingleWrote(b: Bus, c: Card, cardType: bv8, sector: Word, block: Block) returns (n: nat)
    requires b.slot == Some(c)
    requires Working(c) ==> (cardType & CT_BLOCK != 0) == (c.kind == V2Block)
    ensures
      var (b', ok) := WriteSingle(b, WireAddress(cardType, sector), block);
      n <= 1 && (n == 1 <==> ok) && b'.slot.Some? && Wrote(b.script, c, b'.slot.value, sector, [block], n, ok, b'.tick)
  {
    var arg := WireAddress(cardType, sector);
    SingleWritten(b, c, arg, block);
    n := if WriteSingle(b, arg, block).1 then 1 else 0;
    OverlayNone(c.flash, Reached(c, sector));
    assert [block][..n] == if n == 1 then [block] else [];
    if Working(c) { WireTarget(c, cardType, sector); }
    hide WriteSingle, WireAddress, Overlay, Addressed;
  }

  lemma MultipleWrote(b: Bus, c: Card, cardType: bv8, sector: Word, blocks: seq<Block>)
    requires b.slot == Some(c) && 1 < |blocks| < 0x1_0000_0000
    requires Working(c) ==> (cardType & CT_BLOCK != 0) == (c.kind == V2Block)
    ensures
      var (b', n, ok) := WriteMultiple(b, cardType, WireAddress(cardType, sector), blocks);
      b'.slot.Some? && Wrote(b.script, c, b'.slot.value, sector, blocks, n, ok, b'.tick)
  {
    var arg := WireAddress(cardType, sector);
    MultipleWritten(b, c, cardType, arg, blocks);
    assert blocks[..0] == [];
    OverlayNone(c.flash, Reached(c, sector));
    OverlayNone(c.flash, Target(c, arg));
    if Working(c) { WireTarget(c, cardType, sector); }
    hide WriteMultiple, WireAddress, Overlay, Addressed;
  }

  /** How many blocks of a write the card accepts. */
  function Accepted(b: Bus, cardType: bv8, arg: Word, blocks: seq<Block>): (n: nat)
    requires 0 < |blocks| < 0x1_0000_0000
    ensures n <= |blocks|
  {
    if |blocks| > 1 then WriteMultiple(b, cardType, arg, blocks).1
    else if WriteSingle(b, arg, blocks[0]).1 then 1 else 0
  }

  lemma SectorsWrote(b: Bus, c: Card, cardType: bv8, sector: Word, blocks: seq<Block>) returns (n: nat)
    requires b.slot == Some(c) && 0 < |blocks| < 0x1_0000_0000
    requires Working(c) ==> (cardType & CT_BLOCK != 0) == (c.kind == V2Block)
    ensures n == Accepted(b, cardType, WireAddress(cardType, sector), blocks)
    ensures
      var (b', ok) := WriteSectors(b, cardType, WireAddress(cardType, sector), blocks);
      && b'.slot.Some? && b'.script == b.script
      && Wrote(b.script, c, b'.slot.value, sector, blocks, n, ok, b'.tick)
  {
    var arg := WireAddress(cardType, sector);
    hide WireAddress, Wrote;
    if |blocks| == 1 {
      n := SingleWrote(b, c, cardType, sector, blocks[0]);
      SingleWritten(b, c, arg, blocks[0]);
      assert [blocks[0]] == blocks;
    } else {
      MultipleWrote(b, c, cardType, sector, blocks);
      MultipleWritten(b, c, cardType, arg, blocks);
      n := WriteMultiple(b, cardType, arg, blocks).1;
    }
    hide WriteSingle, WriteMultiple, Overlay;
  }

  /** What a finished write leaves behind after the deselect. */
  lemma WroteRested(stat: bv8, cardType: bv8, c: Card, c': Card, script: nat -> Reply, sector: Word, blocks: seq<Block>,
                    n: nat, ok: bool, tick: nat)
    requires n <= |blocks| && Wrote(script, c, c', sector, blocks, n, ok, tick) && Fits(stat, cardType, c)
    ensures Wrote(script, c, Rested(c', c'.busy), sector, blocks, n, ok, tick)
    ensures Fits(stat, cardType, Rested(c', c'.busy))
  {
    hide Cooperative, Reached;
  }

  lemma StatusKeepsFit(s: State, drv: Byte)
    requires Valid(s)
    ensures Valid(DiskStatus(s, drv))
  {
  }

  /** disk_write, on whatever card is in the socket. */
  lemma WriteEffect(s: State, drv: Byte, sector: Word, blocks: seq<Block>) returns (n: nat)
    requires Valid(s) && 0 < |blocks| < 0x1_0000_0000
    ensures n == if ReadyFor(s, drv) && s.bus.slot.Some? then
                   Accepted(s.bus, s.cardType, WireAddress(s.cardType, sector), blocks) else 0
    ensures
      var (s', r) := DiskWrite(s, drv, sector, blocks);
      && Valid(s') && s'.cardType == s.cardType && s'.bus.script == s.bus.script
      && s'.stat == StatusBits(s.stat, drv, s.bus.slot.Some?)
      && r in {RES_OK, RES_ERROR, RES_NOTRDY}
      && (r == RES_NOTRDY <==> !ReadyFor(s, drv))
      && (r == RES_NOTRDY ==> s'.bus == s.bus)
      && (s.bus.slot.None? ==> s'.bus.slot.None? && r != RES_OK)
      && (s.bus.slot.Some? && ReadyFor(s, drv) ==> s'.bus.slot.Some?)
      && (s.bus.slot.Some? && ReadyFor(s, drv) ==>
            Wrote(s.bus.script, s.bus.slot.value, s'.bus.slot.value, sector, blocks, n, r == RES_OK, s'.bus.tick))
  {
    n := 0;
    StatusKeepsFit(s, drv);
    var s1 := DiskStatus(s, drv);
    if ReadyFor(s, drv) {
      var arg := WireAddress(s.cardType, sector);
      var b := WriteSectors(s.bus, s.cardType, arg, blocks).0;
      DeselectRests(b);
      if s.bus.slot.None? {
        NothingWritten(s.bus, s.cardType, arg, blocks);
      } else {
        var c := s.bus.slot.value;
        n := SectorsWrote(s.bus, c, s.cardType, sector, blocks);
        var ok := WriteSectors(s.bus, s.cardType, arg, blocks).1;
        WroteRested(s1.stat, s.cardType, c, b.slot.value, s.bus.script, sector, blocks, n, ok, b.tick);
      }
      hide Wrote, WriteSectors, Deselect, WireAddress, StatusBits, Fits, Overlay, Cooperative;
    }
  }

  lemma NothingWritten(b: Bus, cardType: bv8, arg: Word, blocks: seq<Block>)
    requires b.slot.None? && 0 < |blocks| < 0x1_0000_0000
    ensures
      var (b', ok) := WriteSectors(b, cardType, arg, blocks);
      !ok && b'.slot.None? && b'.script == b.script
  {
    SendCmdUnheard(b, CMD24, arg);
    SendCmdUnheard(b, ACMD23, |blocks|);
    var b0 := if cardType & CT_SDC != 0 then SendCmd(b, ACMD23, |blocks|).0 else b;
    SendCmdUnheard(b0, CMD25, arg);
    hide SendCmd;
  }

  // ---------------------------------------------------------------------------
  // Reading
  // ---------------------------------------------------------------------------

  /**
   The outcome of reading `count` blocks from a card: what arrived is what the card
   holds at the right sectors, and the card is as it was. A card that is prompt,
   initialized and large enough delivers everything.
   */
  ghost predicate ReadFrom(script: nat -> Reply, c: Card, c': Card, sector: Word, count: nat, got: seq<Block>) {
    var s := Reached(c, sector);
    && Contents(c') == Contents(c)
    && (got != [] ==> Working(c) && s + |got| <= |c.flash| && got == c.flash[s..s + |got|])
    && (Cooperative(script) && Working(c) && c.busy <= 5000 && s + count <= |c.flash| ==>
          |got| == count && c'.busy <= 5000)
  }

  lemma SectorsRead(b: Bus, c: Card, cardType: bv8, sector: Word, count: nat)
    requires b.slot == Some(c) && count > 0
    requires Working(c) ==> (cardType & CT_BLOCK != 0) == (c.kind == V2Block)
    ensures
      var (b', got) := ReadSectors(b, WireAddress(cardType, sector), count);
      && b'.slot.Some? && b'.script == b.script
      && ReadFrom(b.script, c, b'.slot.value, sector, count, got)
  {
    if Working(c) { WireTarget(c, cardType, sector); }
    BlocksRead(b, c, WireAddress(cardType, sector), count);
    hide ReadSectors, WireAddress, Addressed, Cooperative;
  }

  lemma ReadRested(stat: bv8, cardType: bv8, c: Card, c': Card, script: nat -> Reply, sector: Word, count: nat, got: seq<Block>)
    requires ReadFrom(script, c, c', sector, count, got) && Fits(stat, cardType, c)
    ensures ReadFrom(script, c, Rested(c', c'.busy), sector, count, got)
    ensures Fits(stat, cardType, Rested(c', c'.busy))
  {
    hide Cooperative, Reached;
  }

  /** disk_read, on whatever card is in the socket. */
  lemma ReadEffect(s: State, drv: Byte, sector: Word, count: nat)
    requires Valid(s) && count > 0
    ensures
      var (s', r, got) := DiskRead(s, drv, sector, count);
      && Valid(s') && s'.cardType == s.cardType && s'.bus.script == s.bus.script
      && s'.stat == StatusBits(s.stat, drv, s.bus.slot.Some?)
      && r in {RES_OK, RES_ERROR, RES_NOTRDY}
      && (r == RES_NOTRDY <==> !ReadyFor(s, drv))
      && (r == RES_NOTRDY ==> s'.bus == s.bus)
      && (r == RES_OK <==> |got| == count)
      && (s.bus.slot.None? ==> s'.bus.slot.None? && got == [])
      && (s.bus.slot.Some? && ReadyFor(s, drv) ==> s'.bus.slot.Some?)
      && (s.bus.slot.Some? && ReadyFor(s, drv) ==>
            ReadFrom(s.bus.script, s.bus.slot.value, s'.bus.slot.value, sector, count, got))
  {
    StatusKeepsFit(s, drv);
    var s1 := DiskStatus(s, drv);
    if ReadyFor(s, drv) {
      var arg := WireAddress(s.cardType, sector);
      var (b, got) := ReadSectors(s.bus, arg, count);
      DeselectRests(b);
      if s.bus.slot.None? {
        SendCmdUnheard(s.bus, if count > 1 then CMD18 else CMD17, arg);
        hide SendCmd;
      } else {
        var c := s.bus.slot.value;
        SectorsRead(s.bus, c, s.cardType, sector, count);
        ReadRested(s1.stat, s.cardType, c, b.slot.value, s.bus.script, sector, count, got);
        hide ReadFrom, ReadSectors, Deselect, WireAddress, StatusBits, Fits, Cooperative;
      }
    }
  }
}
