/** The driver as an array of sectors: what reads and writes do to the card's contents. */
module SdSectors {
  import opened SdBus
  import opened Sdmm
  import opened SdExchange

  /** Contents with `blocks` laid over them from `sector` on. */
  function Overlay(flash: seq<Block>, sector: nat, blocks: seq<Block>): (r: seq<Block>)
    ensures |r| == |flash|
  {
    seq(|flash|, (i: nat) requires i < |flash| =>
      if sector <= i < sector + |blocks| then blocks[i - sector] else flash[i])
  }

  /** A card that answers, accepts and delivers everything it is able to, in time. */
  predicate Prompt(rep: Reply) {
    && !rep.silent && Fault(rep.error) == 0 && rep.fill < 10
    && rep.wait < 1000 && rep.token % 16 == 0 && rep.response % 32 == 5 && rep.busy < 5000
  }

  ghost predicate Cooperative(script: nat -> Reply) {
    forall t: nat :: Prompt(script(t))
  }

  // ---------------------------------------------------------------------------
  // Block loops
  // ---------------------------------------------------------------------------

  lemma OverlayStep(flash: seq<Block>, sector: nat, blocks: seq<Block>, n: nat)
    requires sector < |flash| && n < |blocks|
    ensures Overlay(flash[sector := blocks[0]], sector + 1, blocks[1..][..n]) == Overlay(flash, sector, blocks[..n + 1])
  {
  }

  /** One block of a multiple block write: accepted and in place, or not there at all. */
  lemma MultiBlockTaken(b: Bus, c: Card, data: Block)
    requires b.selected && b.slot == Some(c) && c.out == [] && c.phase.AwaitToken? && c.phase.multi
    ensures
      var s := c.phase.sector;
      var (b', ok) := TransmitBlock(b, data, 0xFC);
      && b'.selected && b'.script == b.script && b'.log == b.log && b'.slot.Some?
      && var c' := b'.slot.value;
      && (if ok then s < |c.flash| &&
            c' == c.(flash := c.flash[s := data], phase := AwaitToken(s + 1, true), busy := c'.busy)
          else c' == c.(busy := c'.busy))
      && (ok ==> b'.tick == b.tick + 2 && c'.busy == b.script(b.tick + 1).busy)
      && (Cooperative(b.script) && s < |c.flash| && c.busy < 5000 ==> ok && c'.busy < 5000)
  {
    BlockTaken(b, c, data);
    hide TransmitBlock;
    assert Cooperative(b.script) ==> Prompt(b.script(b.tick + 1));
  }

  /** The block loop of a multiple block write: the accepted blocks are a prefix, in place. */
  lemma {:induction false} BlocksTaken(b: Bus, c: Card, blocks: seq<Block>)
    requires b.selected && b.slot == Some(c) && c.out == [] && c.phase.AwaitToken? && c.phase.multi
    ensures
      var s := c.phase.sector;
      var (b', n) := WriteBlocks(b, blocks, 0xFC);
      && b'.selected && b'.script == b.script && b'.log == b.log && b'.slot.Some?
      && var c' := b'.slot.value;
      && c' == c.(flash := Overlay(c.flash, s, blocks[..n]), phase := AwaitToken(s + n, true), busy := c'.busy)
      && (n > 0 ==> s + n <= |c.flash|)
      && (Cooperative(b.script) && s + |blocks| <= |c.flash| && c.busy < 5000 ==>
            n == |blocks| && c'.busy < 5000)
      && (0 < n == |blocks| ==> b'.tick > 0 && c'.busy == b.script(b'.tick - 1).busy)
    decreases |blocks|
  {
    hide TransmitBlock, Cooperative, Overlay;
    var s := c.phase.sector;
    if blocks == [] {
      OverlayNone(c.flash, s);
    } else {
      MultiBlockTaken(b, c, blocks[0]);
      var (b1, ok) := TransmitBlock(b, blocks[0], 0xFC);
      if ok {
        BlocksTaken(b1, b1.slot.value, blocks[1..]);
        OverlayStep(c.flash, s, blocks, WriteBlocks(b1, blocks[1..], 0xFC).1);
      } else {
        OverlayNone(c.flash, s);
        assert blocks[..0] == [];
      }
    }
  }

  /** One packet of a read: the card's sector, or nothing. */
  lemma SectorDelivered(c: Card, rep: Reply)
    requires c.out == [] && c.busy == 0 && c.phase.Sending? && c.phase.source.Sectors?
    ensures
      var Sectors(s, single) := c.phase.source;
      var (c', data) := Delivery(c, rep);
      && Core(c') == Core(c) && c'.busy == 0
      && !c'.phase.AwaitToken? && !c'.phase.AwaitData?
      && (data.Some? ==>
            && s < |c.flash| && data.value == c.flash[s] && c'.out == []
            && c'.phase == if single then Waiting else Sending(Sectors(s + 1, false)))
      && (Prompt(rep) && s < |c.flash| ==> data.Some?)
  {
    RefillShape(c, rep);
    var c' := Refill(c, rep);
    if Delivery(c, rep).1.Some? {
      var s := c.phase.source.next;
      assert s < |c.flash| && rep.token % 16 == 0;
      assert c'.out[rep.wait + 1..|c'.out| - 2] == c.flash[s];
    }
  }

  lemma SliceCons(flash: seq<Block>, s: nat, block: Block, rest: seq<Block>)
    requires s < |flash| && block == flash[s]
    requires rest != [] ==> s + 1 + |rest| <= |flash| && rest == flash[s + 1..s + 1 + |rest|]
    ensures s + 1 + |rest| <= |flash| && [block] + rest == flash[s..s + |[block] + rest|]
  {
  }

  /** The block loop of a read: the blocks received are the card's, in order. */
  lemma {:induction false} BlocksDelivered(b: Bus, c: Card, count: nat)
    requires b.selected && b.slot == Some(c) && c.out == [] && c.busy == 0
    requires c.phase.Sending? && c.phase.source.Sectors? && (c.phase.source.single ==> count <= 1)
    ensures
      var s := c.phase.source.next;
      var (b', got) := ReadBlocks(b, count);
      && b'.selected && b'.script == b.script && b'.log == b.log && b'.slot.Some?
      && Core(b'.slot.value) == Core(c) && b'.slot.value.busy == 0
      && !b'.slot.value.phase.AwaitToken? && !b'.slot.value.phase.AwaitData?
      && (got != [] ==> s + |got| <= |c.flash| && got == c.flash[s..s + |got|])
      && (Cooperative(b.script) && s + count <= |c.flash| ==> |got| == count)
    decreases count
  {
    hide Delivery, ReceiveBlock;
    if count > 0 {
      var s := c.phase.source.next;
      BlockDelivered(b, c);
      SectorDelivered(c, b.script(b.tick));
      var (b1, data) := ReceiveBlock(b, 512);
      if data.Some? {
        var rest := ReadBlocks(b1, count - 1).1;
        if count > 1 {
          BlocksDelivered(b1, b1.slot.value, count - 1);
        }
        SliceCons(c.flash, s, data.value, rest);
      }
    }
  }

  // ---------------------------------------------------------------------------
  // Commands that open a transfer
  // ---------------------------------------------------------------------------

  /** Everything about a card but the transaction it is in. */
  function Contents(c: Card): Card {
    Core(c).(app := false)
  }

  /** The sector an address argument reaches, for a card that has it. */
  function Target(c: Card, arg: Word): nat {
    if c.kind == V2Block then arg else arg / 512
  }

  predicate Working(c: Card) {
    c.spi && !c.idle
  }

  function Opened(index: Byte, sector: nat): Phase
    requires index in {CMD17, CMD18, CMD24, CMD25}
  {
    if index == CMD17 || index == CMD18 then Sending(Sectors(sector, index == CMD17))
    else AwaitToken(sector, index == CMD25)
  }

  /** The card's side of opening a transfer. */
  lemma OpeningOutcome(c: Card, index: Byte, arg: Word, rep: Reply)
    requires index in {CMD17, CMD18, CMD24, CMD25} && c == Core(c)
    ensures
      var (c', r) := Outcome(c, index, arg, rep);
      && Contents(c') == Contents(c)
      && (r == 0 ==>
            && Working(c) && Addressed(c, arg) == Some(Target(c, arg))
            && c' == Contents(c).(phase := Opened(index, Target(c, arg))))
      && (Prompt(rep) && Working(c) && Addressed(c, arg).Some? ==> r == 0)
  {
  }

  lemma HintOutcome(c: Card, index: Byte, arg: Word, rep: Reply)
    requires index in {CMD55, ACMD23 - 0x80} && c == Core(c)
    ensures
      var c' := Outcome(c, index, arg, rep).0;
      Contents(c') == Contents(c) && c'.busy == 0
  {
  }

  /** CMD17, CMD18, CMD24 and CMD25: response 0 means the transfer is open at the right sector. */
  lemma TransferOpened(b: Bus, c: Card, index: Byte, arg: Word)
    requires b.slot == Some(c) && index in {CMD17, CMD18, CMD24, CMD25}
    ensures
      var (b', r) := SendCmd(b, index, arg);
      && b'.script == b.script && b'.slot.Some?
      && var c' := b'.slot.value;
      && Contents(c') == Contents(c)
      && (r == 0 ==>
            && b'.selected && Working(c) && Addressed(c, arg) == Some(Target(c, arg))
            && c' == Contents(c).(phase := Opened(index, Target(c, arg))))
      && (Cooperative(b.script) && c.busy <= 5000 && Working(c) && Addressed(c, arg).Some? ==> r == 0)
      && (b'.log == b.log + [Exchange(index, arg, r)] || (b'.log == b.log && r == 0xFF))
  {
    CommandOutcome(b, c, index, arg);
    OpeningOutcome(Core(c), index, arg, b.script(b.tick));
    CooperativeAt(b.script, b.tick);
    SameAddress(c, Core(c), arg);
    hide Command, Outcome, Addressed, Cooperative, Prompt;
  }

  /** CMD55 and CMD23, the hint before a multiple block write, leave the contents alone. */
  lemma HintSent(b: Bus, c: Card, arg: Word)
    requires b.slot == Some(c)
    ensures
      var (b', r) := SendCmd(b, ACMD23, arg);
      && b'.script == b.script && b'.slot.Some?
      && Contents(b'.slot.value) == Contents(c)
      && (c.busy <= 5000 ==> b'.slot.value.busy <= 5000)
  {
    CommandOutcome(b, c, CMD55, 0);
    HintOutcome(Core(c), CMD55, 0, b.script(b.tick));
    hide Command, Outcome;
    var (b1, n) := Command(b, CMD55, 0);
    if n <= 1 {
      var c1 := b1.slot.value;
      CommandOutcome(b1, c1, ACMD23 - 0x80, arg);
      HintOutcome(Core(c1), ACMD23 - 0x80, arg, b1.script(b1.tick));
    }
  }

  /** disk_write of one block, up to the final deselect. */
  lemma SingleWritten(b: Bus, c: Card, arg: Word, block: Block)
    requires b.slot == Some(c)
    ensures
      var (b', ok) := WriteSingle(b, arg, block);
      && b'.script == b.script && b'.slot.Some?
      && Contents(b'.slot.value) ==
           (if ok then Contents(c).(flash := Overlay(c.flash, Target(c, arg), [block])) else Contents(c))
      && (ok ==> Working(c) && Addressed(c, arg).Some?)
      && (Cooperative(b.script) && c.busy <= 5000 && Working(c) && Addressed(c, arg).Some? ==>
            ok && b'.slot.value.busy <= 5000)
  {
    TransferOpened(b, c, CMD24, arg);
    hide SendCmd, Addressed, Cooperative;
    var (b1, r) := SendCmd(b, CMD24, arg);
    if r == 0 {
      var c1 := b1.slot.value;
      BlockTaken(b1, c1, block);
      CooperativeAt(b.script, b1.tick + 1);
      OverlayOne(c.flash, Target(c, arg), block);
      hide TransmitBlock;
    }
  }

  lemma CooperativeAt(script: nat -> Reply, t: nat)
    ensures Cooperative(script) ==> Prompt(script(t))
  {
  }

  lemma OverlayOne(flash: seq<Block>, sector: nat, block: Block)
    requires sector < |flash|
    ensures flash[sector := block] == Overlay(flash, sector, [block])
  {
  }

  lemma OverlayNone(flash: seq<Block>, sector: nat)
    ensures Overlay(flash, sector, []) == flash
  {
  }

  /**
   With all blocks accepted, the stop token goes out exactly when the card's reply to the last of
   them is not busy beyond the time-out; that reply is the last one, or the one before the stop token's.
   */
  predicate StopReached(script: nat -> Reply, tick: nat, ok: bool) {
    if ok then tick >= 2 && script(tick - 2).busy < 5000 else tick >= 1 && script(tick - 1).busy >= 5000
  }

  /** The blocks and the stop token of a multiple block write. */
  function SendBlocks(b: Bus, blocks: seq<Block>): (r: (Bus, nat, bool))
    ensures r.1 <= |blocks|
  {
    var (b1, n) := WriteBlocks(b, blocks, 0xFC);
    var (b2, stopped) := TransmitBlock(b1, [], STOP);
    (b2, n, n == |blocks| && stopped)
  }

  lemma BlocksStopped(b: Bus, c: Card, blocks: seq<Block>)
    requires b.selected && b.slot == Some(c) && c.out == [] && c.phase.AwaitToken? && c.phase.multi && c.busy == 0
    ensures
      var s := c.phase.sector;
      var (b', n, ok) := SendBlocks(b, blocks);
      && b'.script == b.script && b'.slot.Some?
      && Contents(b'.slot.value) == Contents(c).(flash := Overlay(c.flash, s, blocks[..n]))
      && (n > 0 ==> s + n <= |c.flash|)
      && (ok ==> n == |blocks|)
      && (0 < n == |blocks| ==> StopReached(b.script, b'.tick, ok))
      && (Cooperative(b.script) && s + |blocks| <= |c.flash| ==> ok && b'.slot.value.busy <= 5000)
  {
    hide Cooperative, Overlay;
    BlocksTaken(b, c, blocks);
    hide WriteBlocks, TransmitBlock;
    var b1 := WriteBlocks(b, blocks, 0xFC).0;
    StopTaken(b1, b1.slot.value);
    CooperativeAt(b.script, b1.tick);
  }

  /** disk_write of several blocks, up to the final deselect. */
  lemma MultipleWritten(b: Bus, c: Card, cardType: bv8, arg: Word, blocks: seq<Block>)
    requires b.slot == Some(c) && |blocks| < 0x1_0000_0000
    ensures
      var (b', n, ok) := WriteMultiple(b, cardType, arg, blocks);
      && b'.script == b.script && b'.slot.Some?
      && Contents(b'.slot.value) == Contents(c).(flash := Overlay(c.flash, Target(c, arg), blocks[..n]))
      && (ok || n > 0 ==> Working(c) && Addressed(c, arg).Some? && Target(c, arg) + n <= |c.flash|)
      && (ok ==> n == |blocks|)
      && (0 < n == |blocks| ==> StopReached(b.script, b'.tick, ok))
      && (Cooperative(b.script) && c.busy <= 5000 && Working(c) && Addressed(c, arg).Some? ==>
            (Target(c, arg) + |blocks| <= |c.flash| ==> ok && b'.slot.value.busy <= 5000))
  {
    hide Addressed, Cooperative, Overlay, StopReached;
    OverlayNone(c.flash, Target(c, arg));
    assert blocks[..0] == [];
    HintSent(b, c, |blocks|);
    var b0 := if cardType & CT_SDC != 0 then SendCmd(b, ACMD23, |blocks|).0 else b;
    SameAddress(c, b0.slot.value, arg);
    TransferOpened(b0, b0.slot.value, CMD25, arg);
    hide SendCmd;
    var (b1, r) := SendCmd(b0, CMD25, arg);
    if r == 0 {
      BlocksStopped(b1, b1.slot.value, blocks);
      hide WriteBlocks, TransmitBlock;
    }
  }

  lemma SameAddress(c: Card, c': Card, arg: Word)
    requires Contents(c) == Contents(c')
    ensures Addressed(c, arg) == Addressed(c', arg) && Target(c, arg) == Target(c', arg)
    ensures Working(c) == Working(c')
    ensures Addressed(c, arg).Some? ==> Addressed(c, arg) == Some(Target(c, arg)) && Target(c, arg) < |c.flash|
  {
  }

  /** CMD12 in the middle of a multiple block read leaves the contents alone. */
  lemma ReadStopped(b: Bus, c: Card)
    requires b.selected && b.slot == Some(c) && !c.phase.AwaitToken? && !c.phase.AwaitData?
    ensures
      var b' := SendCmd(b, CMD12, 0).0;
      && b'.slot.Some? && Contents(b'.slot.value) == Contents(c) && b'.script == b.script
      && (Cooperative(b.script) && c.busy <= 5000 ==> b'.slot.value.busy <= 5000)
  {
    hide Crc7, FrameOk, FrameIndex, FrameArg;
    FrameRoundTrip(CMD12, 0);
    var sent := Send(b, Frame(CMD12, 0));
    var c1 := sent.slot.value;
    assert Contents(c1) == Contents(c);
    CooperativeAt(b.script, b.tick);
    ClocksOne(sent);
    ClockKeepsCore(sent, c1);
    var b1 := Recv(sent, 1).0;
    PollKeepsCore(b1, Response, 10, b1.slot.value);
    hide Poll, Recv, Clock, OnCommand, Frame;
  }

  /** disk_read, up to the final deselect. */
  lemma BlocksRead(b: Bus, c: Card, arg: Word, count: nat)
    requires b.slot == Some(c) && count > 0
    ensures
      var s := Target(c, arg);
      var (b', got) := ReadSectors(b, arg, count);
      && b'.slot.Some? && b'.script == b.script
      && Contents(b'.slot.value) == Contents(c)
      && (got != [] ==> Working(c) && Addressed(c, arg).Some? && s + |got| <= |c.flash| && got == c.flash[s..s + |got|])
      && (Cooperative(b.script) && Working(c) && c.busy <= 5000 && Addressed(c, arg).Some? && s + count <= |c.flash| ==>
            |got| == count && b'.slot.value.busy <= 5000)
  {
    hide Addressed, Cooperative, SendCmd, ReadBlocks;
    var cmd := if count > 1 then CMD18 else CMD17;
    TransferOpened(b, c, cmd, arg);
    var (b1, r) := SendCmd(b, cmd, arg);
    if r == 0 {
      var c1 := b1.slot.value;
      BlocksDelivered(b1, c1, count);
      if cmd == CMD18 {
        var b2 := ReadBlocks(b1, count).0;
        ReadStopped(b2, b2.slot.value);
      }
    }
  }
}
