/** Card identification: what any card can make of it, and what a prompt card gets. */
module SdInit {
  import opened SdBus
  import opened Sdmm
  import opened SdExchange
  import opened SdSectors
  import opened SdProperties

  predicate SameMedia(c: Card, c': Card) {
    c.kind == c'.kind && c.flash == c'.flash && c.csd == c'.csd
  }

  /** A block-addressed card that the host has not offered high capacity to stays idle. */
  predicate HeldIdle(c: Card) {
    c.kind == V2Block ==> c.idle
  }

  // ---------------------------------------------------------------------------
  // Any card
  // ---------------------------------------------------------------------------

  predicate IdentificationCommand(index: Byte, arg: Word) {
    || (index == CMD0 && arg == 0) || (index == CMD8 && arg == 0x1AA) || (index == CMD55 && arg == 0)
    || (index == 41 && arg in {0, 0x4000_0000}) || (index == CMD1 && arg == 0)
    || (index == CMD16 && arg == 512) || (index == CMD58 && arg == 0)
  }

  /** What no identification command changes. */
  predicate Kept(c: Card, c': Card) {
    SameMedia(c, c') && ((!c.spi ==> c.idle) ==> (!c'.spi ==> c'.idle))
  }

  function Ocr(c: Card): seq<Byte> {
    [if c.kind == V2Block then 0xC0 else 0x80, 0xFF, 0x80, 0]
  }

  /** An effect of one identification command, with its response. */
  predicate IdentificationStep(c: Card, c': Card, index: Byte, arg: Word, r: Byte) {
    && Kept(c, c')
    && (index == CMD0 && r == 1 ==> c'.idle)
    && (HeldIdle(c) && arg != 0x4000_0000 ==> HeldIdle(c'))
    && (HeldIdle(c) && r == 0 && arg == 0 && index in {41, CMD1} ==> c.kind != V2Block)
    && (index == CMD58 && r == 0 ==> !c'.idle && c'.out == Ocr(c))
    && (index == CMD16 && r == 0 ==> !c'.idle)
  }

  lemma IdentificationOutcome(c: Card, index: Byte, arg: Word, rep: Reply)
    requires IdentificationCommand(index, arg) && c == Core(c)
    ensures
      var (c', r) := Outcome(c, index, arg, rep);
      IdentificationStep(c, c', index, arg, r)
  {
    hide FrameOk, Crc7, Fill;
  }

  lemma IdentificationCommandEffect(b: Bus, c: Card, index: Byte, arg: Word)
    requires b.slot == Some(c) && IdentificationCommand(index, arg)
    ensures
      var (b', r) := Command(b, index, arg);
      && b'.script == b.script && b'.slot.Some? && (r == 0 ==> b'.selected)
      && IdentificationStep(c, b'.slot.value, index, arg, r)
  {
    CommandOutcome(b, c, index, arg);
    IdentificationOutcome(Core(c), index, arg, b.script(b.tick));
    hide Command, Outcome;
  }

  /** The same for the application commands, which go out behind CMD55. */
  lemma IdentificationEffect(b: Bus, c: Card, cmd: Byte, arg: Word)
    requires b.slot == Some(c) && cmd in {CMD0, CMD8, CMD1, CMD16, CMD58, ACMD41}
    requires IdentificationCommand(cmd % 0x80, arg)
    ensures
      var (b', r) := SendCmd(b, cmd, arg);
      && b'.script == b.script && b'.slot.Some? && (r == 0 ==> b'.selected)
      && IdentificationStep(c, b'.slot.value, cmd % 0x80, arg, r)
  {
    hide Command;
    if cmd == ACMD41 {
      IdentificationCommandEffect(b, c, CMD55, 0);
      var (b1, n) := Command(b, CMD55, 0);
      if n <= 1 {
        IdentificationCommandEffect(b1, b1.slot.value, 41, arg);
      }
    } else {
      IdentificationCommandEffect(b, c, cmd, arg);
    }
  }

  lemma {:induction false} LeaveIdleEffect(b: Bus, c: Card, cmd: Byte, arg: Word, n: nat)
    requires b.slot == Some(c) && cmd in {ACMD41, CMD1}
    requires arg == 0 || (cmd == ACMD41 && arg == 0x4000_0000)
    ensures
      var (b', ok) := LeaveIdle(b, cmd, arg, n);
      && b'.script == b.script && b'.slot.Some? && Kept(c, b'.slot.value)
      && (HeldIdle(c) && arg == 0 ==> HeldIdle(b'.slot.value))
      && (HeldIdle(c) && arg == 0 && ok ==> c.kind != V2Block)
    decreases n
  {
    hide SendCmd;
    if n > 0 {
      IdentificationEffect(b, c, cmd, arg);
      var (b1, r) := SendCmd(b, cmd, arg);
      if r != 0 {
        LeaveIdleEffect(b1, b1.slot.value, cmd, arg, n - 1);
      }
    }
  }

  /** A nonzero type fits the card's addressing, and its card is awake, whatever the card does. */
  predicate Identified(c: Card, c': Card, ty: bv8) {
    && Kept(c, c')
    && ty in {0, CT_SDC2 | CT_BLOCK, CT_SDC2, CT_MMC3}
    && (ty != 0 ==> (ty & CT_BLOCK != 0) == (c.kind == V2Block) && !c'.idle)
  }

  lemma RecvKeepsCore(b: Bus, c: Card, n: nat)
    requires b.slot == Some(c)
    ensures
      var b' := Recv(b, n).0;
      && b'.slot.Some? && Core(b'.slot.value) == Core(c) && b'.script == b.script
      && b'.selected == b.selected && b'.slot.value.busy <= c.busy && b'.log == b.log
  {
    ClocksKeepCore(b, c, n);
  }

  lemma {:induction false} ClocksKeepCore(b: Bus, c: Card, n: nat)
    requires b.slot == Some(c)
    ensures
      var b' := Clocks(b, n).0;
      && b'.slot.Some? && Core(b'.slot.value) == Core(c) && b'.script == b.script
      && b'.selected == b.selected && b'.slot.value.busy <= c.busy && b'.log == b.log
    decreases n
  {
    if n > 0 {
      ClockKeepsCore(b, c);
      ClocksKeepCore(Clock(b).0, Clock(b).0.slot.value, n - 1);
    }
  }

  /** Waking the card and asking for its OCR, after a good CMD8 echo. */
  lemma AwakeEffect(b: Bus, c: Card)
    requires b.slot == Some(c)
    ensures
      var (b2, awake) := LeaveIdle(b, ACMD41, 0x4000_0000, 1000);
      var (b3, r) := SendCmd(b2, CMD58, 0);
      && b2.script == b.script && b2.slot.Some? && Kept(c, b2.slot.value)
      && b3.script == b.script && b3.slot.Some? && Kept(c, b3.slot.value)
      && (r == 0 ==> Recv(b3, 4).1 == Ocr(c) && !b3.slot.value.idle)
  {
    hide LeaveIdle, SendCmd, Recv;
    LeaveIdleEffect(b, c, ACMD41, 0x4000_0000, 1000);
    var b2 := LeaveIdle(b, ACMD41, 0x4000_0000, 1000).0;
    IdentificationEffect(b2, b2.slot.value, CMD58, 0);
    var (b3, r) := SendCmd(b2, CMD58, 0);
    if r == 0 {
      OcrRead(b3, b3.slot.value);
    }
  }

  lemma KeptCore(c: Card, c': Card, c'': Card)
    requires Kept(c, c') && Core(c') == Core(c'')
    ensures Kept(c, c'') && c''.idle == c'.idle
  {
  }

  lemma IdentifyV2Effect(b: Bus, c: Card)
    requires b.slot == Some(c)
    ensures
      var (b', ty) := IdentifyV2(b);
      b'.script == b.script && b'.slot.Some? && Identified(c, b'.slot.value, ty)
  {
    hide Recv, LeaveIdle, SendCmd, Kept;
    RecvKeepsCore(b, c, 4);
    var b1 := Recv(b, 4).0;
    var c1 := b1.slot.value;
    KeptRefl(c, c1);
    AwakeEffect(b1, c1);
    var b2 := LeaveIdle(b1, ACMD41, 0x4000_0000, 1000).0;
    KeptTrans(c, c1, b2.slot.value);
    var b3 := SendCmd(b2, CMD58, 0).0;
    KeptTrans(c, c1, b3.slot.value);
    RecvKeepsCore(b3, b3.slot.value, 4);
    var b4 := Recv(b3, 4).0;
    KeptCore(c, b3.slot.value, b4.slot.value);
  }

  lemma KeptRefl(c: Card, c': Card)
    requires Core(c) == Core(c')
    ensures Kept(c, c') && c.kind == c'.kind
  {
  }

  lemma KeptTrans(c: Card, c': Card, c'': Card)
    requires Kept(c, c') && Kept(c', c'')
    ensures Kept(c, c'')
  {
  }

  lemma OcrRead(b: Bus, c: Card)
    requires b.selected && b.slot == Some(c) && |c.out| == 4
    ensures Recv(b, 4).1 == c.out
  {
    ClocksQueued(b, 4, c);
  }

  lemma IdentifyV1Effect(b: Bus, c: Card)
    requires b.slot == Some(c) && HeldIdle(c)
    ensures
      var (b', ty) := IdentifyV1(b);
      b'.script == b.script && b'.slot.Some? && Identified(c, b'.slot.value, ty)
  {
    hide LeaveIdle, SendCmd, Kept, HeldIdle;
    IdentificationEffect(b, c, ACMD41, 0);
    var (b1, r) := SendCmd(b, ACMD41, 0);
    var c1 := b1.slot.value;
    KeptMedia(c, c1);
    var cmd := if r <= 1 then ACMD41 else CMD1;
    LeaveIdleEffect(b1, c1, cmd, 0, 1000);
    var (b2, awake) := LeaveIdle(b1, cmd, 0, 1000);
    KeptTrans(c, c1, b2.slot.value);
    if awake {
      IdentificationEffect(b2, b2.slot.value, CMD16, 512);
      KeptTrans(c, b2.slot.value, SendCmd(b2, CMD16, 512).0.slot.value);
    }
  }

  lemma KeptMedia(c: Card, c': Card)
    requires Kept(c, c')
    ensures SameMedia(c, c')
  {
  }

  lemma IdentifyEffect(b: Bus, c: Card)
    requires b.slot == Some(c)
    ensures
      var (b', ty) := Identify(b);
      b'.script == b.script && b'.slot.Some? && Identified(c, b'.slot.value, ty)
  {
    IdentificationEffect(b, c, CMD0, 0);
    hide SendCmd, IdentifyV1, IdentifyV2;
    var (b1, r0) := SendCmd(b, CMD0, 0);
    if r0 == 1 {
      IdentificationEffect(b1, b1.slot.value, CMD8, 0x1AA);
      var (b2, r8) := SendCmd(b1, CMD8, 0x1AA);
      if r8 == 1 {
        IdentifyV2Effect(b2, b2.slot.value);
      } else {
        IdentifyV1Effect(b2, b2.slot.value);
      }
    }
  }

  /** What disk_initialize leaves behind once it went past the early returns. */
  lemma PowerUpEffect(s: State)
    requires Valid(s)
    ensures
      var s' := PowerUp(s);
      && Valid(s') && s'.bus.script == s.bus.script && (s.bus.slot.None? <==> s'.bus.slot.None?)
      && (s.bus.slot.Some? ==> SameMedia(s.bus.slot.value, s'.bus.slot.value))
      && (s'.stat & STA_NOINIT == 0 <==> s'.cardType != 0)
      && (s'.cardType != 0 ==> s'.stat == 0 && s.bus.slot.Some? && Working(s'.bus.slot.value))
  {
    hide Identify, Recv, Deselect;
    var b0 := SetCs(s.bus, true);
    var b := Recv(b0, 10).0;
    var (b', ty) := Identify(b);
    if s.bus.slot.None? {
      AbsentStaysAbsent(b0);
      DeselectRests(b');
    } else {
      RecvKeepsCore(b0, b0.slot.value, 10);
      IdentifyEffect(b, b.slot.value);
      DeselectRests(b');
      var s2 := State(if ty != 0 then 0 else STA_NOINIT, ty, Deselect(b'));
      IdentifiedFits(s, b.slot.value, b'.slot.value, ty);
      if ty == 0 { StatusKeepsFit(s2, 0); }
    }
  }

  lemma IdentifiedFits(s: State, c: Card, c': Card, ty: bv8)
    requires Valid(s) && s.bus.slot.Some? && Core(c) == Core(s.bus.slot.value) && Identified(c, c', ty)
    ensures Fits(if ty != 0 then 0 else STA_NOINIT, ty, Rested(c', c'.busy))
    ensures ty != 0 ==> Working(Rested(c', c'.busy))
  {
  }

  lemma AbsentStaysAbsent(b: Bus)
    requires b.slot.None?
    ensures Recv(b, 10).0.slot.None? && Identify(Recv(b, 10).0).1 == 0
    ensures Identify(Recv(b, 10).0).0.slot.None? && Identify(Recv(b, 10).0).0.script == b.script
  {
    SilentClocks(b, 10);
    SendCmdUnheard(Recv(b, 10).0, CMD0, 0);
    hide SendCmd;
  }

  /** disk_initialize keeps the driver's invariant and the card's contents, whatever the card does. */
  lemma InitializeEffect(s: State, drv: Byte)
    requires Valid(s)
    ensures
      var (s', r) := DiskInitialize(s, drv);
      && Valid(s') && s'.bus.script == s.bus.script && (s.bus.slot.None? <==> s'.bus.slot.None?)
      && (s.bus.slot.Some? ==> SameMedia(s.bus.slot.value, s'.bus.slot.value))
      && (drv != 0 ==> s' == s && r == 3)
      && (drv == 0 ==> r == s'.stat)
      && (drv == 0 && StatusBits(s.stat, 0, s.bus.slot.Some?) == 0 ==> r == 0 && s'.bus == s.bus && s'.cardType == s.cardType)
      && (drv == 0 && StatusBits(s.stat, 0, s.bus.slot.Some?) != 0 && r == 0 ==>
            s.bus.slot.Some? && Working(s'.bus.slot.value))
  {
    StatusKeepsFit(s, drv);
    PowerUpEffect(DiskStatus(s, drv));
    hide PowerUp, StatusBits, Fits;
  }

  /** disk_status: bit 1 is the socket, bit 0 is set for good by a wrong drive, and nothing else moves. */
  lemma StatusTells(s: State, drv: Byte)
    ensures
      var s' := DiskStatus(s, drv);
      && s'.bus == s.bus && s'.cardType == s.cardType
      && (s'.stat & 2 != 0 <==> s.bus.slot.None?)
      && (s'.stat & 1 != 0 <==> drv != 0 || s.stat & 1 != 0)
      && s'.stat & 0xFC == s.stat & 0xFC
  {
  }

  /** With no card in the socket disk_initialize answers 3, no initialization and no disk, and forgets the type. */
  lemma EmptySocketInitialize(s: State)
    requires s.bus.slot.None?
    ensures
      var (s', r) := DiskInitialize(s, 0);
      r == s'.stat == 3 && s'.cardType == 0 && s'.bus.slot.None?
  {
    var s1 := DiskStatus(s, 0);
    StatusTells(s, 0);
    AbsentStaysAbsent(SetCs(s1.bus, true));
    PowerUpType(s1);
    DeselectRests(Identify(Recv(SetCs(s1.bus, true), 10).0).0);
    hide Identify, Recv, Deselect;
  }

  // ---------------------------------------------------------------------------
  // A prompt card
  // ---------------------------------------------------------------------------

  /** How many more polls a card answers with "still idle". */
  function Remaining(c: Card): nat {
    if c.idle then c.polls else 0
  }

  /** A command to a prompt card is executed and answered. */
  lemma PromptCommand(b: Bus, c: Card, index: Byte, arg: Word)
    requires b.slot == Some(c) && Cooperative(b.script) && c.busy <= 5000
    requires (c.spi || index == CMD0) && Sendable(index, arg) && index != CMD12
    ensures
      var a := Execute(Contents(c), c.app, index, arg, b.script(b.tick));
      var (b', r) := Command(b, index, arg);
      && b'.slot == Some(a.card.(out := a.tail)) && r == a.r1
      && b'.selected && b'.script == b.script && b'.tick == b.tick + 1
  {
    CommandOutcome(b, c, index, arg);
    CooperativeAt(b.script, b.tick);
    hide Command, Execute;
  }

  /** The command that wakes a card of this kind, with the argument it needs. */
  predicate Wakes(kind: Kind, cmd: Byte, arg: Word) {
    if kind == Mmc then cmd == CMD1 && arg == 0
    else cmd == ACMD41 && arg == if kind == V2Block then 0x4000_0000 else arg
  }

  /** One poll of a prompt card. */
  lemma PromptPoll(b: Bus, c: Card, cmd: Byte, arg: Word)
    requires b.slot == Some(c) && Cooperative(b.script) && c.busy <= 5000 && c.spi
    requires Wakes(c.kind, cmd, arg)
    ensures
      var (b', r) := SendCmd(b, cmd, arg);
      && b'.slot.Some? && b'.script == b.script
      && var c' := b'.slot.value;
      && c'.spi && c'.kind == c.kind && c'.busy <= 5000
      && r <= 1 && (r == 0 <==> Remaining(c) == 0) && (r == 0 ==> !c'.idle)
      && Remaining(c') == if Remaining(c) > 0 then Remaining(c) - 1 else 0
  {
    if cmd == ACMD41 {
      PromptCommand(b, c, CMD55, 0);
      var b1 := Command(b, CMD55, 0).0;
      PromptCommand(b1, b1.slot.value, 41, arg);
    } else {
      PromptCommand(b, c, CMD1, arg);
    }
    hide Command;
  }

  /** Polling wakes a prompt card exactly when it stays idle for fewer polls than are made. */
  lemma {:induction false} PromptLeaveIdle(b: Bus, c: Card, cmd: Byte, arg: Word, n: nat)
    requires b.slot == Some(c) && Cooperative(b.script) && c.busy <= 5000 && c.spi
    requires Wakes(c.kind, cmd, arg) && cmd % 128 < 64
    ensures
      var (b', ok) := LeaveIdle(b, cmd, arg, n);
      && (ok <==> Remaining(c) < n)
      && b'.slot.Some? && b'.script == b.script
      && var c' := b'.slot.value;
      && c'.spi && c'.kind == c.kind && c'.busy <= 5000 && (ok ==> !c'.idle)
    decreases n
  {
    hide SendCmd;
    if n > 0 {
      PromptPoll(b, c, cmd, arg);
      var (b1, r) := SendCmd(b, cmd, arg);
      if r != 0 {
        PromptLeaveIdle(b1, b1.slot.value, cmd, arg, n - 1);
      }
    }
  }

  function CodeOf(kind: Kind): bv8 {
    match kind
    case V2Block => CT_SDC2 | CT_BLOCK
    case V2Byte => CT_SDC2
    case V1 => CT_SDC2
    case Mmc => CT_MMC3
  }

  /** The most polls a card may stay idle for and still be taken; one ACMD41 probes for V1. */
  function Patience(kind: Kind): nat {
    if kind == V1 then 1000 else 999
  }

  /** A card that answers CMD8 runs at the voltage offered and echoes the pattern. */
  predicate Suits(kind: Kind, rep: Reply) {
    kind in {V2Block, V2Byte} ==> rep.volts == 1 && rep.pattern == 0xAA
  }

  /** CMD58 tells a card that is awake apart by its addressing. */
  lemma PromptOcr(b: Bus, c: Card)
    requires b.slot == Some(c) && Cooperative(b.script) && c.busy <= 5000 && c.spi && !c.idle
    ensures
      var (b', r) := SendCmd(b, CMD58, 0);
      r == 0 && Recv(b', 4).1 == Ocr(c)
  {
    PromptCommand(b, c, CMD58, 0);
    PlainCommand(b, CMD58, 0);
    hide Command, SendCmd, Recv;
    var b' := Command(b, CMD58, 0).0;
    OcrRead(b', b'.slot.value);
  }

  lemma PromptV2(b: Bus, c: Card, rep: Reply)
    requires b.slot == Some(c) && Cooperative(b.script) && c.busy <= 5000 && c.spi && b.selected
    requires c.kind in {V2Block, V2Byte} && c.out == [0, 0, rep.volts, rep.pattern]
    ensures IdentifyV2(b).1 == if Remaining(c) <= Patience(c.kind) && Suits(c.kind, rep) then CodeOf(c.kind) else 0
  {
    hide LeaveIdle, SendCmd, Cooperative, Recv;
    OcrRead(b, c);
    RecvKeepsCore(b, c, 4);
    var b1 := Recv(b, 4).0;
    var c1 := b1.slot.value;
    PromptLeaveIdle(b1, c1, ACMD41, 0x4000_0000, 1000);
    var (b2, awake) := LeaveIdle(b1, ACMD41, 0x4000_0000, 1000);
    if awake {
      PromptOcr(b2, b2.slot.value);
    }
  }

  lemma PlainCommand(b: Bus, cmd: Byte, arg: Word)
    requires cmd < 64
    ensures SendCmd(b, cmd, arg) == Command(b, cmd, arg)
  {
  }

  /** The probe with ACMD41: answered by a version 1 card, refused by an MMC. */
  lemma PromptProbe(b: Bus, c: Card)
    requires b.slot == Some(c) && Cooperative(b.script) && c.busy <= 5000 && c.spi && c.idle
    requires c.kind in {V1, Mmc}
    ensures
      var (b1, r) := SendCmd(b, ACMD41, 0);
      && b1.slot.Some? && b1.script == b.script && (r <= 1 <==> c.kind == V1)
      && var c1 := b1.slot.value;
      && c1.spi && c1.kind == c.kind && c1.busy <= 5000
      && Remaining(c1) == if c.kind == V1 && Remaining(c) > 0 then Remaining(c) - 1 else Remaining(c)
  {
    if c.kind == V1 {
      PromptPoll(b, c, ACMD41, 0);
      hide SendCmd;
    } else {
      PromptCommand(b, c, CMD55, 0);
      hide Command;
    }
  }

  lemma PromptBlockLength(b: Bus, c: Card)
    requires b.slot == Some(c) && Cooperative(b.script) && c.busy <= 5000 && c.spi && !c.idle
    ensures SendCmd(b, CMD16, 512).1 == 0
  {
    PromptCommand(b, c, CMD16, 512);
    PlainCommand(b, CMD16, 512);
    hide Command, SendCmd;
  }

  lemma PromptV1(b: Bus, c: Card)
    requires b.slot == Some(c) && Cooperative(b.script) && c.busy <= 5000 && c.spi && c.idle
    requires c.kind in {V1, Mmc}
    ensures IdentifyV1(b).1 == if Remaining(c) <= Patience(c.kind) then CodeOf(c.kind) else 0
  {
    hide LeaveIdle, SendCmd, Cooperative, Remaining;
    PromptProbe(b, c);
    var (b1, r) := SendCmd(b, ACMD41, 0);
    var cmd := if r <= 1 then ACMD41 else CMD1;
    PromptLeaveIdle(b1, b1.slot.value, cmd, 0, 1000);
    var (b2, awake) := LeaveIdle(b1, cmd, 0, 1000);
    if awake {
      PromptBlockLength(b2, b2.slot.value);
    }
  }

  /** CMD0 puts any card into idle state, in SPI mode. */
  lemma PromptReset(b: Bus, c: Card)
    requires b.slot == Some(c) && Cooperative(b.script) && c.busy <= 5000
    ensures
      var (b', r) := SendCmd(b, CMD0, 0);
      && r == 1 && b'.slot.Some? && b'.script == b.script
      && var c' := b'.slot.value;
      && b'.tick == b.tick + 1
      && c'.spi && c'.idle && c'.polls == b.script(b.tick).polls && c'.kind == c.kind && c'.busy == 0
  {
    PromptCommand(b, c, CMD0, 0);
    PlainCommand(b, CMD0, 0);
    hide Command, SendCmd;
  }

  /** CMD8 is echoed by version 2 cards and refused by the others. */
  lemma PromptIfCond(b: Bus, c: Card)
    requires b.slot == Some(c) && Cooperative(b.script) && c.busy <= 5000 && c.spi && c.idle
    ensures
      var (b', r) := SendCmd(b, CMD8, 0x1AA);
      && b'.slot.Some? && b'.script == b.script && b'.selected
      && var c' := b'.slot.value;
      && c'.spi && c'.idle && c'.polls == c.polls && c'.kind == c.kind && c'.busy == 0
      && (r == 1 <==> c.kind in {V2Block, V2Byte})
      && (r == 1 ==> c'.out == [0, 0, b.script(b.tick).volts, b.script(b.tick).pattern])
  {
    PromptCommand(b, c, CMD8, 0x1AA);
    PlainCommand(b, CMD8, 0x1AA);
    hide Command, SendCmd;
  }

  lemma PromptIdentify(b: Bus, c: Card)
    requires b.slot == Some(c) && Cooperative(b.script) && c.busy <= 5000
    ensures Identify(b).1 ==
      if b.script(b.tick).polls <= Patience(c.kind) && Suits(c.kind, b.script(b.tick + 1)) then CodeOf(c.kind) else 0
  {
    hide SendCmd, IdentifyV1, IdentifyV2, Cooperative;
    PromptReset(b, c);
    var b1 := SendCmd(b, CMD0, 0).0;
    var c1 := b1.slot.value;
    PromptIfCond(b1, c1);
    var (b2, r8) := SendCmd(b1, CMD8, 0x1AA);
    if r8 == 1 {
      PromptV2(b2, b2.slot.value, b.script(b.tick + 1));
    } else {
      PromptV1(b2, b2.slot.value);
    }
  }

  lemma PowerUpType(s: State)
    ensures
      var ty := Identify(Recv(SetCs(s.bus, true), 10).0).1;
      && PowerUp(s).cardType == ty
      && (ty != 0 ==> PowerUp(s).stat == 0)
      && (ty == 0 ==> PowerUp(s).stat == StatusBits(STA_NOINIT, 0, PowerUp(s).bus.slot.Some?))
  {
    hide Identify, Recv, Deselect;
  }

  /**
   disk_initialize classifies every prompt card, whatever its kind, exactly when it leaves
   the idle state in time and, if it knows CMD8, echoes voltage and check pattern.
   */
  lemma InitializeClassifies(s: State, c: Card)
    requires Valid(s) && s.bus.slot == Some(c) && Cooperative(s.bus.script) && c.busy <= 5000
    requires StatusBits(s.stat, 0, true) != 0
    ensures
      var (s', r) := DiskInitialize(s, 0);
      var inTime := s.bus.script(s.bus.tick).polls <= Patience(c.kind);
      var taken := inTime && Suits(c.kind, s.bus.script(s.bus.tick + 1));
      && s'.cardType == (if taken then CodeOf(c.kind) else 0)
      && r == (if taken then 0 else STA_NOINIT) && s'.stat == r
  {
    hide Identify, Recv, Deselect, Cooperative, PowerUp;
    var s1 := DiskStatus(s, 0);
    StatusKeepsFit(s, 0);
    PowerUpEffect(s1);
    PowerUpType(s1);
    var b0 := SetCs(s1.bus, true);
    DummyClocks(b0);
    var b := Recv(b0, 10).0;
    PromptIdentify(b, b.slot.value);
  }

  lemma DummyClocks(b: Bus)
    requires !b.selected
    ensures Recv(b, 10).0 == b.(transfers := b.transfers + 1)
  {
    SilentClocks(b, 10);
  }
}
