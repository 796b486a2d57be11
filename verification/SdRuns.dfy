/** Whole runs of driver calls: reading back what was written, and every run with card changes. */
module SdRuns {
  import opened SdBus
  import opened Sdmm
  import opened SdExchange
  import opened SdSectors
  import opened SdProperties
  import opened SdInit
  import opened SdTrace
  import SdCapacity

  // ---------------------------------------------------------------------------
  // disk_ioctl
  // ---------------------------------------------------------------------------

  lemma CsdOutcome(c: Card, rep: Reply)
    requires c == Core(c)
    ensures
      var (c', r) := Outcome(c, CMD9, 0, rep);
      && Contents(c') == Contents(c)
      && (r == 0 ==> c' == Contents(c).(phase := Sending(Register)))
  {
  }

  lemma RegisterDelivered(c: Card, rep: Reply)
    requires c.out == [] && c.busy == 0 && c.phase == Sending(Register)
    ensures
      var (c', data) := Delivery(c, rep);
      Core(c') == Core(c) && (data.Some? ==> data.value == c.csd)
  {
    RefillShape(c, rep);
    var c' := Refill(c, rep);
    if Delivery(c, rep).1.Some? {
      assert c'.out[rep.wait + 1..|c'.out| - 2] == c.csd;
    }
  }

  lemma CsdRead(b: Bus, c: Card)
    requires b.slot == Some(c)
    ensures
      var (b', csd) := ReadCsd(b);
      && b'.slot.Some? && b'.script == b.script && Contents(b'.slot.value) == Contents(c)
      && (csd.Some? ==> csd.value == c.csd)
  {
    CommandOutcome(b, c, CMD9, 0);
    CsdOutcome(Core(c), b.script(b.tick));
    PlainCommand(b, CMD9, 0);
    hide Command, SendCmd, Outcome, Delivery, ReceiveBlock;
    var (b1, r) := SendCmd(b, CMD9, 0);
    if r == 0 {
      var c1 := b1.slot.value;
      BlockDelivered(b1, c1);
      RegisterDelivered(c1, b1.script(b1.tick));
    }
  }

  lemma ControlEffect(b: Bus, ctrl: Byte)
    requires !b.selected && (b.slot.Some? ==> b.slot.value.phase == Waiting && b.slot.value.out == [])
    ensures
      var (b', r, value) := Control(b, ctrl);
      && b'.script == b.script && (b.slot.None? <==> b'.slot.None?) && r != RES_NOTRDY
      && (b.slot.Some? ==> Contents(b'.slot.value) == Contents(b.slot.value))
      && (ctrl == GET_SECTOR_COUNT && r == RES_OK ==>
            b.slot.Some? && value == Some(SectorCount(b.slot.value.csd)))
      && (ctrl == CTRL_SYNC && b.slot.Some? ==>
            (r == RES_OK <==> b.slot.value.busy <= 5000) && (r == RES_OK ==> b'.slot.value.busy == 0))
  {
    SelectEffect(b);
    CsdEffect(b);
    hide Select, ReadCsd, SectorCount;
  }

  /**
   disk_ioctl leaves the card's contents alone; the sector count is the card's own; CTRL_SYNC succeeds
   exactly when the card's programming ends in time, and then it is over.
   */
  lemma IoctlEffect(s: State, drv: Byte, ctrl: Byte)
    requires Valid(s)
    ensures
      var (s', r, value) := DiskIoctl(s, drv, ctrl);
      && Valid(s') && s'.cardType == s.cardType && s'.bus.script == s.bus.script
      && s'.stat == StatusBits(s.stat, drv, s.bus.slot.Some?)
      && (r == RES_NOTRDY <==> !ReadyFor(s, drv))
      && (r == RES_NOTRDY ==> s'.bus == s.bus)
      && (s.bus.slot.None? <==> s'.bus.slot.None?)
      && (s.bus.slot.Some? ==> Contents(s'.bus.slot.value) == Contents(s.bus.slot.value))
      && (ctrl == GET_SECTOR_COUNT && r == RES_OK ==>
            s.bus.slot.Some? && value == Some(SectorCount(s.bus.slot.value.csd)))
      && (ctrl == CTRL_SYNC && s.bus.slot.Some? && ReadyFor(s, drv) ==>
            (r == RES_OK <==> s.bus.slot.value.busy <= 5000) && (r == RES_OK ==> s'.bus.slot.value.busy == 0))
  {
    StatusKeepsFit(s, drv);
    var s1 := DiskStatus(s, drv);
    ControlEffect(s.bus, ctrl);
    var b := Control(s.bus, ctrl).0;
    DeselectRests(b);
    if b.slot.Some? {
      ContentsFit(s1.stat, s1.cardType, s.bus.slot.value, b.slot.value);
    }
    hide Control, Deselect, StatusBits, Fits, SectorCount;
  }

  lemma ContentsFit(stat: bv8, cardType: bv8, c: Card, c': Card)
    requires Fits(stat, cardType, c) && Contents(c') == Contents(c)
    ensures Fits(stat, cardType, Rested(c', c'.busy))
  {
  }

  lemma CsdEffect(b: Bus)
    ensures
      var (b', csd) := ReadCsd(b);
      && b'.script == b.script && (b.slot.None? <==> b'.slot.None?)
      && (b.slot.Some? ==> Contents(b'.slot.value) == Contents(b.slot.value))
      && (csd.Some? ==> b.slot.Some? && csd.value == b.slot.value.csd)
  {
    if b.slot.None? {
      SendCmdUnheard(b, CMD9, 0);
      hide SendCmd;
    } else {
      CsdRead(b, b.slot.value);
    }
  }

  lemma SelectEffect(b: Bus)
    requires !b.selected && (b.slot.Some? ==> b.slot.value.phase == Waiting && b.slot.value.out == [])
    ensures
      var (b', ok) := Select(b);
      && b'.script == b.script && (b.slot.None? <==> b'.slot.None?)
      && (b.slot.None? ==> ok)
      && (b.slot.Some? ==>
            && Contents(b'.slot.value) == Contents(b.slot.value)
            && (ok <==> b.slot.value.busy <= 5000) && (ok ==> b'.slot.value.busy == 0))
  {
    if b.slot.Some? {
      hide Select;
      Selecting(b, b.slot.value);
    } else {
      var b0 := SetCs(b, false);
      SilentClocks(b0, 1);
      PollSilence(Recv(b0, 1).0, Ready, 5000);
    }
  }

  /** CMD9 is answered 0 in time, and a data token in time is followed by the register. */
  predicate RegisterArrives(c: Card, response: Reply, packet: Reply) {
    && c.busy <= 5000 && Working(c)
    && !response.silent && Fault(response.error) == 0 && response.fill < 10
    && !packet.silent && packet.token % 16 == 0 && packet.wait < 1000
  }

  lemma CsdAnswer(c: Card, rep: Reply)
    requires c == Core(c)
    ensures Outcome(c, CMD9, 0, rep).1 == 0 <==> Working(c) && !rep.silent && Fault(rep.error) == 0 && rep.fill < 10
    ensures Outcome(c, CMD9, 0, rep).1 == 0 ==>
      Outcome(c, CMD9, 0, rep).0 == Contents(c).(phase := Sending(Register))
  {
  }

  lemma RegisterPacket(c: Card, rep: Reply)
    requires c.out == [] && c.phase == Sending(Register)
    ensures Delivery(c, rep).1 ==
      if !rep.silent && rep.token % 16 == 0 && rep.wait < 1000 then Some(c.csd) else None
  {
    var c' := Refill(c, rep);
    RefillShape(c, rep);
    if !rep.silent && rep.token % 16 == 0 {
      assert c'.out[rep.wait + 1..|c'.out| - 2] == c.csd;
    } else if !rep.silent {
      assert c'.out[rep.wait] == rep.token % 16;
    }
  }

  /** On every card and script: the register is read if and only if it arrives. */
  lemma CsdExactly(b: Bus, c: Card)
    requires b.slot == Some(c)
    ensures ReadCsd(b).1 == if RegisterArrives(c, b.script(b.tick), b.script(b.tick + 1)) then Some(c.csd) else None
  {
    CommandOutcome(b, c, CMD9, 0);
    CsdAnswer(Core(c), b.script(b.tick));
    PlainCommand(b, CMD9, 0);
    hide Command, SendCmd, Outcome, Delivery, ReceiveBlock, Fault;
    var (b1, r) := SendCmd(b, CMD9, 0);
    if r == 0 {
      BlockDelivered(b1, b1.slot.value);
      RegisterPacket(b1.slot.value, b1.script(b1.tick));
    }
  }

  /** The answer of disk_ioctl to every control code, on every card, socket and script. */
  lemma IoctlAnswers(s: State, drv: Byte, ctrl: Byte)
    requires Valid(s)
    ensures
      var (s', r, value) := DiskIoctl(s, drv, ctrl);
      var slot := s.bus.slot;
      (r, value) ==
        if !ReadyFor(s, drv) then (RES_NOTRDY, None)
        else if ctrl == 0 then (if slot.None? || slot.value.busy <= 5000 then RES_OK else RES_ERROR, None)
        else if ctrl == 1 then
          if slot.Some? && RegisterArrives(slot.value, s.bus.script(s.bus.tick), s.bus.script(s.bus.tick + 1)) then
            (RES_OK, Some(SectorCount(slot.value.csd)))
          else (RES_ERROR, None)
        else if ctrl == 3 then (RES_OK, Some(128))
        else (RES_PARERR, None)
  {
    SelectEffect(s.bus);
    if s.bus.slot.Some? {
      CsdExactly(s.bus, s.bus.slot.value);
    } else {
      SendCmdUnheard(s.bus, CMD9, 0);
    }
    hide Select, SendCmd, ReceiveBlock, SectorCount, RegisterArrives, Deselect, Fits;
  }

  // ---------------------------------------------------------------------------
  // Reading back what was written
  // ---------------------------------------------------------------------------

  function Flat(pieces: seq<seq<Block>>): seq<Block> {
    if pieces == [] then [] else pieces[0] + Flat(pieces[1..])
  }

  function Sum(counts: seq<nat>): nat {
    if counts == [] then 0 else counts[0] + Sum(counts[1..])
  }

  predicate NoneEmpty(pieces: seq<seq<Block>>) {
    forall i :: 0 <= i < |pieces| ==> pieces[i] != []
  }

  predicate AllPositive(counts: seq<nat>) {
    forall i :: 0 <= i < |counts| ==> counts[i] > 0
  }

  /** Consecutive disk_write calls, one for each piece; true when all returned RES_OK. */
  function WritePieces(s: State, sector: nat, pieces: seq<seq<Block>>): (State, bool)
    requires sector + |Flat(pieces)| < 0x1_0000_0000 && NoneEmpty(pieces)
    decreases |pieces|
  {
    if pieces == [] then (s, true) else
    var (s1, r) := DiskWrite(s, 0, sector, pieces[0]);
    var (s2, ok) := WritePieces(s1, sector + |pieces[0]|, pieces[1..]);
    (s2, r == RES_OK && ok)
  }

  /** Consecutive disk_read calls, one for each count. */
  function ReadPieces(s: State, sector: nat, counts: seq<nat>): (State, bool, seq<Block>)
    requires sector + Sum(counts) < 0x1_0000_0000 && AllPositive(counts)
    decreases |counts|
  {
    if counts == [] then (s, true, []) else
    var (s1, r, got) := DiskRead(s, 0, sector, counts[0]);
    var (s2, ok, rest) := ReadPieces(s1, sector + counts[0], counts[1..]);
    (s2, r == RES_OK && ok, got + rest)
  }

  lemma OverlayAppend(flash: seq<Block>, s: nat, a: seq<Block>, b: seq<Block>)
    requires s + |a| <= |flash|
    ensures Overlay(Overlay(flash, s, a), s + |a|, b) == Overlay(flash, s, a + b)
  {
  }

  /** A sector range whose numbers a card of this kind can be addressed with. */
  predicate Addressable(c: Card, sector: nat, count: nat) {
    sector + count < 0x1_0000_0000 && (c.kind != V2Block ==> sector + count <= 0x80_0000)
  }

  lemma PieceWritten(s: State, c: Card, sector: nat, p: seq<Block>)
    requires Valid(s) && s.bus.slot == Some(c) && Addressable(c, sector, |p|) && p != []
    ensures
      var (s1, r) := DiskWrite(s, 0, sector, p);
      && Valid(s1) && s1.bus.slot.Some? && s1.bus.slot.value.kind == c.kind
      && (r == RES_OK ==>
            && sector + |p| <= |c.flash|
            && Contents(s1.bus.slot.value) == Contents(c).(flash := Overlay(c.flash, sector, p)))
  {
    hide DiskWrite, Valid, Cooperative, Overlay, Wrote, ReadyFor, Accepted, StatusBits;
    var n := WriteEffect(s, 0, sector, p);
    var (s1, r) := DiskWrite(s, 0, sector, p);
    WroteKeeps(s, c, sector, p, n, s1, r);
  }

  lemma {:induction false} PiecesWritten(s: State, c: Card, sector: nat, pieces: seq<seq<Block>>)
    requires Valid(s) && s.bus.slot == Some(c) && Addressable(c, sector, |Flat(pieces)|)
    requires NoneEmpty(pieces)
    ensures
      var (s', ok) := WritePieces(s, sector, pieces);
      && Valid(s') && s'.bus.slot.Some? && s'.bus.slot.value.kind == c.kind
      && (ok && pieces != [] ==>
            && sector + |Flat(pieces)| <= |c.flash|
            && Contents(s'.bus.slot.value) == Contents(c).(flash := Overlay(c.flash, sector, Flat(pieces))))
    decreases |pieces|
  {
    hide DiskWrite, Valid, Overlay;
    if pieces != [] {
      var p, rest := pieces[0], pieces[1..];
      PieceWritten(s, c, sector, p);
      var (s1, r) := DiskWrite(s, 0, sector, p);
      var c1 := s1.bus.slot.value;
      PiecesWritten(s1, c1, sector + |p|, rest);
      PiecesAppend(c, c1, WritePieces(s1, sector + |p|, rest).0.bus.slot.value, sector, p, rest);
    }
  }

  lemma PiecesAppend(c: Card, c1: Card, c2: Card, sector: nat, p: seq<Block>, rest: seq<seq<Block>>)
    requires rest == [] ==> c2 == c1
    ensures
      && sector + |p| <= |c.flash| && Contents(c1) == Contents(c).(flash := Overlay(c.flash, sector, p))
      && (rest != [] ==> Contents(c2) == Contents(c1).(flash := Overlay(c1.flash, sector + |p|, Flat(rest))))
      ==> Contents(c2) == Contents(c).(flash := Overlay(c.flash, sector, p + Flat(rest)))
  {
    hide Overlay;
    assert rest == [] ==> p + Flat(rest) == p;
    if sector + |p| <= |c.flash| {
      OverlayAppend(c.flash, sector, p, Flat(rest));
    }
  }

  lemma WroteKeeps(s: State, c: Card, sector: nat, p: seq<Block>, n: nat, s1: State, r: Result)
    requires s.bus.slot == Some(c) && n <= |p| && p != [] && Addressable(c, sector, |p|)
    requires r == RES_NOTRDY <==> !ReadyFor(s, 0)
    requires r == RES_NOTRDY ==> s1.bus == s.bus
    requires ReadyFor(s, 0) ==> s1.bus.slot.Some? && Wrote(s.bus.script, c, s1.bus.slot.value, sector, p, n, r == RES_OK, s1.bus.tick)
    ensures s1.bus.slot.Some? && s1.bus.slot.value.kind == c.kind
    ensures |s1.bus.slot.value.flash| == |c.flash|
    ensures r == RES_OK ==> sector + |p| <= |c.flash|
    ensures r == RES_OK ==> Contents(s1.bus.slot.value) == Contents(c).(flash := Overlay(c.flash, sector, p))
  {
    hide Cooperative, Overlay, ReadyFor;
    if r == RES_OK {
      assert p[..n] == p;
    }
  }

  lemma PieceRead(s: State, c: Card, sector: nat, n: nat)
    requires Valid(s) && s.bus.slot == Some(c) && Addressable(c, sector, n) && n > 0
    ensures
      var (s1, r, got) := DiskRead(s, 0, sector, n);
      && Valid(s1) && s1.bus.slot.Some?
      && var c1 := s1.bus.slot.value;
      && c1.kind == c.kind && c1.flash == c.flash
      && (r == RES_OK ==> sector + n <= |c.flash| && got == c.flash[sector..sector + n])
  {
    hide DiskRead, Valid, Cooperative, ReadyFor, StatusBits, ReadFrom;
    ReadEffect(s, 0, sector, n);
    var (s1, r, got) := DiskRead(s, 0, sector, n);
    if ReadyFor(s, 0) {
      ReadInRange(s.bus.script, c, s1.bus.slot.value, sector, n, got);
    }
  }

  lemma ReadInRange(script: nat -> Reply, c: Card, c1: Card, sector: nat, n: nat, got: seq<Block>)
    requires Addressable(c, sector, n) && n > 0 && ReadFrom(script, c, c1, sector, n, got)
    ensures c1.kind == c.kind && c1.flash == c.flash
    ensures |got| == n ==> sector + n <= |c.flash| && got == c.flash[sector..sector + n]
  {
    hide Cooperative;
    assert |got| == n ==> got != [];
  }

  lemma {:induction false} PiecesRead(s: State, c: Card, sector: nat, counts: seq<nat>)
    requires Valid(s) && s.bus.slot == Some(c) && Addressable(c, sector, Sum(counts))
    requires AllPositive(counts)
    ensures
      var (s', ok, got) := ReadPieces(s, sector, counts);
      && (ok && counts != [] ==> sector + Sum(counts) <= |c.flash|)
      && (ok && counts != [] ==> got == c.flash[sector..sector + Sum(counts)])
    decreases |counts|
  {
    hide DiskRead, Valid;
    if counts != [] {
      var n := counts[0];
      PieceRead(s, c, sector, n);
      var (s1, r, got) := DiskRead(s, 0, sector, n);
      PiecesRead(s1, s1.bus.slot.value, sector + n, counts[1..]);
      var (s2, ok, rest) := ReadPieces(s1, sector + n, counts[1..]);
      if r == RES_OK && ok {
        assert got + rest == c.flash[sector..sector + Sum(counts)];
      }
    }
  }

  /**
   What was written is what is read back, however the range is cut into calls for the
   writing and for the reading, on block- and byte-addressed cards, over any script.
   */
  lemma RoundTrip(s: State, c: Card, sector: nat, pieces: seq<seq<Block>>, counts: seq<nat>)
    requires Valid(s) && s.bus.slot == Some(c) && Addressable(c, sector, |Flat(pieces)|)
    requires NoneEmpty(pieces)
    requires AllPositive(counts)
    requires Sum(counts) == |Flat(pieces)|
    ensures
      var (s1, wrote) := WritePieces(s, sector, pieces);
      var (s2, read, got) := ReadPieces(s1, sector, counts);
      wrote && read ==> got == Flat(pieces)
  {
    hide Overlay, Valid, Flat;
    PiecesWritten(s, c, sector, pieces);
    var (s1, wrote) := WritePieces(s, sector, pieces);
    var c1 := s1.bus.slot.value;
    PiecesRead(s1, c1, sector, counts);
    var (s2, read, got) := ReadPieces(s1, sector, counts);
    if wrote && read {
      if pieces == [] {
        NothingToRead(pieces, counts);
      } else {
        SomethingToRead(pieces, counts);
        OverlaySlice(c.flash, sector, Flat(pieces));
      }
    }
  }

  lemma NothingToRead(pieces: seq<seq<Block>>, counts: seq<nat>)
    requires pieces == [] && Sum(counts) == |Flat(pieces)| && AllPositive(counts)
    ensures counts == [] && Flat(pieces) == []
  {
  }

  lemma SomethingToRead(pieces: seq<seq<Block>>, counts: seq<nat>)
    requires pieces != [] && Sum(counts) == |Flat(pieces)| && NoneEmpty(pieces)
    ensures counts != []
  {
    assert pieces[0] != [];
  }

  lemma OverlaySlice(flash: seq<Block>, s: nat, blocks: seq<Block>)
    requires s + |blocks| <= |flash|
    ensures Overlay(flash, s, blocks)[s..s + |blocks|] == blocks
  {
  }

  // ---------------------------------------------------------------------------
  // The driver refines an array of sectors
  // ---------------------------------------------------------------------------

  datatype Request = Get(sector: nat, count: nat) | Put(sector: nat, blocks: seq<Block>)

  predicate InRange(c: Card, q: Request) {
    match q
    case Get(sector, count) =>
      0 < count && sector + count <= |c.flash| && Addressable(c, sector, count)
    case Put(sector, blocks) =>
      0 < |blocks| && sector + |blocks| <= |c.flash| && Addressable(c, sector, |blocks|)
  }

  /** One request to the driver. */
  function Serve(s: State, q: Request): (State, Result, seq<Block>)
    requires q.sector < 0x1_0000_0000
    requires q.Get? ==> q.count > 0
    requires q.Put? ==> 0 < |q.blocks| < 0x1_0000_0000
  {
    match q
    case Get(sector, count) => DiskRead(s, 0, sector, count)
    case Put(sector, blocks) =>
      var (s', r) := DiskWrite(s, 0, sector, blocks);
      (s', r, [])
  }

  /** The same request to an array. */
  function ServeArray(flash: seq<Block>, q: Request): (seq<Block>, seq<Block>)
    requires q.Get? ==> q.sector + q.count <= |flash|
  {
    match q
    case Get(sector, count) => (flash, flash[sector..sector + count])
    case Put(sector, blocks) => (Overlay(flash, sector, blocks), [])
  }

  /** A card the driver has initialized and that answers in time. */
  ghost predicate InService(s: State, c: Card) {
    && Valid(s) && s.bus.slot == Some(c) && Cooperative(s.bus.script)
    && ReadyFor(s, 0) && Working(c) && c.busy <= 5000
  }

  /**
   GET_SECTOR_COUNT on a card in service answers with the card's capacity as its register states
   it, for every register of version 1 with a READ_BL_LEN the specification allows, and for one
   of version 2 if and only if C_SIZE is not all ones.
   */
  lemma CapacityReported(s: State, c: Card)
    requires InService(s, c)
    ensures
      var (s', r, value) := DiskIoctl(s, 0, 1);
      && r == RES_OK && value.Some?
      && (SdCapacity.CsdStructure(c.csd) == 1 ==>
            (value.value * 512 == SdCapacity.Capacity(c.csd) <==> SdCapacity.CSize2(c.csd) != 0x3F_FFFF))
      && (SdCapacity.CsdStructure(c.csd) != 1 && 9 <= SdCapacity.ReadBlLen(c.csd) <= 11 ==>
            value.value * 512 == SdCapacity.Capacity(c.csd))
  {
    IoctlAnswers(s, 0, 1);
    assert Prompt(s.bus.script(s.bus.tick)) && Prompt(s.bus.script(s.bus.tick + 1));
    if SdCapacity.CsdStructure(c.csd) == 1 {
      SdCapacity.SectorCount2(c.csd);
    } else if 9 <= SdCapacity.ReadBlLen(c.csd) <= 11 {
      SdCapacity.SectorCount1(c.csd);
    }
    hide DiskIoctl, SectorCount, SdCapacity.Capacity, SdCapacity.CsdStructure, SdCapacity.ReadBlLen, SdCapacity.CSize2;
    hide Valid, ReadyFor, Cooperative;
  }

  // ---------------------------------------------------------------------------
  // What goes out before a card is taken
  // ---------------------------------------------------------------------------

  /** The commands sent so far, and none was forgotten. */
  lemma CommandExtends(b: Bus, cmd: Byte, arg: Word)
    requires cmd % 128 < 64
    ensures
      var (b', r) := SendCmd(b, cmd, arg);
      && b.log <= b'.log
      && (cmd < 64 && r != 0xFF ==> b'.log == b.log + [Exchange(cmd, arg, r)])
  {
    hide Command;
    if cmd < 0x80 {
      CommandTraffic(b, cmd, arg);
    } else {
      CommandTraffic(b, CMD55, 0);
      CommandTraffic(Command(b, CMD55, 0).0, cmd - 0x80, arg);
    }
  }

  lemma {:induction false} LeaveIdleExtends(b: Bus, cmd: Byte, arg: Word, n: nat)
    requires cmd % 128 < 64
    ensures b.log <= LeaveIdle(b, cmd, arg, n).0.log
    decreases n
  {
    hide SendCmd;
    if n > 0 {
      CommandExtends(b, cmd, arg);
      LeaveIdleExtends(SendCmd(b, cmd, arg).0, cmd, arg, n - 1);
    }
  }

  predicate Ends(log: seq<Exchange>, log': seq<Exchange>, e: Exchange) {
    log <= log' && |log'| > |log| && log'[|log'| - 1] == e
  }

  /** First CMD0, answered 1; then CMD8, answered 1, and at last CMD58, or at last CMD16 with 512. */
  predicate TakesCard(log: seq<Exchange>, log': seq<Exchange>) {
    && log + [Exchange(0, 0, 1)] <= log'
    && (|| (log + [Exchange(0, 0, 1), Exchange(8, 0x1AA, 1)] <= log' && Ends(log, log', Exchange(58, 0, 0)))
        || Ends(log, log', Exchange(16, 512, 0)))
  }

  lemma V2Ends(b: Bus)
    ensures IdentifyV2(b).1 != 0 ==> Ends(b.log, IdentifyV2(b).0.log, Exchange(58, 0, 0))
    ensures b.log <= IdentifyV2(b).0.log
  {
    hide SendCmd, LeaveIdle, Recv;
    RecvTraffic(b, 4);
    var b1 := Recv(b, 4).0;
    LeaveIdleExtends(b1, ACMD41, 0x4000_0000, 1000);
    var b2 := LeaveIdle(b1, ACMD41, 0x4000_0000, 1000).0;
    CommandExtends(b2, CMD58, 0);
    RecvTraffic(SendCmd(b2, CMD58, 0).0, 4);
  }

  lemma V1Ends(b: Bus)
    ensures IdentifyV1(b).1 != 0 ==> Ends(b.log, IdentifyV1(b).0.log, Exchange(16, 512, 0))
    ensures b.log <= IdentifyV1(b).0.log
  {
    hide SendCmd, LeaveIdle;
    CommandExtends(b, ACMD41, 0);
    var (b1, r) := SendCmd(b, ACMD41, 0);
    var cmd := if r <= 1 then ACMD41 else CMD1;
    LeaveIdleExtends(b1, cmd, 0, 1000);
    CommandExtends(LeaveIdle(b1, cmd, 0, 1000).0, CMD16, 512);
  }

  lemma IdentifiedBy(b: Bus)
    ensures Identify(b).1 != 0 ==> TakesCard(b.log, Identify(b).0.log)
  {
    hide SendCmd, IdentifyV1, IdentifyV2;
    CommandExtends(b, CMD0, 0);
    var b1 := SendCmd(b, CMD0, 0).0;
    CommandExtends(b1, CMD8, 0x1AA);
    var (b2, r8) := SendCmd(b1, CMD8, 0x1AA);
    V1Ends(b2);
    V2Ends(b2);
    assert b.log + [Exchange(0, 0, 1)] + [Exchange(8, 0x1AA, r8)] == b.log + [Exchange(0, 0, 1), Exchange(8, 0x1AA, r8)];
  }

  lemma PowerUpTakes(s: State)
    ensures PowerUp(s).stat == 0 ==> TakesCard(s.bus.log, PowerUp(s).bus.log)
  {
    hide Identify, Recv, Deselect, TakesCard;
    PowerUpType(s);
    var b0 := SetCs(s.bus, true);
    RecvTraffic(b0, 10);
    var b := Recv(b0, 10).0;
    IdentifiedBy(b);
    DeselectTraffic(Identify(b).0);
    assert b.log == s.bus.log && Deselect(Identify(b).0).log == Identify(b).0.log;
    assert StatusBits(STA_NOINIT, 0, PowerUp(s).bus.slot.Some?) != 0;
  }

  /**
   Whatever the card and its answers, disk_initialize clears STA_NOINIT only if CMD0 was answered 1
   first, and then either CMD8 was answered 1 and the OCR was read last, or the block length was set
   to 512 last.
   */
  lemma InitializeCommands(s: State)
    requires s.stat & STA_NOINIT != 0 && DiskInitialize(s, 0).1 == 0
    ensures TakesCard(s.bus.log, DiskInitialize(s, 0).0.bus.log)
  {
    PowerUpTakes(DiskStatus(s, 0));
    hide PowerUp, TakesCard;
  }

  // ---------------------------------------------------------------------------
  // What goes out to a card in service
  // ---------------------------------------------------------------------------

  /** The argument of a transfer command: the sector, or the address of its first byte. */
  function Argument(c: Card, sector: nat): nat {
    if c.kind == V2Block then sector else sector * 512
  }

  lemma ServiceArgument(s: State, c: Card, sector: nat)
    requires InService(s, c) && sector < |c.flash| && sector < 0x1_0000_0000
    ensures WireAddress(s.cardType, sector) == Argument(c, sector) && Addressed(c, Argument(c, sector)) == Some(sector)
  {
    hide Cooperative;
    assert c.kind != V2Block ==> sector * 512 < 0x1_0000_0000 && sector * 512 % 512 == 0 && sector * 512 / 512 == sector;
  }

  lemma ReadLogged(b: Bus, c: Card, arg: Word, count: nat) returns (r: Byte)
    requires b.slot == Some(c) && Cooperative(b.script) && c.busy <= 5000 && Working(c)
    requires Addressed(c, arg).Some? && count > 0
    ensures
      ReadSectors(b, arg, count).0.log
        == b.log + (if count == 1 then [Exchange(17, arg, 0)] else [Exchange(18, arg, 0), Exchange(12, 0, r)])
  {
    var cmd := if count > 1 then CMD18 else CMD17;
    TransferOpened(b, c, cmd, arg);
    hide Cooperative, Addressed, SendCmd, Command, ReadBlocks;
    var b1 := SendCmd(b, cmd, arg).0;
    ReadBlocksTraffic(b1, count);
    var b2 := ReadBlocks(b1, count).0;
    CommandTraffic(b2, CMD12, 0);
    PlainCommand(b2, CMD12, 0);
    r := SendCmd(b2, CMD12, 0).1;
    assert b.log + [Exchange(18, arg, 0)] + [Exchange(12, 0, r)] == b.log + [Exchange(18, arg, 0), Exchange(12, 0, r)];
  }

  /** disk_read sends CMD17, or CMD18 and at its end CMD12, and nothing else. */
  lemma ReadCommands(s: State, c: Card, sector: nat, count: nat) returns (r: Byte)
    requires InService(s, c) && InRange(c, Get(sector, count))
    ensures
      DiskRead(s, 0, sector, count).0.bus.log == s.bus.log
        + (if count == 1 then [Exchange(17, Argument(c, sector), 0)]
           else [Exchange(18, Argument(c, sector), 0), Exchange(12, 0, r)])
  {
    ServiceArgument(s, c, sector);
    var arg: Word := Argument(c, sector);
    r := ReadLogged(s.bus, c, arg, count);
    DeselectTraffic(ReadSectors(s.bus, arg, count).0);
    hide ReadSectors, Deselect, WireAddress, Argument, Addressed, Cooperative;
  }

  /** ACMD23 announces the number of blocks to an SD card; an MMC refuses CMD55, and it is left at that. */
  function Announcement(cardType: bv8, c: Card, n: nat): seq<Exchange>
    requires n < 0x1_0000_0000
  {
    if cardType & CT_SDC == 0 then []
    else if c.kind == Mmc then [Exchange(55, 0, 4)]
    else [Exchange(55, 0, 0), Exchange(23, n, 0)]
  }

  lemma HintLogged(b: Bus, c: Card, n: Word)
    requires b.slot == Some(c) && Cooperative(b.script) && c.busy <= 5000 && Working(c)
    ensures
      var b' := SendCmd(b, ACMD23, n).0;
      b'.log == b.log + (if c.kind == Mmc then [Exchange(55, 0, 4)] else [Exchange(55, 0, 0), Exchange(23, n, 0)])
  {
    hide Command;
    PromptCommand(b, c, CMD55, 0);
    CommandOutcome(b, c, CMD55, 0);
    var (b1, r) := Command(b, CMD55, 0);
    if c.kind != Mmc {
      var c1 := b1.slot.value;
      PromptCommand(b1, c1, 23, n);
      CommandOutcome(b1, c1, 23, n);
      assert b.log + [Exchange(55, 0, 0)] + [Exchange(23, n, 0)] == b.log + [Exchange(55, 0, 0), Exchange(23, n, 0)];
    }
  }

  lemma MultipleLogged(b: Bus, c: Card, cardType: bv8, arg: Word, blocks: seq<Block>)
    requires b.slot == Some(c) && Cooperative(b.script) && c.busy <= 5000 && Working(c)
    requires Addressed(c, arg).Some? && |blocks| < 0x1_0000_0000
    ensures
      WriteMultiple(b, cardType, arg, blocks).0.log
        == b.log + (Announcement(cardType, c, |blocks|) + [Exchange(25, arg, 0)])
  {
    hide SendCmd, WriteBlocks, TransmitBlock, Addressed, Cooperative;
    HintLogged(b, c, |blocks|);
    HintSent(b, c, |blocks|);
    var b0 := if cardType & CT_SDC != 0 then SendCmd(b, ACMD23, |blocks|).0 else b;
    SameAddress(c, b0.slot.value, arg);
    TransferOpened(b0, b0.slot.value, CMD25, arg);
    var b1 := SendCmd(b0, CMD25, arg).0;
    WriteBlocksTraffic(b1, blocks, 0xFC);
    TransmitBlockTraffic(WriteBlocks(b1, blocks, 0xFC).0, [], STOP);
  }

  /** disk_write sends CMD24 for one block, and otherwise CMD25, to SD cards behind the number of blocks. */
  lemma WriteCommands(s: State, c: Card, sector: nat, blocks: seq<Block>)
    requires InService(s, c) && InRange(c, Put(sector, blocks))
    ensures
      var sent := DiskWrite(s, 0, sector, blocks).0.bus.log;
      var arg := Argument(c, sector);
      sent == s.bus.log
        + (if |blocks| == 1 then [Exchange(24, arg, 0)] else Announcement(s.cardType, c, |blocks|) + [Exchange(25, arg, 0)])
  {
    ServiceArgument(s, c, sector);
    var arg: Word := Argument(c, sector);
    var b := s.bus;
    DeselectTraffic(WriteSectors(b, s.cardType, arg, blocks).0);
    assert DiskStatus(s, 0).bus == b && DiskStatus(s, 0).cardType == s.cardType;
    assert ReadyFor(s, 0);
    hide InService, SendCmd, WriteBlocks, TransmitBlock, Deselect, WireAddress, Argument, Addressed, StatusBits;
    if |blocks| == 1 {
      TransferOpened(b, c, CMD24, arg);
      TransmitBlockTraffic(SendCmd(b, CMD24, arg).0, blocks[0], 0xFE);
    } else {
      MultipleLogged(b, c, s.cardType, arg, blocks);
    }
  }

  /** The outcome of a request: RES_OK, what the array returns, and the array's new contents. */
  ghost predicate ServedAs(c: Card, s': State, r: Result, got: seq<Block>, flash': seq<Block>, got': seq<Block>) {
    && r == RES_OK && got == got'
    && s'.bus.slot.Some? && InService(s', s'.bus.slot.value)
    && Contents(s'.bus.slot.value) == Contents(c).(flash := flash')
  }

  lemma StaysInService(s: State, c: Card, s': State, c': Card)
    requires InService(s, c) && Valid(s') && s'.bus.slot == Some(c') && s'.bus.script == s.bus.script
    requires s'.stat == StatusBits(s.stat, 0, true)
    requires Working(c') && c'.busy <= 5000
    ensures InService(s', c')
  {
    hide Cooperative, Valid;
  }

  lemma GetServed(s: State, c: Card, sector: nat, count: nat)
    requires InService(s, c) && InRange(c, Get(sector, count))
    ensures
      var (s', r, got) := DiskRead(s, 0, sector, count);
      ServedAs(c, s', r, got, c.flash, c.flash[sector..sector + count])
  {
    hide DiskRead, Cooperative, Valid, StatusBits, ReadyFor;
    ReadEffect(s, 0, sector, count);
    var (s', r, got) := DiskRead(s, 0, sector, count);
    StaysInService(s, c, s', s'.bus.slot.value);
    hide InService;
  }

  lemma WroteAll(s: State, c: Card, c': Card, sector: nat, blocks: seq<Block>, n: nat, ok: bool, tick: nat)
    requires InService(s, c) && InRange(c, Put(sector, blocks)) && n <= |blocks|
    requires Wrote(s.bus.script, c, c', sector, blocks, n, ok, tick)
    ensures ok && Working(c') && c'.busy <= 5000
    ensures Contents(c') == Contents(c).(flash := Overlay(c.flash, sector, blocks))
  {
    hide Cooperative, Valid, Overlay, StopReached, ReadyFor;
    assert blocks[..|blocks|] == blocks;
  }

  lemma PutServed(s: State, c: Card, sector: nat, blocks: seq<Block>)
    requires InService(s, c) && InRange(c, Put(sector, blocks))
    ensures
      var (s', r) := DiskWrite(s, 0, sector, blocks);
      ServedAs(c, s', r, [], Overlay(c.flash, sector, blocks), [])
  {
    hide DiskWrite, Cooperative, Valid, StatusBits, ReadyFor, Overlay, Wrote, Accepted, Working, Contents;
    var n := WriteEffect(s, 0, sector, blocks);
    var (s', r) := DiskWrite(s, 0, sector, blocks);
    WroteAll(s, c, s'.bus.slot.value, sector, blocks, n, r == RES_OK, s'.bus.tick);
    StaysInService(s, c, s', s'.bus.slot.value);
    hide InService;
  }

  lemma ServedLikeArray(s: State, c: Card, q: Request)
    requires InService(s, c) && InRange(c, q)
    ensures
      var (s', r, got) := Serve(s, q);
      var (flash', got') := ServeArray(c.flash, q);
      ServedAs(c, s', r, got, flash', got')
  {
    hide DiskRead, DiskWrite, InService, ServedAs, Overlay;
    match q {
      case Get(sector, count) => GetServed(s, c, sector, count);
      case Put(sector, blocks) => PutServed(s, c, sector, blocks);
    }
  }

  /** Every request of a run of in-range requests is served, as by an array of sectors. */
  lemma {:induction false} DriverIsArray(s: State, c: Card, qs: seq<Request>)
    requires InService(s, c) && forall i :: 0 <= i < |qs| ==> InRange(c, qs[i])
    ensures ServesLikeArray(s, c.flash, qs)
    decreases |qs|
  {
    hide InService, Serve, ServeArray;
    if qs != [] {
      ServedLikeArray(s, c, qs[0]);
      var s1 := Serve(s, qs[0]).0;
      var c1 := s1.bus.slot.value;
      assert c1.kind == c.kind && |c1.flash| == |c.flash| by { ServeArraySize(c.flash, qs[0]); }
      forall i | 0 <= i < |qs[1..]| ensures InRange(c1, qs[1..][i]) {
        assert InRange(c, qs[i + 1]);
      }
      DriverIsArray(s1, c1, qs[1..]);
    }
  }

  lemma ServeArraySize(flash: seq<Block>, q: Request)
    requires q.Get? ==> q.sector + q.count <= |flash|
    ensures |ServeArray(flash, q).0| == |flash|
  {
  }

  /** Request by request, the driver returns RES_OK and what the array returns. */
  ghost predicate ServesLikeArray(s: State, flash: seq<Block>, qs: seq<Request>)
    decreases |qs|
  {
    qs == [] ||
    (&& qs[0].sector < 0x1_0000_0000
     && (qs[0].Get? ==> 0 < qs[0].count && qs[0].sector + qs[0].count <= |flash|)
     && (qs[0].Put? ==> 0 < |qs[0].blocks| < 0x1_0000_0000)
     && var (s', r, got) := Serve(s, qs[0]);
     && var (flash', got') := ServeArray(flash, qs[0]);
     && r == RES_OK && got == got'
     && s'.bus.slot.Some? && s'.bus.slot.value.flash == flash'
     && ServesLikeArray(s', flash', qs[1..]))
  }

  // ---------------------------------------------------------------------------
  // Every run, card changes included
  // ---------------------------------------------------------------------------

  datatype Call =
    | Initialize(drv: Byte)
    | Status(drv: Byte)
    | Read(drv: Byte, sector: Word, count: nat)
    | Write(drv: Byte, sector: Word, blocks: seq<Block>)
    | Ioctl(drv: Byte, ctrl: Byte)
    | Insert(card: Card)
    | Remove

  predicate Legal(call: Call) {
    match call
    case Read(_, _, count) => count > 0
    case Write(_, _, blocks) => 0 < |blocks| < 0x1_0000_0000
    case Insert(card) => Fresh(card)
    case _ => true
  }

  function Step(s: State, call: Call): State
    requires Legal(call)
  {
    match call
    case Initialize(drv) => DiskInitialize(s, drv).0
    case Status(drv) => DiskStatus(s, drv)
    case Read(drv, sector, count) => DiskRead(s, drv, sector, count).0
    case Write(drv, sector, blocks) => DiskWrite(s, drv, sector, blocks).0
    case Ioctl(drv, ctrl) => DiskIoctl(s, drv, ctrl).0
    case Insert(card) => s.(bus := s.bus.(slot := Some(card)))
    case Remove => s.(bus := s.bus.(slot := None))
  }

  predicate AllLegal(calls: seq<Call>) {
    forall i :: 0 <= i < |calls| ==> Legal(calls[i])
  }

  function Run(s: State, calls: seq<Call>): State
    requires AllLegal(calls)
    decreases |calls|
  {
    if calls == [] then s
    else Step(Run(s, calls[..|calls| - 1]), calls[|calls| - 1])
  }

  /** A bound on the transfers of one call, linear in the number of sectors. */
  function Cost(call: Call): nat {
    match call
    case Initialize(_) => 10_070_124
    case Read(_, _, count) => 1002 * count + 10031
    case Write(_, _, blocks) => 5004 * |blocks| + 25065
    case Ioctl(_, _) => 11034
    case _ => 0
  }

  /** Did the call go through the power-up sequence of disk_initialize? */
  predicate PowersUp(s: State, call: Call) {
    call == Initialize(0) && StatusBits(s.stat, 0, s.bus.slot.Some?) != 0
  }

  /** What a call keeps, whatever it is. */
  ghost predicate Keeps(s: State, call: Call, s': State) {
    && Valid(s') && Bounded(s, s', Cost(call))
    && (!PowersUp(s, call) ==> s'.cardType == s.cardType)
    && (!PowersUp(s, call) && s'.stat & STA_NOINIT == 0 ==> s.stat & STA_NOINIT == 0)
    && (call.Read? || call.Write? || call.Ioctl? ==> s.stat & STA_NOINIT != 0 ==> s'.bus == s.bus)
  }

  lemma InitializeKeeps(s: State, drv: Byte)
    requires Valid(s) && Tidy(s.bus.log)
    ensures Keeps(s, Initialize(drv), DiskInitialize(s, drv).0)
  {
    hide DiskInitialize, Tidy, Valid;
    ValidDeselected(s);
    InitializeEffect(s, drv);
    InitializeTraffic(s, drv);
    if !PowersUp(s, Initialize(drv)) { InitializeEarly(s, drv); }
  }

  lemma ReadKeeps(s: State, drv: Byte, sector: Word, count: nat)
    requires Valid(s) && Tidy(s.bus.log) && count > 0
    ensures Keeps(s, Read(drv, sector, count), DiskRead(s, drv, sector, count).0)
  {
    hide DiskRead, Tidy, Valid, ReadFrom, StatusBits, ReadyFor;
    ValidDeselected(s);
    StatBits(s);
    ReadyStat(s, drv);
    ReadEffect(s, drv, sector, count);
    ReadTraffic(s, drv, sector, count);
  }

  lemma WriteKeeps(s: State, drv: Byte, sector: Word, blocks: seq<Block>)
    requires Valid(s) && Tidy(s.bus.log) && 0 < |blocks| < 0x1_0000_0000
    ensures Keeps(s, Write(drv, sector, blocks), DiskWrite(s, drv, sector, blocks).0)
  {
    hide DiskWrite, Tidy, Valid, Wrote, StatusBits, ReadyFor;
    ValidDeselected(s);
    StatBits(s);
    ReadyStat(s, drv);
    var n := WriteEffect(s, drv, sector, blocks);
    WriteTraffic(s, drv, sector, blocks);
  }

  lemma IoctlKeeps(s: State, drv: Byte, ctrl: Byte)
    requires Valid(s) && Tidy(s.bus.log)
    ensures Keeps(s, Ioctl(drv, ctrl), DiskIoctl(s, drv, ctrl).0)
  {
    hide DiskIoctl, Tidy, Valid, StatusBits, ReadyFor;
    ValidDeselected(s);
    StatBits(s);
    ReadyStat(s, drv);
    IoctlEffect(s, drv, ctrl);
    IoctlTraffic(s, drv, ctrl);
  }

  lemma SocketKeeps(s: State, call: Call)
    requires Valid(s) && Tidy(s.bus.log) && Legal(call) && (call.Status? || call.Insert? || call.Remove?)
    ensures Keeps(s, call, Step(s, call))
  {
    hide Tidy;
    StatBits(s);
    if call.Status? { StatusKeepsFit(s, call.drv); }
  }

  lemma StepKeeps(s: State, call: Call)
    requires Valid(s) && Tidy(s.bus.log) && Legal(call)
    ensures Keeps(s, call, Step(s, call))
  {
    hide Keeps, Valid, Tidy, DiskInitialize, DiskRead, DiskWrite, DiskIoctl;
    match call {
      case Initialize(drv) => InitializeKeeps(s, drv);
      case Read(drv, sector, count) => ReadKeeps(s, drv, sector, count);
      case Write(drv, sector, blocks) => WriteKeeps(s, drv, sector, blocks);
      case Ioctl(drv, ctrl) => IoctlKeeps(s, drv, ctrl);
      case _ => SocketKeeps(s, call);
    }
  }

  lemma StatBits(s: State)
    ensures forall drv: Byte, inserted: bool :: StatusBits(s.stat, drv, inserted) & STA_NOINIT == 0 ==>
      drv == 0 && s.stat & STA_NOINIT == 0
  {
  }

  lemma InitializeEarly(s: State, drv: Byte)
    requires !PowersUp(s, Initialize(drv))
    ensures DiskInitialize(s, drv).0.cardType == s.cardType
    ensures DiskInitialize(s, drv).0.stat in {s.stat, 0} && (DiskInitialize(s, drv).0.stat & STA_NOINIT == s.stat & STA_NOINIT)
  {
    hide PowerUp;
  }

  function TotalCost(calls: seq<Call>): nat
    decreases |calls|
  {
    if calls == [] then 0 else TotalCost(calls[..|calls| - 1]) + Cost(calls[|calls| - 1])
  }

  /** Every run keeps the invariant, a tidy command log, and a linear bound on the traffic. */
  lemma {:induction false} RunKeeps(s: State, calls: seq<Call>)
    requires Valid(s) && Tidy(s.bus.log) && AllLegal(calls)
    ensures Valid(Run(s, calls)) && Bounded(s, Run(s, calls), TotalCost(calls))
    decreases |calls|
  {
    hide Valid, Tidy, Step, Cost;
    if calls == [] {
      ValidDeselected(s);
    } else {
      RunKeeps(s, calls[..|calls| - 1]);
      StepKeeps(Run(s, calls[..|calls| - 1]), calls[|calls| - 1]);
    }
  }

  lemma ValidDeselected(s: State)
    requires Valid(s)
    ensures !s.bus.selected
  {
  }

  /** The state right behind the last power-up of a run. */
  function AfterLastPowerUp(s: State, calls: seq<Call>): Option<State>
    requires AllLegal(calls)
    decreases |calls|
  {
    if calls == [] then None else
    var before, last := Run(s, calls[..|calls| - 1]), calls[|calls| - 1];
    if PowersUp(before, last) then Some(Step(before, last))
    else AfterLastPowerUp(s, calls[..|calls| - 1])
  }

  /**
   If STA_NOINIT is clear after a run that began with it set, then the last power-up of
   the run succeeded and CardType is still the code it found.
   */
  lemma {:induction false} TypeIsFromLastPowerUp(s: State, calls: seq<Call>)
    requires Valid(s) && Tidy(s.bus.log) && AllLegal(calls)
    requires s.stat & STA_NOINIT != 0 && Run(s, calls).stat & STA_NOINIT == 0
    ensures
      var found := AfterLastPowerUp(s, calls);
      && found.Some? && found.value.stat & STA_NOINIT == 0
      && found.value.cardType == Run(s, calls).cardType
      && found.value.cardType in {CT_SDC2 | CT_BLOCK, CT_SDC2, CT_MMC3}
    decreases |calls|
  {
    hide Step, PowersUp, Tidy;
    var k := |calls| - 1;
    RunKeeps(s, calls[..k]);
    StepKeeps(Run(s, calls[..k]), calls[k]);
    if !PowersUp(Run(s, calls[..k]), calls[k]) {
      TypeIsFromLastPowerUp(s, calls[..k]);
    }
  }

  /**
   After any run from power-on, with cards coming and going, a write that returns RES_OK
   has put its blocks on the card that is in the socket, and changed nothing else on it.
   */
  lemma AcceptedWriteIsReal(bus: Bus, calls: seq<Call>, sector: Word, blocks: seq<Block>)
    requires !bus.selected && bus.slot.None? && bus.log == [] && AllLegal(calls)
    requires 0 < |blocks| < 0x1_0000_0000
    ensures
      var s := Run(State(STA_NOINIT, 0, bus), calls);
      var (s', r) := DiskWrite(s, 0, sector, blocks);
      r == RES_OK ==>
        && s.bus.slot.Some? && s'.bus.slot.Some?
        && var c, c' := s.bus.slot.value, s'.bus.slot.value;
        && Working(c) && Reached(c, sector) + |blocks| <= |c.flash|
        && Contents(c') == Contents(c).(flash := Overlay(c.flash, Reached(c, sector), blocks))
  {
    var s0 := State(STA_NOINIT, 0, bus);
    RunKeeps(s0, calls);
    var s := Run(s0, calls);
    var n := WriteEffect(s, 0, sector, blocks);
    hide Run, DiskWrite, Valid, Overlay, Cooperative, ReadyFor, StatusBits;
    if DiskWrite(s, 0, sector, blocks).1 == RES_OK {
      assert blocks[..|blocks|] == blocks;
    }
  }

  /**
   disk_initialize answers 0 for a card that was just put in, and yet leaves it uninitialized,
   exactly when nothing but STA_NODISK was set before the call.
   */
  lemma UninitializedExactly(s: State, card: Card)
    requires Valid(s) && s.bus.slot == Some(card) && Fresh(card)
    ensures
      var (s', r) := DiskInitialize(s, 0);
      && s'.bus.slot.Some?
      && (r == 0 && !Working(s'.bus.slot.value) <==> s.stat & !STA_NODISK == 0)
  {
    assert StatusBits(s.stat, 0, true) == s.stat & !STA_NODISK;
    hide DiskInitialize, Valid, StatusBits;
    InitializeEffect(s, 0);
  }

  /**
   So a swapped card is not noticed: with STA_NOINIT clear, taking the card out and putting
   another one in makes disk_initialize return 0 without touching the bus, even when the
   empty socket was seen in between.
   */
  lemma SwapGoesUnnoticed(s: State, card: Card)
    requires Valid(s) && s.stat == 0 && Fresh(card)
    ensures
      var s1 := Step(Step(Step(s, Remove), Status(0)), Insert(card));
      && s1.stat == STA_NODISK
      && DiskInitialize(s1, 0) == (s1.(stat := 0), 0)
      && s1.bus.slot == Some(card) && !Working(card)
  {
    hide PowerUp;
  }
}
