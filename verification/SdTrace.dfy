/** The shape of the bus traffic: how much of it there is, and which commands follow which. */
module SdTrace {
  import opened SdBus
  import opened Sdmm

  /** From `b` to `b'` at most `n` transfers happened and the commands `added` went out. */
  predicate Traffic(b: Bus, b': Bus, n: nat, added: seq<Exchange>) {
    b.transfers <= b'.transfers <= b.transfers + n && b'.log == b.log + added
  }

  lemma TrafficThen(b: Bus, b1: Bus, b2: Bus, n1: nat, n2: nat, a1: seq<Exchange>, a2: seq<Exchange>)
    requires Traffic(b, b1, n1, a1) && Traffic(b1, b2, n2, a2)
    ensures Traffic(b, b2, n1 + n2, a1 + a2)
  {
  }

  lemma {:induction false} ClocksQuiet(b: Bus, n: nat)
    ensures Clocks(b, n).0.transfers == b.transfers && Clocks(b, n).0.log == b.log
    decreases n
  {
    if n > 0 {
      ClocksQuiet(Clock(b).0, n - 1);
    }
  }

  lemma RecvTraffic(b: Bus, n: nat)
    ensures Traffic(b, Recv(b, n).0, 1, [])
  {
    ClocksQuiet(b, n);
  }

  lemma {:induction false} PollTraffic(b: Bus, u: Until, n: nat)
    requires n > 0
    ensures Traffic(b, Poll(b, u, n).bus, n, [])
    decreases n
  {
    hide Recv;
    RecvTraffic(b, 1);
    if n > 1 && !Stops(u, Recv(b, 1).1[0]) {
      PollTraffic(Recv(b, 1).0, u, n - 1);
    }
  }

  lemma DeselectTraffic(b: Bus)
    ensures Traffic(b, Deselect(b), 1, []) && !Deselect(b).selected
  {
    RecvTraffic(SetCs(b, true), 1);
    DeselectedClocks(SetCs(b, true), 1);
  }

  lemma {:induction false} DeselectedClocks(b: Bus, n: nat)
    requires !b.selected
    ensures Clocks(b, n).0 == b
    decreases n
  {
    if n > 0 {
      DeselectedClocks(b, n - 1);
    }
  }

  lemma SelectTraffic(b: Bus)
    ensures Traffic(b, Select(b).0, 5002, [])
  {
    hide Recv, Deselect, Poll;
    var b0 := SetCs(b, false);
    RecvTraffic(b0, 1);
    PollTraffic(Recv(b0, 1).0, Ready, 5000);
    DeselectTraffic(Poll(Recv(b0, 1).0, Ready, 5000).bus);
  }

  lemma IssueTraffic(b: Bus, index: Byte, arg: Word)
    requires index < 64
    ensures
      var (b', r) := Issue(b, index, arg);
      Traffic(b, b', 12, [Exchange(index, arg, r)])
  {
    hide Recv, Poll, Frame;
    var sent := Send(b, Frame(index, arg));
    RecvTraffic(sent, 1);
    var b1 := if index == CMD12 then Recv(sent, 1).0 else sent;
    PollTraffic(b1, Response, 10);
  }

  /** A command costs a bounded number of transfers; it is logged unless the card stayed busy. */
  lemma CommandTraffic(b: Bus, index: Byte, arg: Word)
    requires index < 64
    ensures
      var (b', r) := Command(b, index, arg);
      || Traffic(b, b', 5015, [Exchange(index, arg, r)])
      || (Traffic(b, b', 5015, []) && r == 0xFF && index != CMD12)
  {
    hide Issue, Select, Deselect;
    if index == CMD12 {
      IssueTraffic(b, index, arg);
    } else {
      DeselectTraffic(b);
      SelectTraffic(Deselect(b));
      var (ready, ok) := Select(Deselect(b));
      TrafficThen(b, Deselect(b), ready, 1, 5002, [], []);
      if ok {
        IssueTraffic(ready, index, arg);
        TrafficThen(b, ready, Issue(ready, index, arg).0, 5003, 12, [], [Exchange(index, arg, Issue(ready, index, arg).1)]);
        assert [] + [Exchange(index, arg, Issue(ready, index, arg).1)] == [Exchange(index, arg, Issue(ready, index, arg).1)];
      }
    }
  }

  // ---------------------------------------------------------------------------
  // Which commands follow which
  // ---------------------------------------------------------------------------

  /** The commands that are only meant as application commands. */
  const APPLICATION: set<Byte> := {41, 23}

  /** Every application command went out right behind a CMD55 that was answered with 0 or 1. */
  predicate Announced(log: seq<Exchange>) {
    forall i :: 0 <= i < |log| && log[i].index in APPLICATION ==>
      i > 0 && log[i - 1].index == CMD55 && log[i - 1].r1 <= 1
  }

  /** Every multiple block read that was accepted was stopped. */
  predicate Stopped(log: seq<Exchange>) {
    forall i :: 0 <= i < |log| && log[i].index == CMD18 && log[i].r1 == 0 ==>
      i + 1 < |log| && log[i + 1].index == CMD12
  }

  predicate Tidy(log: seq<Exchange>) {
    Announced(log) && Stopped(log)
  }

  /** A command that is neither an application command nor an accepted CMD18 keeps a log tidy. */
  lemma TidyAdd(log: seq<Exchange>, e: Exchange)
    requires Tidy(log) && !(e.index == CMD18 && e.r1 == 0)
    requires e.index in APPLICATION ==> log != [] && log[|log| - 1].index == CMD55 && log[|log| - 1].r1 <= 1
    ensures Tidy(log + [e])
  {
  }

  lemma SendCmdTraffic(b: Bus, cmd: Byte, arg: Word)
    requires cmd % 128 < 64 && cmd !in APPLICATION && cmd % 128 != CMD18
    requires Tidy(b.log)
    ensures
      var b' := SendCmd(b, cmd, arg).0;
      Tidy(b'.log) && b.transfers <= b'.transfers <= b.transfers + 10030
  {
    hide Command, Tidy;
    if cmd < 0x80 {
      CommandTraffic(b, cmd, arg);
      var r := Command(b, cmd, arg).1;
      if Command(b, cmd, arg).0.log != b.log { TidyAdd(b.log, Exchange(cmd, arg, r)); }
      assert b.log + [] == b.log;
    } else {
      CommandTraffic(b, CMD55, 0);
      var (b1, n) := Command(b, CMD55, 0);
      if b1.log != b.log { TidyAdd(b.log, Exchange(CMD55, 0, n)); }
      assert b.log + [] == b.log && b1.log + [] == b1.log;
      if n <= 1 {
        CommandTraffic(b1, cmd - 0x80, arg);
        var (b2, r) := Command(b1, cmd - 0x80, arg);
        if b2.log != b1.log { TidyAdd(b1.log, Exchange(cmd - 0x80, arg, r)); }
      }
    }
  }

  // ---------------------------------------------------------------------------
  // Data blocks
  // ---------------------------------------------------------------------------

  lemma ReceiveBlockTraffic(b: Bus, n: nat)
    ensures Traffic(b, ReceiveBlock(b, n).0, 1002, [])
  {
    hide Poll, Recv;
    PollTraffic(b, Token, 1000);
    var b1 := Poll(b, Token, 1000).bus;
    RecvTraffic(b1, n);
    RecvTraffic(Recv(b1, n).0, 2);
  }

  lemma TransmitBlockTraffic(b: Bus, data: seq<Byte>, token: Byte)
    ensures Traffic(b, TransmitBlock(b, data, token).0, 5004, [])
  {
    hide Poll, Recv;
    PollTraffic(b, Ready, 5000);
    var b1 := Send(Send(Poll(b, Ready, 5000).bus, [token]), data);
    RecvTraffic(b1, 2);
    RecvTraffic(Recv(b1, 2).0, 1);
  }

  lemma {:induction false} ReadBlocksTraffic(b: Bus, count: nat)
    ensures Traffic(b, ReadBlocks(b, count).0, 1002 * count, [])
    decreases count
  {
    hide ReceiveBlock;
    if count > 0 {
      ReceiveBlockTraffic(b, 512);
      ReadBlocksTraffic(ReceiveBlock(b, 512).0, count - 1);
    }
  }

  lemma {:induction false} WriteBlocksTraffic(b: Bus, blocks: seq<Block>, token: Byte)
    ensures Traffic(b, WriteBlocks(b, blocks, token).0, 5004 * |blocks|, [])
    decreases |blocks|
  {
    hide TransmitBlock;
    if blocks != [] {
      TransmitBlockTraffic(b, blocks[0], token);
      WriteBlocksTraffic(TransmitBlock(b, blocks[0], token).0, blocks[1..], token);
    }
  }

  // ---------------------------------------------------------------------------
  // Calls
  // ---------------------------------------------------------------------------

  /** From `s` to `s'` the bus saw at most `n` transfers, a tidy log stayed tidy, chip-select is high. */
  predicate Bounded(s: State, s': State, n: nat) {
    && s.bus.transfers <= s'.bus.transfers <= s.bus.transfers + n
    && Tidy(s'.bus.log)
    && !s'.bus.selected
  }

  /** disk_read: an accepted CMD18 is followed by CMD12 at once, whatever the blocks did. */
  lemma ReadTraffic(s: State, drv: Byte, sector: Word, count: nat)
    requires count > 0 && Tidy(s.bus.log) && !s.bus.selected
    ensures Bounded(s, DiskRead(s, drv, sector, count).0, 1002 * count + 10031)
  {
    hide Tidy, Command, ReadBlocks, Deselect, StatusBits, WireAddress;
    var arg := WireAddress(s.cardType, sector);
    var cmd := if count > 1 then CMD18 else CMD17;
    var b := s.bus;
    CommandTraffic(b, cmd, arg);
    var (b1, r) := Command(b, cmd, arg);
    ReadBlocksTraffic(b1, count);
    var b2 := ReadBlocks(b1, count).0;
    CommandTraffic(b2, CMD12, 0);
    DeselectTraffic(ReadSectors(b, arg, count).0);
    var b3 := ReadSectors(b, arg, count).0;
    assert b.log + [] == b.log && b1.log + [] == b1.log && b3.log + [] == b3.log;
    if cmd == CMD18 && r == 0 {
      ReadStopTidy(b.log, arg, Command(b2, CMD12, 0).1);
      assert b.log + [Exchange(CMD18, arg, 0)] + [Exchange(CMD12, 0, Command(b2, CMD12, 0).1)]
          == b.log + [Exchange(CMD18, arg, 0), Exchange(CMD12, 0, Command(b2, CMD12, 0).1)];
    } else if b1.log != b.log {
      TidyAdd(b.log, Exchange(cmd, arg, r));
    }
  }

  lemma ReadStopTidy(log: seq<Exchange>, arg: Word, r: Byte)
    requires Tidy(log)
    ensures Tidy(log + [Exchange(CMD18, arg, 0), Exchange(CMD12, 0, r)])
  {
  }

  lemma WriteTraffic(s: State, drv: Byte, sector: Word, blocks: seq<Block>)
    requires 0 < |blocks| < 0x1_0000_0000 && Tidy(s.bus.log) && !s.bus.selected
    ensures Bounded(s, DiskWrite(s, drv, sector, blocks).0, 5004 * |blocks| + 25065)
  {
    hide Tidy, SendCmd, WriteBlocks, TransmitBlock, Deselect, StatusBits, WireAddress;
    var arg := WireAddress(s.cardType, sector);
    var b := s.bus;
    DeselectTraffic(WriteSectors(b, s.cardType, arg, blocks).0);
    if |blocks| == 1 {
      SendCmdTraffic(b, CMD24, arg);
      TransmitBlockTraffic(SendCmd(b, CMD24, arg).0, blocks[0], 0xFE);
      var b1 := SendCmd(b, CMD24, arg).0;
      assert b1.log + [] == b1.log;
    } else {
      SendCmdTraffic(b, ACMD23, |blocks|);
      var b0 := if s.cardType & CT_SDC != 0 then SendCmd(b, ACMD23, |blocks|).0 else b;
      SendCmdTraffic(b0, CMD25, arg);
      var b1 := SendCmd(b0, CMD25, arg).0;
      WriteBlocksTraffic(b1, blocks, 0xFC);
      var b2 := WriteBlocks(b1, blocks, 0xFC).0;
      TransmitBlockTraffic(b2, [], STOP);
      assert b1.log + [] == b1.log && b2.log + [] == b2.log;
    }
  }

  lemma IoctlTraffic(s: State, drv: Byte, ctrl: Byte)
    requires Tidy(s.bus.log) && !s.bus.selected
    ensures Bounded(s, DiskIoctl(s, drv, ctrl).0, 11034)
  {
    hide Tidy, SendCmd, ReceiveBlock, Select, Deselect, StatusBits, SectorCount;
    var b := s.bus;
    SelectTraffic(b);
    SendCmdTraffic(b, CMD9, 0);
    var b1 := SendCmd(b, CMD9, 0).0;
    ReceiveBlockTraffic(b1, 16);
    var b2 := Control(b, ctrl).0;
    DeselectTraffic(b2);
    assert b.log + [] == b.log && b1.log + [] == b1.log && b2.log + [] == b2.log;
  }

  lemma {:induction false} LeaveIdleTraffic(b: Bus, cmd: Byte, arg: Word, n: nat)
    requires cmd in {ACMD41, CMD1} && Tidy(b.log)
    ensures
      var b' := LeaveIdle(b, cmd, arg, n).0;
      Tidy(b'.log) && b.transfers <= b'.transfers <= b.transfers + 10030 * n
    decreases n
  {
    hide Tidy, SendCmd;
    if n > 0 {
      SendCmdTraffic(b, cmd, arg);
      LeaveIdleTraffic(SendCmd(b, cmd, arg).0, cmd, arg, n - 1);
    }
  }

  lemma IdentifyTraffic(b: Bus)
    requires Tidy(b.log)
    ensures
      var b' := Identify(b).0;
      Tidy(b'.log) && b.transfers <= b'.transfers <= b.transfers + 10_070_122
  {
    hide Tidy, SendCmd, IdentifyV1, IdentifyV2;
    SendCmdTraffic(b, CMD0, 0);
    var b1 := SendCmd(b, CMD0, 0).0;
    SendCmdTraffic(b1, CMD8, 0x1AA);
    var b2 := SendCmd(b1, CMD8, 0x1AA).0;
    IdentifyV2Traffic(b2);
    IdentifyV1Traffic(b2);
  }

  lemma IdentifyV2Traffic(b: Bus)
    requires Tidy(b.log)
    ensures
      var b' := IdentifyV2(b).0;
      Tidy(b'.log) && b.transfers <= b'.transfers <= b.transfers + 10_040_032
  {
    hide Tidy, SendCmd, LeaveIdle, Recv;
    RecvTraffic(b, 4);
    var b1 := Recv(b, 4).0;
    assert b.log + [] == b.log;
    LeaveIdleTraffic(b1, ACMD41, 0x4000_0000, 1000);
    var b2 := LeaveIdle(b1, ACMD41, 0x4000_0000, 1000).0;
    SendCmdTraffic(b2, CMD58, 0);
    var b3 := SendCmd(b2, CMD58, 0).0;
    RecvTraffic(b3, 4);
    assert b3.log + [] == b3.log;
  }

  lemma IdentifyV1Traffic(b: Bus)
    requires Tidy(b.log)
    ensures
      var b' := IdentifyV1(b).0;
      Tidy(b'.log) && b.transfers <= b'.transfers <= b.transfers + 10_050_060
  {
    hide Tidy, SendCmd, LeaveIdle;
    SendCmdTraffic(b, ACMD41, 0);
    var (b1, r) := SendCmd(b, ACMD41, 0);
    var cmd := if r <= 1 then ACMD41 else CMD1;
    LeaveIdleTraffic(b1, cmd, 0, 1000);
    SendCmdTraffic(LeaveIdle(b1, cmd, 0, 1000).0, CMD16, 512);
  }

  lemma InitializeTraffic(s: State, drv: Byte)
    requires Tidy(s.bus.log) && !s.bus.selected
    ensures Bounded(s, DiskInitialize(s, drv).0, 10_070_124)
  {
    hide Tidy, Identify, Recv, Deselect, StatusBits;
    var b := SetCs(s.bus, true);
    RecvTraffic(b, 10);
    assert b.log + [] == b.log;
    var b1 := Recv(b, 10).0;
    IdentifyTraffic(b1);
    DeselectTraffic(Identify(b1).0);
    assert Identify(b1).0.log + [] == Identify(b1).0.log;
  }
}
