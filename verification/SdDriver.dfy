/**
 The driver in its own form: static variables, polling loops that count down, block
 loops that advance through the caller's buffer.
 */
module SdDriver {
  import opened SdBus
  import opened Sdmm

  /** The bytes of a run of blocks, one after the other. */
  function Join(blocks: seq<Block>): (s: seq<Byte>)
    ensures |s| == 512 * |blocks|
  {
    if blocks == [] then [] else Join(blocks[..|blocks| - 1]) + blocks[|blocks| - 1]
  }

  /** The first `n` blocks of a buffer. */
  function Split(data: seq<Byte>, n: nat): (blocks: seq<Block>)
    requires |data| >= 512 * n
    ensures |blocks| == n
  {
    seq(n, (i: nat) requires i < n => data[512 * i..512 * (i + 1)])
  }

  lemma {:induction false} JoinSplit(data: seq<Byte>, n: nat)
    requires |data| >= 512 * n
    ensures Join(Split(data, n)) == data[..512 * n]
  {
    if n > 0 {
      var blocks := Split(data, n);
      assert blocks[..n - 1] == Split(data, n - 1);
      JoinSplit(data, n - 1);
      assert data[..512 * n] == data[..512 * (n - 1)] + blocks[n - 1];
    }
  }

  /** A buffer after `data` was stored at `offset`. */
  function Patched(buff: seq<Byte>, offset: nat, data: seq<Byte>): (r: seq<Byte>)
    requires offset + |data| <= |buff|
    ensures |r| == |buff|
  {
    buff[..offset] + data + buff[offset + |data|..]
  }

  /** Storing one more block after the blocks already received. */
  lemma PatchedStep(got: seq<Block>, block: Block, before: seq<Byte>)
    requires 512 * (|got| + 1) <= |before|
    ensures Patched(Join(got) + before[512 * |got|..], 512 * |got|, block)
      == Join(got + [block]) + before[512 * |got + [block]|..]
  {
    assert (got + [block])[..|got|] == got;
  }

  lemma ReadBlocksEnd(b: Bus)
    ensures ReadBlocks(b, 0) == (b, [])
  {
  }

  lemma ReadBlocksStep(b: Bus, count: nat, got: seq<Block>)
    requires count > 0
    ensures
      var (b1, data) := ReceiveBlock(b, 512);
      if data.None? then ReadBlocks(b, count) == (b1, [])
      else
        && ReadBlocks(b, count).0 == ReadBlocks(b1, count - 1).0
        && got + ReadBlocks(b, count).1 == got + [data.value] + ReadBlocks(b1, count - 1).1
  {
  }

  class Driver {
    var stat: bv8
    var cardType: bv8
    var bus: Bus

    ghost function Now(): State
      reads this
    {
      State(stat, cardType, bus)
    }

    constructor (bus: Bus)
      ensures Now() == State(STA_NOINIT, 0, bus)
    {
      stat, cardType, this.bus := STA_NOINIT, 0, bus;
    }

    method Receive(n: nat) returns (data: seq<Byte>)
      modifies this`bus
      ensures (bus, data) == Recv(old(bus), n)
    {
      var (b, d) := Recv(bus, n);
      bus, data := b, d;
    }

    method Transmit(data: seq<Byte>)
      modifies this`bus
      ensures bus == Send(old(bus), data)
    {
      bus := Send(bus, data);
    }

    method WaitReady() returns (ok: bool)
      modifies this`bus
      ensures Poll(old(bus), Ready, 5000).bus == bus && Poll(old(bus), Ready, 5000).ok == ok
    {
      ghost var p := Poll(bus, Ready, 5000);
      var tmr := 5000;
      while tmr != 0
        invariant 0 <= tmr <= 5000
        invariant if tmr > 0 then Poll(bus, Ready, tmr) == p else p.bus == bus && !p.ok
      {
        var d := Receive(1);
        if d[0] == 0xFF { break; }
        tmr := tmr - 1;
      }
      return tmr != 0;
    }

    method DeselectCard()
      modifies this`bus
      ensures bus == Deselect(old(bus))
    {
      bus := SetCs(bus, true);
      var _ := Receive(1);
    }

    method SelectCard() returns (ok: bool)
      modifies this`bus
      ensures (bus, ok) == Select(old(bus))
    {
      bus := SetCs(bus, false);
      var _ := Receive(1);
      ok := WaitReady();
      if ok { return true; }
      DeselectCard();
      return false;
    }

    /** The second half of send_cmd: the frame goes out and the response is polled for. */
    method IssueCommand(index: Byte, arg: Word) returns (r: Byte)
      requires index < 64
      modifies this`bus
      ensures (bus, r) == Issue(old(bus), index, arg)
    {
      var crc: Byte := 0x01;
      if index == CMD0 { crc := 0x95; }
      if index == CMD8 { crc := 0x87; }
      Transmit([0x40 + index, arg / 0x100_0000, arg / 0x1_0000 % 0x100, arg / 0x100 % 0x100, arg % 0x100, crc]);
      if index == CMD12 {
        var _ := Receive(1);
      }
      ghost var p := Poll(bus, Response, 10);
      var n := 10;
      var d := Receive(1);
      while d[0] >= 0x80 && n > 1
        invariant |d| == 1 && 0 < n <= 10
        invariant if Stops(Response, d[0]) then p == Polled(bus, d[0], true)
                  else if n == 1 then p == Polled(bus, d[0], false)
                  else p == Poll(bus, Response, n - 1)
        decreases n
      {
        n := n - 1;
        d := Receive(1);
      }
      bus := bus.(log := bus.log + [Exchange(index, arg, d[0])]);
      return d[0];
    }

    method SendCommand(cmd: Byte, arg: Word) returns (r: Byte)
      requires cmd % 128 < 64
      modifies this`bus
      ensures (bus, r) == SendCmd(old(bus), cmd, arg)
      decreases cmd
    {
      hide Issue, Select, Deselect;
      var index := cmd;
      if cmd >= 0x80 {
        index := cmd - 0x80;
        var n := SendCommand(CMD55, 0);
        if n > 1 { return n; }
      }
      if index != CMD12 {
        DeselectCard();
        var ok := SelectCard();
        if !ok { return 0xFF; }
      }
      r := IssueCommand(index, arg);
    }

    /** Fills `buff` from `offset` on, and only when a valid data token arrived. */
    method ReceiveDataBlock(buff: array<Byte>, offset: nat, n: nat) returns (ok: bool)
      requires offset + n <= buff.Length
      modifies this`bus, buff
      ensures bus == ReceiveBlock(old(bus), n).0
      ensures ok == ReceiveBlock(old(bus), n).1.Some?
      ensures buff[..] == if ok
        then Patched(old(buff[..]), offset, ReceiveBlock(old(bus), n).1.value)
        else old(buff[..])
    {
      ghost var p := Poll(bus, Token, 1000);
      var tmr := 1000;
      var d: seq<Byte> := [0xFF];
      while tmr != 0
        invariant 0 <= tmr <= 1000 && |d| == 1
        invariant if tmr > 0 then Poll(bus, Token, tmr) == p else p.bus == bus && p.last == d[0]
        invariant buff[..] == old(buff[..])
      {
        d := Receive(1);
        if d[0] != 0xFF { break; }
        tmr := tmr - 1;
      }
      if d[0] != 0xFE { return false; }
      var data := Receive(n);
      forall i | 0 <= i < n {
        buff[offset + i] := data[i];
      }
      d := Receive(2);
      return true;
    }

    method TransmitDataBlock(data: seq<Byte>, token: Byte) returns (ok: bool)
      modifies this`bus
      ensures (bus, ok) == TransmitBlock(old(bus), data, token)
    {
      ok := WaitReady();
      if !ok { return false; }
      Transmit([token]);
      if token != STOP {
        Transmit(data);
        var d := Receive(2);
        d := Receive(1);
        if d[0] % 32 != 0x05 { return false; }
      }
      return true;
    }

    method Status(drv: Byte) returns (r: bv8)
      modifies this`stat
      ensures Now() == DiskStatus(old(Now()), drv) && r == stat
    {
      if drv != 0 {
        stat := stat | STA_NOINIT;
      }
      if bus.slot.None? {
        stat := stat | STA_NODISK;
      } else {
        stat := stat & !STA_NODISK;
      }
      return stat;
    }

    method AwaitIdleExit(cmd: Byte, arg: Word) returns (tmr: nat)
      requires cmd % 128 < 64
      modifies this`bus
      ensures (bus, tmr != 0) == LeaveIdle(old(bus), cmd, arg, 1000)
    {
      ghost var p := LeaveIdle(bus, cmd, arg, 1000);
      tmr := 1000;
      while tmr != 0
        invariant 0 <= tmr <= 1000
        invariant LeaveIdle(bus, cmd, arg, tmr) == p
      {
        var r := SendCommand(cmd, arg);
        if r == 0 { break; }
        tmr := tmr - 1;
      }
    }

    method IdentifyCard() returns (ty: bv8)
      modifies this`bus
      ensures (bus, ty) == Identify(old(bus))
    {
      ty := 0;
      var r := SendCommand(CMD0, 0);
      if r == 1 {
        r := SendCommand(CMD8, 0x1AA);
        if r == 1 {
          var buf := Receive(4);
          if buf[2] == 0x01 && buf[3] == 0xAA {
            var tmr := AwaitIdleExit(ACMD41, 0x4000_0000);
            if tmr != 0 {
              r := SendCommand(CMD58, 0);
              if r == 0 {
                buf := Receive(4);
                ty := if buf[0] / 0x40 % 2 == 1 then CT_SDC2 | CT_BLOCK else CT_SDC2;
              }
            }
          }
        } else {
          var cmd;
          r := SendCommand(ACMD41, 0);
          if r <= 1 {
            ty, cmd := CT_SDC2, ACMD41;
          } else {
            ty, cmd := CT_MMC3, CMD1;
          }
          var tmr := AwaitIdleExit(cmd, 0);
          if tmr == 0 {
            ty := 0;
          } else {
            r := SendCommand(CMD16, 512);
            if r != 0 { ty := 0; }
          }
        }
      }
    }

    method Initialize(drv: Byte) returns (r: bv8)
      modifies this
      ensures (Now(), r) == DiskInitialize(old(Now()), drv)
    {
      if drv != 0 { return 3; }
      var st := Status(drv);
      if st == 0 { return 0; }
      bus := SetCs(bus, true);
      var _ := Receive(10);
      var ty := IdentifyCard();
      cardType := ty;
      r := if ty != 0 then 0 else STA_NOINIT;
      stat := r;
      DeselectCard();
      if ty == 0 {
        r := Status(0);
      }
    }

    /** The block loop of disk_read; returns how many blocks are still missing. */
    method ReceiveBlocks(buff: array<Byte>, count: nat) returns (left: nat)
      requires 512 * count <= buff.Length
      modifies this`bus, buff
      ensures bus == ReadBlocks(old(bus), count).0
      ensures left == count - |ReadBlocks(old(bus), count).1|
      ensures
        var got := ReadBlocks(old(bus), count).1;
        buff[..] == Join(got) + old(buff[..])[512 * |got|..]
    {
      hide ReceiveBlock, ReadBlocks, Join, Patched;
      ghost var before := buff[..];
      ghost var run := ReadBlocks(bus, count);
      ghost var got: seq<Block> := [];
      var ok := true;
      left := count;
      while left != 0 && ok
        invariant 0 <= left <= count && |got| == count - left
        invariant if ok then ReadBlocks(bus, left).0 == run.0 && got + ReadBlocks(bus, left).1 == run.1
                  else left != 0 && bus == run.0 && got == run.1
        invariant buff[..] == Join(got) + before[512 * |got|..]
        decreases left, ok
      {
        ghost var b0 := bus;
        ReadBlocksStep(b0, left, got);
        ok := ReceiveDataBlock(buff, 512 * (count - left), 512);
        if ok {
          ghost var block: Block := ReceiveBlock(b0, 512).1.value;
          PatchedStep(got, block, before);
          got := got + [block];
          left := left - 1;
        }
      }
      assert left == 0 ==> ReadBlocks(bus, left) == (bus, []) && got + [] == got by {
        ReadBlocksEnd(bus);
      }
    }

    /** On return the buffer starts with the blocks that arrived; the rest is untouched. */
    method Read(drv: Byte, buff: array<Byte>, sector: Word, count: nat) returns (r: Result)
      requires 0 < count && 512 * count <= buff.Length
      modifies this, buff
      ensures Now() == DiskRead(old(Now()), drv, sector, count).0
      ensures r == DiskRead(old(Now()), drv, sector, count).1
      ensures
        var got := DiskRead(old(Now()), drv, sector, count).2;
        buff[..] == Join(got) + old(buff[..])[512 * |got|..]
    {
      hide SendCmd, ReadBlocks, Deselect, Join;
      var st := Status(drv);
      if st & STA_NOINIT != 0 { return RES_NOTRDY; }
      var sect := if cardType & CT_BLOCK == 0 then sector * 512 % 0x1_0000_0000 else sector;
      var cmd := if count > 1 then CMD18 else CMD17;
      var n := count;
      var r1 := SendCommand(cmd, sect);
      if r1 == 0 {
        n := ReceiveBlocks(buff, count);
        if cmd == CMD18 {
          var _ := SendCommand(CMD12, 0);
        }
      }
      DeselectCard();
      return if n != 0 then RES_ERROR else RES_OK;
    }

    /** The block loop of disk_write; returns how many blocks are still missing. */
    method TransmitBlocks(buff: array<Byte>, count: nat) returns (left: nat)
      requires 512 * count <= buff.Length
      modifies this`bus
      ensures bus == WriteBlocks(old(bus), Split(buff[..], count), 0xFC).0
      ensures left == count - WriteBlocks(old(bus), Split(buff[..], count), 0xFC).1
    {
      hide TransmitBlock, Poll, Recv, Send;
      ghost var blocks := Split(buff[..], count);
      ghost var run := WriteBlocks(bus, blocks, 0xFC);
      var ok := true;
      left := count;
      while left != 0 && ok
        invariant 0 <= left <= count
        invariant
          var rest := WriteBlocks(bus, blocks[count - left..], 0xFC);
          if ok then rest.0 == run.0 && count - left + rest.1 == run.1
          else left != 0 && bus == run.0 && count - left == run.1
        decreases left, ok
      {
        var offset := 512 * (count - left);
        assert buff[offset..offset + 512] == blocks[count - left];
        assert blocks[count - left..][1..] == blocks[count - left + 1..];
        ok := TransmitDataBlock(buff[offset..offset + 512], 0xFC);
        if ok {
          left := left - 1;
        }
      }
    }

    method Write(drv: Byte, buff: array<Byte>, sector: Word, count: nat) returns (r: Result)
      requires 0 < count < 0x1_0000_0000 && 512 * count <= buff.Length
      modifies this
      ensures (Now(), r) == DiskWrite(old(Now()), drv, sector, Split(buff[..], count))
    {
      hide TransmitBlock, SendCmd, WriteBlocks, Deselect;
      var st := Status(drv);
      if st & STA_NOINIT != 0 { return RES_NOTRDY; }
      var sect := if cardType & CT_BLOCK == 0 then sector * 512 % 0x1_0000_0000 else sector;
      var n := count;
      if count == 1 {
        var r1 := SendCommand(CMD24, sect);
        if r1 == 0 {
          var ok := TransmitDataBlock(buff[..512], 0xFE);
          if ok { n := 0; }
        }
      } else {
        if cardType & CT_SDC != 0 {
          var _ := SendCommand(ACMD23, count);
        }
        var r1 := SendCommand(CMD25, sect);
        if r1 == 0 {
          n := TransmitBlocks(buff, count);
          var stopped := TransmitDataBlock([], STOP);
          if !stopped { n := 1; }
        }
      }
      DeselectCard();
      return if n != 0 then RES_ERROR else RES_OK;
    }

    method Ioctl(drv: Byte, ctrl: Byte) returns (r: Result, value: Option<Word>)
      modifies this
      ensures (Now(), r, value) == DiskIoctl(old(Now()), drv, ctrl)
    {
      hide SendCmd, ReceiveBlock, Deselect, Select, SectorCount, StatusBits;
      value := None;
      var st := Status(drv);
      if st & STA_NOINIT != 0 { return RES_NOTRDY, None; }
      r := RES_ERROR;
      if ctrl == CTRL_SYNC {
        var ok := SelectCard();
        if ok { r := RES_OK; }
      } else if ctrl == GET_SECTOR_COUNT {
        var r1 := SendCommand(CMD9, 0);
        if r1 == 0 {
          var csd := new Byte[16](_ => 0);
          ghost var b0 := bus;
          var ok := ReceiveDataBlock(csd, 0, 16);
          if ok {
            assert csd[..] == ReceiveBlock(b0, 16).1.value;
            value := Some(SectorCount(csd[..]));
            r := RES_OK;
          }
        }
      } else if ctrl == GET_BLOCK_SIZE {
        value := Some(128);
        r := RES_OK;
      } else {
        r := RES_PARERR;
      }
      DeselectCard();
    }
  }

}
