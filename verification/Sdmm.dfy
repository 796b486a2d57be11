/**
 csrc/board/src/sdmm.c: the driver that turns sector reads and writes into the
 SPI command and token protocol.

 Each driver routine is a function on the bus here. The class `SdDriver.Driver` has the
 routines in their own form, loops and fields, each proved equal to its function; what
 the functions achieve on a card is proved in the modules that follow.
 */
module Sdmm {
  import opened SdBus

  const STA_NOINIT: bv8 := 1
  const STA_NODISK: bv8 := 2

  const CT_MMC3: bv8 := 0x01
  const CT_SDC2: bv8 := 0x08
  const CT_SDC: bv8 := 0x0C
  const CT_BLOCK: bv8 := 0x10

  const CMD0: Byte := 0
  const CMD1: Byte := 1
  const CMD8: Byte := 8
  const CMD9: Byte := 9
  const CMD12: Byte := 12
  const CMD16: Byte := 16
  const CMD17: Byte := 17
  const CMD18: Byte := 18
  const ACMD23: Byte := 0x80 + 23
  const CMD24: Byte := 24
  const CMD25: Byte := 25
  const ACMD41: Byte := 0x80 + 41
  const CMD55: Byte := 55
  const CMD58: Byte := 58

  datatype Result = RES_OK | RES_ERROR | RES_WRPRT | RES_NOTRDY | RES_PARERR

  /** The driver's two static variables and the bus it drives. */
  datatype State = State(stat: bv8, cardType: bv8, bus: Bus)

  // ---------------------------------------------------------------------------
  // Polling
  // ---------------------------------------------------------------------------

  /** What a polling loop waits for: a ready card, a response byte, a data token. */
  datatype Until = Ready | Response | Token

  predicate Stops(u: Until, d: Byte) {
    match u
    case Ready => d == 0xFF
    case Response => d < 0x80
    case Token => d != 0xFF
  }

  datatype Polled = Polled(bus: Bus, last: Byte, ok: bool)

  /** Read single bytes until one stops the poll, `n` at the most. */
  function Poll(b: Bus, u: Until, n: nat): Polled
    requires n > 0
    decreases n, b.transfers
  {
    var (b', d) := Recv(b, 1);
    if Stops(u, d[0]) then Polled(b', d[0], true)
    else if n == 1 then Polled(b', d[0], false)
    else Poll(b', u, n - 1)
  }

  function Deselect(b: Bus): Bus {
    Recv(SetCs(b, true), 1).0
  }

  function Select(b: Bus): (Bus, bool) {
    var p := Poll(Recv(SetCs(b, false), 1).0, Ready, 5000);
    if p.ok then (p.bus, true) else (Deselect(p.bus), false)
  }

  // ---------------------------------------------------------------------------
  // Commands
  // ---------------------------------------------------------------------------

  /** The last byte of a frame: a fixed CRC and stop bit for CMD0 and for CMD8(0x1AA). */
  function FrameTail(index: Byte): Byte {
    if index == CMD0 then 0x95 else if index == CMD8 then 0x87 else 0x01
  }

  function Frame(index: Byte, arg: Word): (f: seq<Byte>)
    requires index < 64
    ensures |f| == 6
  {
    [0x40 + index, arg / 0x100_0000, arg / 0x1_0000 % 0x100, arg / 0x100 % 0x100, arg % 0x100, FrameTail(index)]
  }

  /** Send the six bytes and latch the response. CMD12 skips a stuff byte first. */
  function Issue(b: Bus, index: Byte, arg: Word): (Bus, Byte)
    requires index < 64
  {
    var sent := Send(b, Frame(index, arg));
    var p := Poll(if index == CMD12 then Recv(sent, 1).0 else sent, Response, 10);
    (p.bus.(log := p.bus.log + [Exchange(index, arg, p.last)]), p.last)
  }

  /** A plain command: reselect the card first, except to stop a multiple block read. */
  function Command(b: Bus, index: Byte, arg: Word): (Bus, Byte)
    requires index < 64
  {
    if index == CMD12 then Issue(b, index, arg) else
    var (ready, ok) := Select(Deselect(b));
    if ok then Issue(ready, index, arg) else (ready, 0xFF)
  }

  /** send_cmd: bit 7 of `cmd` marks an application command, sent after CMD55. */
  function SendCmd(b: Bus, cmd: Byte, arg: Word): (Bus, Byte)
    requires cmd % 128 < 64
  {
    if cmd < 0x80 then Command(b, cmd, arg) else
    var (b', n) := Command(b, CMD55, 0);
    if n > 1 then (b', n) else Command(b', cmd - 0x80, arg)
  }

  // ---------------------------------------------------------------------------
  // Data blocks
  // ---------------------------------------------------------------------------

  function ReceiveBlock(b: Bus, n: nat): (r: (Bus, Option<seq<Byte>>))
    ensures r.1.Some? ==> |r.1.value| == n
  {
    var p := Poll(b, Token, 1000);
    if p.last != 0xFE then (p.bus, None) else
    var (b', data) := Recv(p.bus, n);
    (Recv(b', 2).0, Some(data))
  }

  const STOP: Byte := 0xFD

  function TransmitBlock(b: Bus, data: seq<Byte>, token: Byte): (Bus, bool) {
    var p := Poll(b, Ready, 5000);
    if !p.ok then (p.bus, false) else
    var tok := Send(p.bus, [token]);
    if token == STOP then (tok, true) else
    var (b', d) := Recv(Recv(Send(tok, data), 2).0, 1);
    (b', d[0] % 32 == 5)
  }

  /** Receive up to `count` blocks, stopping at the first failure. */
  function ReadBlocks(b: Bus, count: nat): (r: (Bus, seq<Block>))
    ensures |r.1| <= count
    decreases count, b.transfers
  {
    if count == 0 then (b, []) else
    var (b1, data) := ReceiveBlock(b, 512);
    if data.None? then (b1, []) else
    var (b2, rest) := ReadBlocks(b1, count - 1);
    (b2, [data.value] + rest)
  }

  /** Transmit blocks until one is not accepted; how many were. */
  function WriteBlocks(b: Bus, blocks: seq<Block>, token: Byte): (r: (Bus, nat))
    ensures r.1 <= |blocks|
    decreases |blocks|
  {
    if blocks == [] then (b, 0) else
    var (b1, ok) := TransmitBlock(b, blocks[0], token);
    if !ok then (b1, 0) else
    var (b2, n) := WriteBlocks(b1, blocks[1..], token);
    (b2, n + 1)
  }

  // ---------------------------------------------------------------------------
  // Disk status and initialization
  // ---------------------------------------------------------------------------

  function StatusBits(stat: bv8, drv: Byte, inserted: bool): bv8 {
    var s := if drv != 0 then stat | STA_NOINIT else stat;
    if inserted then s & !STA_NODISK else s | STA_NODISK
  }

  function DiskStatus(s: State, drv: Byte): State {
    s.(stat := StatusBits(s.stat, drv, s.bus.slot.Some?))
  }

  /** Poll ACMD41 or CMD1 until the card leaves idle state, `n` times at the most. */
  function LeaveIdle(b: Bus, cmd: Byte, arg: Word, n: nat): (Bus, bool)
    requires cmd % 128 < 64
    decreases n, b.transfers
  {
    if n == 0 then (b, false) else
    var (b', r) := SendCmd(b, cmd, arg);
    if r == 0 then (b', true) else LeaveIdle(b', cmd, arg, n - 1)
  }

  /** The branch after CMD8 was answered with 1. */
  function IdentifyV2(b: Bus): (Bus, bv8) {
    var (b1, echo) := Recv(b, 4);
    if echo[2] != 1 || echo[3] != 0xAA then (b1, 0) else
    var (b2, awake) := LeaveIdle(b1, ACMD41, 0x4000_0000, 1000);
    if !awake then (b2, 0) else
    var (b3, r) := SendCmd(b2, CMD58, 0);
    if r != 0 then (b3, 0) else
    var (b4, ocr) := Recv(b3, 4);
    (b4, if ocr[0] / 0x40 % 2 == 1 then CT_SDC2 | CT_BLOCK else CT_SDC2)
  }

  /** The branch for SD version 1 and MMC cards. */
  function IdentifyV1(b: Bus): (Bus, bv8) {
    var (b1, r) := SendCmd(b, ACMD41, 0);
    var ty := if r <= 1 then CT_SDC2 else CT_MMC3;
    var (b2, awake) := LeaveIdle(b1, if r <= 1 then ACMD41 else CMD1, 0, 1000);
    if !awake then (b2, 0) else
    var (b3, r') := SendCmd(b2, CMD16, 512);
    (b3, if r' != 0 then 0 else ty)
  }

  function Identify(b: Bus): (Bus, bv8) {
    var (b1, r0) := SendCmd(b, CMD0, 0);
    if r0 != 1 then (b1, 0) else
    var (b2, r8) := SendCmd(b1, CMD8, 0x1AA);
    if r8 == 1 then IdentifyV2(b2) else IdentifyV1(b2)
  }

  /** disk_initialize, once past the checks that return early. */
  function PowerUp(s: State): State {
    var (b, ty) := Identify(Recv(SetCs(s.bus, true), 10).0);
    var s' := State(if ty != 0 then 0 else STA_NOINIT, ty, Deselect(b));
    if ty != 0 then s' else DiskStatus(s', 0)
  }

  function DiskInitialize(s: State, drv: Byte): (State, bv8) {
    if drv != 0 then (s, 3) else
    var s1 := DiskStatus(s, drv);
    if s1.stat == 0 then (s1, 0) else
    var s2 := PowerUp(s1);
    (s2, s2.stat)
  }

  // ---------------------------------------------------------------------------
  // Reading, writing, control
  // ---------------------------------------------------------------------------

  /** The 32-bit argument a sector number becomes on the wire. */
  function WireAddress(cardType: bv8, sector: Word): Word {
    if cardType & CT_BLOCK == 0 then sector * 512 % 0x1_0000_0000 else sector
  }

  /** disk_read up to the final deselect: the blocks that arrived. */
  function ReadSectors(b: Bus, arg: Word, count: nat): (r: (Bus, seq<Block>))
    requires count > 0
    ensures |r.1| <= count
  {
    var cmd := if count > 1 then CMD18 else CMD17;
    var (b1, r) := SendCmd(b, cmd, arg);
    if r != 0 then (b1, []) else
    var (b2, got) := ReadBlocks(b1, count);
    (if cmd == CMD18 then SendCmd(b2, CMD12, 0).0 else b2, got)
  }

  function DiskRead(s: State, drv: Byte, sector: Word, count: nat): (r: (State, Result, seq<Block>))
    requires count > 0
    ensures |r.2| <= count
  {
    var s1 := DiskStatus(s, drv);
    if s1.stat & STA_NOINIT != 0 then (s1, RES_NOTRDY, []) else
    var (b, got) := ReadSectors(s1.bus, WireAddress(s1.cardType, sector), count);
    (s1.(bus := Deselect(b)), if |got| == count then RES_OK else RES_ERROR, got)
  }

  /** The path of disk_write for one block: is it on the card? */
  function WriteSingle(b: Bus, arg: Word, block: Block): (Bus, bool) {
    var (b1, r) := SendCmd(b, CMD24, arg);
    if r != 0 then (b1, false) else TransmitBlock(b1, block, 0xFE)
  }

  /** The other path: how many blocks the card accepted, and whether all went well. */
  function WriteMultiple(b: Bus, cardType: bv8, arg: Word, blocks: seq<Block>): (r: (Bus, nat, bool))
    requires |blocks| < 0x1_0000_0000
    ensures r.1 <= |blocks|
  {
    var b0 := if cardType & CT_SDC != 0 then SendCmd(b, ACMD23, |blocks|).0 else b;
    var (b1, r) := SendCmd(b0, CMD25, arg);
    if r != 0 then (b1, 0, false) else
    var (b2, n) := WriteBlocks(b1, blocks, 0xFC);
    var (b3, stopped) := TransmitBlock(b2, [], STOP);
    (b3, n, n == |blocks| && stopped)
  }

  /** Either path of disk_write, up to the final deselect. */
  function WriteSectors(b: Bus, cardType: bv8, arg: Word, blocks: seq<Block>): (Bus, bool)
    requires 0 < |blocks| < 0x1_0000_0000
  {
    if |blocks| == 1 then WriteSingle(b, arg, blocks[0])
    else
      var (b', n, ok) := WriteMultiple(b, cardType, arg, blocks);
      (b', ok)
  }

  function DiskWrite(s: State, drv: Byte, sector: Word, blocks: seq<Block>): (State, Result)
    requires 0 < |blocks| < 0x1_0000_0000
  {
    var s1 := DiskStatus(s, drv);
    if s1.stat & STA_NOINIT != 0 then (s1, RES_NOTRDY) else
    var (b, ok) := WriteSectors(s1.bus, s1.cardType, WireAddress(s1.cardType, sector), blocks);
    (s1.(bus := Deselect(b)), if ok then RES_OK else RES_ERROR)
  }

  function Pow2(n: nat): (r: nat)
    ensures r > 0
  {
    if n == 0 then 1 else 2 * Pow2(n - 1)
  }

  /**
   The arithmetic of GET_SECTOR_COUNT on the sixteen CSD bytes, on 32-bit words. A
   shift count below zero is undefined in C; no card with READ_BL_LEN >= 9 has one.
   */
  function SectorCount(csd: Csd): Word {
    if csd[0] / 64 == 1 then
      var cs := csd[9] as int + csd[8] as int * 0x100 + (csd[7] % 64) as int * 0x1_0000 + 1;
      cs * 1024 % 0x1_0000_0000
    else
      var n := csd[5] as int % 16 + csd[10] as int / 128 + csd[9] as int % 4 * 2 + 2;
      var cs := csd[8] as int / 64 + csd[7] as int * 4 + (csd[6] % 4) as int * 0x400 + 1;
      cs * Pow2(if n >= 9 then n - 9 else 0) % 0x1_0000_0000
  }

  const CTRL_SYNC: Byte := 0
  const GET_SECTOR_COUNT: Byte := 1
  const GET_BLOCK_SIZE: Byte := 3

  function ReadCsd(b: Bus): (r: (Bus, Option<seq<Byte>>))
    ensures r.1.Some? ==> |r.1.value| == 16
  {
    var (b1, r) := SendCmd(b, CMD9, 0);
    if r != 0 then (b1, None) else ReceiveBlock(b1, 16)
  }

  /** The body of disk_ioctl's switch, up to the final deselect. */
  function Control(b: Bus, ctrl: Byte): (Bus, Result, Option<Word>) {
    if ctrl == CTRL_SYNC then
      var (b', ok) := Select(b);
      (b', if ok then RES_OK else RES_ERROR, None)
    else if ctrl == GET_SECTOR_COUNT then
      var (b', csd) := ReadCsd(b);
      if csd.None? then (b', RES_ERROR, None) else (b', RES_OK, Some(SectorCount(csd.value)))
    else if ctrl == GET_BLOCK_SIZE then (b, RES_OK, Some(128))
    else (b, RES_PARERR, None)
  }

  function DiskIoctl(s: State, drv: Byte, ctrl: Byte): (State, Result, Option<Word>) {
    var s1 := DiskStatus(s, drv);
    if s1.stat & STA_NOINIT != 0 then (s1, RES_NOTRDY, None) else
    var (b, r, value) := Control(s1.bus, ctrl);
    (s1.(bus := Deselect(b)), r, value)
  }
}
