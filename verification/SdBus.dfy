/**
 The card side of the SD/MMC driver: an abstract memory card in SPI mode and the
 bus that carries bytes between it and the host.

 The card is a state machine over SPI bursts. Everything the SD Physical Layer
 Simplified Specification (chapter 7) leaves to the card - how long it stays silent,
 whether it rejects a command or a block, how long it is busy - is read from a
 script, one `Reply` for each burst the card reacts to. Every statement about the
 driver is proved for an arbitrary script.
 */
module SdBus {

  type Byte = x: int | 0 <= x < 256
  type Word = x: int | 0 <= x < 0x1_0000_0000
  type Block = s: seq<Byte> | |s| == 512 witness seq(512, _ => 0)
  type Csd = s: seq<Byte> | |s| == 16 witness seq(16, _ => 0)

  datatype Option<+T> = None | Some(value: T)

  /** How a card reacts to initialization; only `V2Block` cards address by block. */
  datatype Kind = V2Block | V2Byte | V1 | Mmc

  /** One nondeterministic choice of the card. */
  datatype Reply = Reply(
    silent: bool,   // no answer at all
    error: Byte,    // a response with an error bit set, when Fault(error) != 0
    fill: nat,      // 0xFF bytes before the response
    wait: nat,      // 0xFF bytes before a data token
    token: Byte,    // a data error token, when token % 16 != 0
    crc: Byte,      // the CRC bytes after a data block
    response: Byte, // the data response after a written block
    busy: nat,      // how many bytes the card holds the line low after programming
    volts: Byte,    // the voltage a card answers CMD8 with, 1 when it accepts the one offered
    pattern: Byte,  // and the check pattern
    polls: nat)     // how many polls the card stays in idle state after CMD0

  datatype Source = Sectors(next: nat, single: bool) | Register

  datatype Phase =
    | Waiting
    | Sending(source: Source)
    | AwaitToken(sector: nat, multi: bool)
    | AwaitData(sector: nat, multi: bool)

  datatype Card = Card(
    kind: Kind, flash: seq<Block>, csd: Csd,
    spi: bool, idle: bool, app: bool, polls: nat,
    phase: Phase, out: seq<Byte>, busy: nat)

  /** A byte-addressed card cannot hold more than its 32-bit byte addresses reach. */
  predicate WellFormed(c: Card) {
    c.kind != V2Block ==> |c.flash| <= 0x80_0000
  }

  /** A card as it is when it is put in the socket: native mode, idle, nothing to say. */
  predicate Fresh(c: Card) {
    WellFormed(c) && !c.spi && c.idle && !c.app && c.phase == Waiting && c.out == [] && c.busy == 0
  }

  /** A host command together with the response byte the host latched for it. */
  datatype Exchange = Exchange(index: Byte, arg: Word, r1: Byte)

  datatype Bus = Bus(
    script: nat -> Reply, tick: nat,
    slot: Option<Card>, selected: bool,
    transfers: nat, log: seq<Exchange>)

  function Fill(n: nat): (s: seq<Byte>)
    ensures |s| == n && forall i :: 0 <= i < n ==> s[i] == 0xFF
  {
    seq(n, _ => 0xFF)
  }

  // ---------------------------------------------------------------------------
  // Command frames
  // ---------------------------------------------------------------------------

  /** One step of the CRC7 shift register, polynomial x^7 + x^3 + 1 (section 4.5). */
  function Crc7Bit(crc: bv7, bit: bool): bv7 {
    (crc << 1) ^ (if (crc & 0x40 != 0) == bit then 0 else 0x09)
  }

  /** One byte, most significant bit first. */
  function Crc7Byte(crc: bv7, b: Byte): bv7 {
    var c7 := Crc7Bit(crc, b as int / 128 == 1);
    var c6 := Crc7Bit(c7, b as int / 64 % 2 == 1);
    var c5 := Crc7Bit(c6, b as int / 32 % 2 == 1);
    var c4 := Crc7Bit(c5, b as int / 16 % 2 == 1);
    var c3 := Crc7Bit(c4, b as int / 8 % 2 == 1);
    var c2 := Crc7Bit(c3, b as int / 4 % 2 == 1);
    var c1 := Crc7Bit(c2, b as int / 2 % 2 == 1);
    Crc7Bit(c1, b as int % 2 == 1)
  }

  function Crc7(bytes: seq<Byte>): bv7 {
    if bytes == [] then 0 else Crc7Byte(Crc7(bytes[..|bytes| - 1]), bytes[|bytes| - 1])
  }

  /** The command index and argument a card reads out of six bytes. */
  function FrameIndex(f: seq<Byte>): Byte
    requires |f| == 6
  {
    f[0] % 64
  }

  function FrameArg(f: seq<Byte>): Word
    requires |f| == 6
  {
    (f[1] as int) * 0x100_0000 + (f[2] as int) * 0x1_0000 + (f[3] as int) * 0x100 + (f[4] as int)
  }

  /** Start bits 01 and stop bit 1; CMD0 and CMD8 are checked against their CRC7. */
  predicate FrameOk(f: seq<Byte>)
    requires |f| == 6
  {
    && f[0] / 64 == 1
    && f[5] % 2 == 1
    && (FrameIndex(f) in {0, 8} ==> f[5] as int == Crc7(f[..5]) as int * 2 + 1)
  }

  // ---------------------------------------------------------------------------
  // The card's reaction to a command
  // ---------------------------------------------------------------------------

  /** An error response has some bit other than the idle bit set (section 7.3.2.1). */
  function Fault(error: Byte): (r: Byte)
    ensures r == 0 || 2 <= r < 128
  {
    if error % 128 >= 2 then error % 128 else 0
  }

  function IdleBit(c: Card): Byte {
    if c.idle then 1 else 0
  }

  /** The sector an address argument names, if the card has it. */
  function Addressed(c: Card, arg: Word): Option<nat> {
    var sector := if c.kind == V2Block then arg else arg / 512;
    if (c.kind == V2Block || arg % 512 == 0) && sector < |c.flash| then Some(sector) else None
  }

  /** The card after executing a command, with its response and the bytes trailing it. */
  datatype Answer = Answer(card: Card, r1: Byte, tail: seq<Byte>)

  function Refuse(c: Card, bits: Byte): Answer
    requires bits < 127
  {
    Answer(c, IdleBit(c) + bits, [])
  }

  /** ACMD41 and CMD1: stay idle for `polls` polls; a block card waits for the HCS bit. */
  function SendOpCond(c: Card, arg: Word): Answer {
    if !c.idle then Answer(c, 0, [])
    else if c.kind == V2Block && arg / 0x4000_0000 % 2 == 0 then Answer(c, 1, [])
    else if c.polls > 0 then Answer(c.(polls := c.polls - 1), 1, [])
    else Answer(c.(idle := false), 0, [])
  }

  function StartRead(c: Card, arg: Word, single: bool): Answer {
    if c.idle then Refuse(c, 4)
    else match Addressed(c, arg)
      case None => Answer(c, 0x40, [])
      case Some(s) => Answer(c.(phase := Sending(Sectors(s, single))), 0, [])
  }

  function StartWrite(c: Card, arg: Word, multi: bool): Answer {
    if c.idle then Refuse(c, 4)
    else match Addressed(c, arg)
      case None => Answer(c, 0x40, [])
      case Some(s) => Answer(c.(phase := AwaitToken(s, multi)), 0, [])
  }

  /** Table 7-3, as far as the driver uses it. `app` is set when CMD55 came just before. */
  function Execute(c: Card, app: bool, index: Byte, arg: Word, rep: Reply): (a: Answer)
    ensures a.r1 < 0x80
  {
    if index == 0 then Answer(c.(spi := true, idle := true, polls := rep.polls), 1, [])
    else if index == 8 then
      if c.kind in {V2Block, V2Byte} then Answer(c, IdleBit(c), [0, 0, rep.volts, rep.pattern])
      else Refuse(c, 4)
    else if index == 55 then
      if c.kind == Mmc then Refuse(c, 4) else Answer(c.(app := true), IdleBit(c), [])
    else if index == 41 then
      if app then SendOpCond(c, arg) else Refuse(c, 4)
    else if index == 1 then SendOpCond(c, arg)
    else if index == 58 then
      var top := if c.idle then 0 else if c.kind == V2Block then 0xC0 else 0x80;
      Answer(c, IdleBit(c), [top, 0xFF, 0x80, 0])
    else if index == 16 then
      if !c.idle && arg == 512 then Answer(c, 0, []) else Refuse(c, 0x40)
    else if index == 23 then
      if app then Answer(c, IdleBit(c), []) else Refuse(c, 4)
    else if index == 9 then
      if c.idle then Refuse(c, 4) else Answer(c.(phase := Sending(Register)), 0, [])
    else if index == 12 then Answer(c.(busy := rep.busy), IdleBit(c), [])
    else if index == 17 then StartRead(c, arg, true)
    else if index == 18 then StartRead(c, arg, false)
    else if index == 24 then StartWrite(c, arg, false)
    else if index == 25 then StartWrite(c, arg, true)
    else Refuse(c, 4)
  }

  /** A six-byte burst. Before CMD0 the card is in native mode and hears nothing else. */
  function OnCommand(c: Card, f: seq<Byte>, rep: Reply): (c': Card)
    requires |f| == 6
  {
    var rest := c.(phase := Waiting, out := [], app := false);
    var index := FrameIndex(f);
    var stuff: seq<Byte> := if index == 12 then [0xFF] else [];
    if rep.silent || (!c.spi && index != 0) then rest
    else if !FrameOk(f) then rest.(out := stuff + Fill(rep.fill) + [8 + IdleBit(c)])
    else if Fault(rep.error) != 0 then rest.(out := stuff + Fill(rep.fill) + [Fault(rep.error)])
    else
      var a := Execute(rest, c.app, index, FrameArg(f), rep);
      a.card.(out := stuff + Fill(rep.fill) + [a.r1] + a.tail)
  }

  /** The data response the card gives for a block; a sector it does not have is a write error. */
  function DataResponse(c: Card, sector: nat, rep: Reply): Byte {
    if sector < |c.flash| then rep.response else 0x0D
  }

  /** A burst from the host, by the phase the card is in (sections 7.2.4, 7.3.3). */
  function OnBurst(c: Card, data: seq<Byte>, rep: Reply): (c': Card) {
    match c.phase
    case AwaitToken(s, multi) =>
      if data == [if multi then 0xFC else 0xFE] then c.(phase := AwaitData(s, multi))
      else if multi && data == [0xFD] then c.(phase := Waiting, busy := rep.busy)
      else c
    case AwaitData(s, multi) =>
      if |data| != 512 then c else
      var response := DataResponse(c, s, rep);
      var stored := response % 32 == 5 && s < |c.flash|;
      c.(out := [0xFF, 0xFF, response],
         flash := if stored then c.flash[s := data] else c.flash,
         busy := if stored then rep.busy else 0,
         phase := if multi then AwaitToken(if stored then s + 1 else s, true) else Waiting)
    case _ =>
      if |data| == 6 then OnCommand(c, data, rep) else c
  }

  /** The next data packet of a card that is sending: a data token and data, or an error token. */
  function Refill(c: Card, rep: Reply): (c': Card)
    requires c.phase.Sending?
  {
    var have := match c.phase.source
      case Sectors(s, _) => s < |c.flash|
      case Register => true;
    if rep.silent then c.(phase := Waiting, out := [])
    else if !have || rep.token % 16 != 0 then
      c.(phase := Waiting, out := Fill(rep.wait) + [if rep.token % 16 != 0 then rep.token % 16 else 8])
    else
      match c.phase.source
      case Sectors(s, single) =>
        c.(phase := if single then Waiting else Sending(Sectors(s + 1, false)),
           out := Fill(rep.wait) + [0xFE] + c.flash[s] + [rep.crc, rep.crc])
      case Register =>
        c.(phase := Waiting, out := Fill(rep.wait) + [0xFE] + c.csd + [rep.crc, rep.crc])
  }

  // ---------------------------------------------------------------------------
  // The bus
  // ---------------------------------------------------------------------------

  /** Raising chip-select ends whatever transaction the card was in; programming goes on. */
  function SetCs(b: Bus, high: bool): Bus {
    var slot := if high && b.slot.Some? then Some(b.slot.value.(phase := Waiting, out := [])) else b.slot;
    b.(slot := slot, selected := !high)
  }

  /** One clocked byte from the card. An empty socket and a deselected card read 0xFF. */
  function Clock(b: Bus): (r: (Bus, Byte)) {
    if !b.selected || b.slot.None? then (b, 0xFF)
    else
      var c := b.slot.value;
      if c.out != [] then (b.(slot := Some(c.(out := c.out[1..]))), c.out[0])
      else if c.busy > 0 then (b.(slot := Some(c.(busy := c.busy - 1))), 0)
      else if c.phase.Sending? then
        var c' := Refill(c, b.script(b.tick));
        var b' := b.(tick := b.tick + 1);
        if c'.out == [] then (b'.(slot := Some(c')), 0xFF)
        else (b'.(slot := Some(c'.(out := c'.out[1..]))), c'.out[0])
      else (b, 0xFF)
  }

  function Clocks(b: Bus, n: nat): (r: (Bus, seq<Byte>))
    ensures |r.1| == n
    decreases n, b.transfers
  {
    if n == 0 then (b, []) else
    var (b1, d) := Clock(b);
    var (b2, rest) := Clocks(b1, n - 1);
    (b2, [d] + rest)
  }

  /** One receive transfer of `n` bytes (BOARD_SD_CARD_Recieve). */
  function Recv(b: Bus, n: nat): (r: (Bus, seq<Byte>))
    ensures |r.1| == n
  {
    var (b', data) := Clocks(b, n);
    (b'.(transfers := b'.transfers + 1), data)
  }

  /** One send transfer (BOARD_SD_CARD_Send). */
  function Send(b: Bus, data: seq<Byte>): Bus {
    var b' := b.(transfers := b.transfers + 1);
    if !b.selected || b.slot.None? then b'
    else b'.(slot := Some(OnBurst(b.slot.value, data, b.script(b.tick))), tick := b.tick + 1)
  }
}
