/** What the driver's polls, commands and data packets do to the card behind the bus. */
module SdExchange {
  import opened SdBus
  import opened Sdmm

  // ---------------------------------------------------------------------------
  // Frames
  // ---------------------------------------------------------------------------

  /** The card reads back the index and the argument that were put in the frame. */
  lemma FrameRoundTrip(index: Byte, arg: Word)
    requires index < 64
    ensures FrameIndex(Frame(index, arg)) == index
    ensures FrameArg(Frame(index, arg)) == arg
  {
    var q1, q2, q3 := arg / 0x100_0000, arg / 0x1_0000, arg / 0x100;
    assert q1 == q2 / 0x100 && q2 == q3 / 0x100;
  }

  lemma Crc7Snoc(bytes: seq<Byte>, b: Byte)
    ensures Crc7(bytes + [b]) == Crc7Byte(Crc7(bytes), b)
  {
    assert (bytes + [b])[..|bytes|] == bytes;
  }

  lemma Crc7Two(a: Byte, b: Byte)
    ensures Crc7([a, b]) == Crc7Byte(Crc7Byte(0, a), b)
  {
    hide Crc7Byte;
    Crc7Snoc([], a);
    Crc7Snoc([a], b);
    assert [] + [a] == [a] && [a] + [b] == [a, b];
  }

  lemma Crc7Five(a: Byte, b: Byte, c: Byte, d: Byte, e: Byte)
    ensures Crc7([a, b, c, d, e]) ==
      Crc7Byte(Crc7Byte(Crc7Byte(Crc7Byte(Crc7Byte(0, a), b), c), d), e)
  {
    hide Crc7Byte, Crc7;
    Crc7Two(a, b);
    Crc7Snoc([a, b], c);
    Crc7Snoc([a, b, c], d);
    Crc7Snoc([a, b, c, d], e);
    assert [a, b] + [c] == [a, b, c];
    assert [a, b, c] + [d] == [a, b, c, d];
    assert [a, b, c, d] + [e] == [a, b, c, d, e];
  }

  lemma GoIdleStart()
    ensures Crc7Byte(Crc7Byte(0, 0x40), 0) == 0x6D
  {
  }

  lemma GoIdleEnd()
    ensures Crc7Byte(Crc7Byte(Crc7Byte(0x6D, 0), 0), 0) == 0x4A
  {
  }

  lemma SendIfCondStart()
    ensures Crc7Byte(Crc7Byte(0, 0x48), 0) == 0x35
  {
  }

  lemma SendIfCondEnd()
    ensures Crc7Byte(Crc7Byte(Crc7Byte(0x35, 0), 1), 0xAA) == 0x43
  {
  }

  lemma GoIdleChecksum()
    ensures Crc7([0x40, 0, 0, 0, 0]) == 0x4A
  {
    hide Crc7, Crc7Byte;
    Crc7Five(0x40, 0, 0, 0, 0);
    GoIdleStart();
    GoIdleEnd();
  }

  lemma SendIfCondChecksum()
    ensures Crc7([0x48, 0, 0, 1, 0xAA]) == 0x43
  {
    hide Crc7, Crc7Byte;
    Crc7Five(0x48, 0, 0, 1, 0xAA);
    SendIfCondStart();
    SendIfCondEnd();
  }

  /** The two fixed last bytes carry the right CRC7 for the two frames that need one. */
  lemma FrameChecksums()
    ensures Frame(CMD0, 0)[5] as int == 2 * Crc7(Frame(CMD0, 0)[..5]) as int + 1
    ensures Frame(CMD8, 0x1AA)[5] as int == 2 * Crc7(Frame(CMD8, 0x1AA)[..5]) as int + 1
  {
    hide Crc7;
    GoIdleChecksum();
    SendIfCondChecksum();
    assert Frame(CMD0, 0)[..5] == [0x40, 0, 0, 0, 0];
    assert Frame(CMD8, 0x1AA)[..5] == [0x48, 0, 0, 1, 0xAA];
  }

  /** The arguments with which the driver sends the two commands whose CRC is checked. */
  predicate Sendable(index: Byte, arg: Word) {
    && index < 64
    && (index == CMD0 ==> arg == 0)
    && (index == CMD8 ==> arg == 0x1AA)
  }

  lemma FrameAccepted(index: Byte, arg: Word)
    requires Sendable(index, arg)
    ensures FrameOk(Frame(index, arg))
  {
    hide Crc7;
    FrameRoundTrip(index, arg);
    FrameChecksums();
  }

  // ---------------------------------------------------------------------------
  // Polls
  // ---------------------------------------------------------------------------

  function Put(b: Bus, c: Card, transfers: nat): Bus {
    b.(slot := Some(c), transfers := transfers)
  }

  lemma ClocksOne(b: Bus)
    ensures Clocks(b, 1) == (Clock(b).0, [Clock(b).1])
  {
    assert Clocks(Clock(b).0, 0) == (Clock(b).0, []);
    assert [Clock(b).1] + [] == [Clock(b).1];
  }

  /** A poll skips 0xFF bytes and ends on the first byte behind them. */
  lemma {:induction false} PollSkips(b: Bus, u: Until, n: nat, c: Card, k: nat, x: Byte, rest: seq<Byte>)
    requires b.selected && b.slot == Some(c) && c.out == Fill(k) + [x] + rest
    requires u != Ready && Stops(u, x) && k < n
    ensures Poll(b, u, n) == Polled(Put(b, c.(out := rest), b.transfers + k + 1), x, true)
    decreases n
  {
    var c' := c.(out := c.out[1..]);
    ClocksOne(b);
    if k > 0 {
      assert c'.out == Fill(k - 1) + [x] + rest;
      PollSkips(Put(b, c', b.transfers + 1), u, n - 1, c', k - 1, x, rest);
    } else {
      assert c'.out == rest;
    }
  }

  /** Too many 0xFF bytes: the poll gives up in the middle of them. */
  lemma {:induction false} PollGivesUp(b: Bus, u: Until, n: nat, c: Card, k: nat, rest: seq<Byte>)
    requires b.selected && b.slot == Some(c) && c.out == Fill(k) + rest
    requires u != Ready && 0 < n <= k
    ensures Poll(b, u, n) == Polled(Put(b, c.(out := Fill(k - n) + rest), b.transfers + n), 0xFF, false)
    decreases n
  {
    var c' := c.(out := c.out[1..]);
    ClocksOne(b);
    assert c'.out == Fill(k - 1) + rest;
    if n > 1 {
      PollGivesUp(Put(b, c', b.transfers + 1), u, n - 1, c', k - 1, rest);
    }
  }

  /** Nothing on the line: an empty socket, a deselected card, or a card with nothing to say. */
  predicate Silent(b: Bus) {
    !b.selected || b.slot.None? ||
    (b.slot.value.out == [] && b.slot.value.busy == 0 && !b.slot.value.phase.Sending?)
  }

  lemma {:induction false} SilentClocks(b: Bus, n: nat)
    requires Silent(b)
    ensures Clocks(b, n) == (b, Fill(n))
    decreases n
  {
    if n > 0 {
      SilentClocks(b, n - 1);
      assert [0xFF] + Fill(n - 1) == Fill(n);
    }
  }

  lemma {:induction false} PollSilence(b: Bus, u: Until, n: nat)
    requires Silent(b) && n > 0
    ensures Poll(b, u, n) ==
      if u == Ready then Polled(b.(transfers := b.transfers + 1), 0xFF, true)
      else Polled(b.(transfers := b.transfers + n), 0xFF, false)
    decreases n
  {
    SilentClocks(b, 1);
    if u != Ready && n > 1 {
      PollSilence(b.(transfers := b.transfers + 1), u, n - 1);
    }
  }

  /** A busy card holds the line low; the poll for readiness waits it out, up to a limit. */
  lemma {:induction false} PollBusy(b: Bus, n: nat, c: Card)
    requires b.selected && b.slot == Some(c) && c.out == [] && !c.phase.Sending? && n > 0
    ensures Poll(b, Ready, n).ok == (c.busy < n)
    ensures Poll(b, Ready, n).bus ==
      if c.busy < n then Put(b, c.(busy := 0), b.transfers + c.busy + 1)
      else Put(b, c.(busy := c.busy - n), b.transfers + n)
    decreases n
  {
    if c.busy == 0 {
      PollSilence(b, Ready, n);
    } else {
      var c' := c.(busy := c.busy - 1);
      ClocksOne(b);
      if n > 1 {
        PollBusy(Put(b, c', b.transfers + 1), n - 1, c');
      }
    }
  }

  /** Reading what the card has queued. */
  lemma {:induction false} ClocksQueued(b: Bus, n: nat, c: Card)
    requires b.selected && b.slot == Some(c) && n <= |c.out|
    ensures Clocks(b, n) == (b.(slot := Some(c.(out := c.out[n..]))), c.out[..n])
    decreases n
  {
    if n > 0 {
      var c' := c.(out := c.out[1..]);
      ClocksQueued(b.(slot := Some(c')), n - 1, c');
      assert c'.out[n - 1..] == c.out[n..];
      assert [c.out[0]] + c'.out[..n - 1] == c.out[..n];
    } else {
      assert c.out[0..] == c.out;
    }
  }

  // ---------------------------------------------------------------------------
  // Commands
  // ---------------------------------------------------------------------------

  /** A card between transactions: nothing queued and no transaction open. */
  function Rested(c: Card, busy: nat): Card {
    c.(phase := Waiting, out := [], busy := busy)
  }

  /** Selecting a card that is in no transaction waits out up to 5000 bytes of busy. */
  lemma Selecting(b: Bus, c: Card)
    requires !b.selected && b.slot == Some(c) && c.phase == Waiting && c.out == []
    ensures
      var (b', ok) := Select(b);
      && ok == (c.busy <= 5000)
      && b'.slot == Some(Rested(c, if ok then 0 else c.busy - 5001))
      && b'.selected == ok
      && b'.script == b.script && b'.tick == b.tick && b'.log == b.log
  {
    var b1 := SetCs(b, false);
    var c2 := c.(busy := if c.busy > 0 then c.busy - 1 else 0);
    ClocksOne(b1);
    var b2 := Recv(b1, 1).0;
    PollBusy(b2, 5000, c2);
    SilentClocks(SetCs(Poll(b2, Ready, 5000).bus, true), 1);
  }

  /** Reselecting a card does the same and drops everything else. */
  lemma Reselect(b: Bus, c: Card)
    requires b.slot == Some(c)
    ensures
      var (b', ok) := Select(Deselect(b));
      && ok == (c.busy <= 5000)
      && b'.slot == Some(Rested(c, if ok then 0 else c.busy - 5001))
      && b'.selected == ok
      && b'.script == b.script && b'.tick == b.tick && b'.log == b.log
  {
    SilentClocks(SetCs(b, true), 1);
    hide Select, Poll;
    Selecting(Deselect(b), Rested(c, c.busy));
  }

  /** What the card does with a command before any of its answer is read. */
  function Reaction(c: Card, index: Byte, arg: Word, rep: Reply): (a: Answer)
    ensures a.r1 < 0x80
  {
    var rest := c.(phase := Waiting, out := [], app := false);
    if Fault(rep.error) != 0 then Answer(rest, Fault(rep.error), [])
    else Execute(rest, c.app, index, arg, rep)
  }

  /** The effect of a command on a rested, ready card, and the response the host latches. */
  function Outcome(c: Card, index: Byte, arg: Word, rep: Reply): (Card, Byte) {
    var rest := c.(phase := Waiting, out := [], app := false);
    if rep.silent || (!c.spi && index != CMD0) then (rest, 0xFF) else
    var a := Reaction(c, index, arg, rep);
    if rep.fill < 10 then (a.card.(out := a.tail), a.r1)
    else (a.card.(out := Fill(rep.fill - 10) + [a.r1] + a.tail), 0xFF)
  }

  lemma CardHears(c: Card, index: Byte, arg: Word, rep: Reply)
    requires Sendable(index, arg) && index != CMD12
    requires c.phase == Waiting
    ensures OnBurst(c, Frame(index, arg), rep) ==
      if rep.silent || (!c.spi && index != CMD0) then c.(phase := Waiting, out := [], app := false)
      else
        var a := Reaction(c, index, arg, rep);
        a.card.(out := Fill(rep.fill) + [a.r1] + a.tail)
  {
    FrameRoundTrip(index, arg);
    FrameAccepted(index, arg);
    hide Crc7, FrameOk, FrameIndex, FrameArg, Execute, Frame;
    var rest := c.(phase := Waiting, out := [], app := false);
    if Fault(rep.error) != 0 {
      assert Fill(rep.fill) + [Fault(rep.error)] + [] == Fill(rep.fill) + [Fault(rep.error)];
      assert [] + Fill(rep.fill) == Fill(rep.fill);
    } else {
      assert [] + Fill(rep.fill) == Fill(rep.fill);
    }
  }

  lemma IssueOutcome(b: Bus, c: Card, index: Byte, arg: Word)
    requires b.selected && b.slot == Some(c) && c == Rested(c, 0)
    requires Sendable(index, arg) && index != CMD12
    ensures
      var (b', r) := Issue(b, index, arg);
      && Some(Outcome(c, index, arg, b.script(b.tick)).0) == b'.slot
      && Outcome(c, index, arg, b.script(b.tick)).1 == r
      && b'.selected && b'.script == b.script && b'.tick == b.tick + 1
      && b'.log == b.log + [Exchange(index, arg, r)]
  {
    hide OnBurst, Execute, Fault, Poll, Frame;
    var rep := b.script(b.tick);
    CardHears(c, index, arg, rep);
    var sent := Send(b, Frame(index, arg));
    var c1 := sent.slot.value;
    if rep.silent || (!c.spi && index != CMD0) {
      PollSilence(sent, Response, 10);
    } else {
      var a := Reaction(c, index, arg, rep);
      if rep.fill < 10 {
        PollSkips(sent, Response, 10, c1, rep.fill, a.r1, a.tail);
      } else {
        assert c1.out == Fill(rep.fill) + ([a.r1] + a.tail);
        PollGivesUp(sent, Response, 10, c1, rep.fill, [a.r1] + a.tail);
        assert Fill(rep.fill - 10) + ([a.r1] + a.tail) == Fill(rep.fill - 10) + [a.r1] + a.tail;
      }
    }
  }

  /** send_cmd of a plain command, in one step. */
  lemma CommandOutcome(b: Bus, c: Card, index: Byte, arg: Word)
    requires b.slot == Some(c)
    requires Sendable(index, arg) && index != CMD12
    ensures
      var (b', r) := Command(b, index, arg);
      var (c', r') := Outcome(Rested(c, 0), index, arg, b.script(b.tick));
      && b'.script == b.script
      && if c.busy <= 5000 then
           && b'.slot == Some(c') && r == r'
           && b'.selected && b'.tick == b.tick + 1
           && b'.log == b.log + [Exchange(index, arg, r)]
         else
           && b'.slot == Some(Rested(c, c.busy - 5001)) && r == 0xFF
           && !b'.selected && b'.tick == b.tick && b'.log == b.log
  {
    hide Select, Issue;
    Reselect(b, c);
    var (ready, ok) := Select(Deselect(b));
    if ok {
      IssueOutcome(ready, Rested(c, 0), index, arg);
    }
  }

  // ---------------------------------------------------------------------------
  // Data blocks
  // ---------------------------------------------------------------------------

  /** What is left of a card when transactions, queued bytes and busy time are ignored. */
  function Core(c: Card): Card {
    Rested(c, 0)
  }

  lemma ClockKeepsCore(b: Bus, c: Card)
    requires b.slot == Some(c)
    ensures Clock(b).0.slot.Some? && Core(Clock(b).0.slot.value) == Core(c)
    ensures Clock(b).0.slot.value.busy <= c.busy
    ensures Clock(b).0.selected == b.selected && Clock(b).0.script == b.script
    ensures Clock(b).0.log == b.log && Clock(b).0.transfers == b.transfers
  {
  }

  lemma {:induction false} PollKeepsCore(b: Bus, u: Until, n: nat, c: Card)
    requires b.slot == Some(c) && n > 0
    ensures
      var b' := Poll(b, u, n).bus;
      && b'.slot.Some? && Core(b'.slot.value) == Core(c) && b'.slot.value.busy <= c.busy
      && b'.selected == b.selected && b'.script == b.script && b'.log == b.log
    decreases n
  {
    ClocksOne(b);
    ClockKeepsCore(b, c);
    if n > 1 && !Stops(u, Recv(b, 1).1[0]) {
      PollKeepsCore(Recv(b, 1).0, u, n - 1, Recv(b, 1).0.slot.value);
    }
  }

  /** The packet a sending card delivers next, and the card afterwards. */
  function Delivery(c: Card, rep: Reply): (Card, Option<seq<Byte>>)
    requires c.phase.Sending?
  {
    var c' := Refill(c, rep);
    if c'.out == [] then (c', None)
    else if rep.wait >= 1000 then (c'.(out := c'.out[1000..]), None)
    else if c'.out[rep.wait] != 0xFE then (c'.(out := c'.out[rep.wait + 1..]), None)
    else (c'.(out := []), Some(c'.out[rep.wait + 1..|c'.out| - 2]))
  }

  function PacketSize(c: Card): nat
    requires c.phase.Sending?
  {
    if c.phase.source.Sectors? then 512 else 16
  }

  lemma PollFrom(b: Bus, b1: Bus, u: Until, n: nat)
    requires Clock(b) == Clock(b1) && n > 0
    ensures Poll(b, u, n) == Poll(b1, u, n)
  {
    ClocksOne(b);
    ClocksOne(b1);
  }

  /** The packet behind the token, and the token behind `wait` bytes of 0xFF. */
  lemma RefillShape(c: Card, rep: Reply)
    requires c.phase.Sending?
    ensures
      var c' := Refill(c, rep);
      c'.out != [] ==>
        && rep.wait < |c'.out|
        && c'.out == Fill(rep.wait) + [c'.out[rep.wait]] + c'.out[rep.wait + 1..]
        && c'.out[rep.wait] != 0xFF
        && (c'.out[rep.wait] == 0xFE ==> |c'.out| == rep.wait + PacketSize(c) + 3)
    ensures Core(Refill(c, rep)) == Core(c) && Refill(c, rep).busy == c.busy
    ensures Refill(c, rep).out == [] ==> !Refill(c, rep).phase.Sending?
  {
    var c' := Refill(c, rep);
    if c'.out != [] {
      assert c'.out[..rep.wait] == Fill(rep.wait);
    }
  }

  /** The poll for a data token on a card that has just queued a packet. */
  lemma PacketFound(b: Bus, c: Card, wait: nat)
    requires b.selected && b.slot == Some(c) && wait < |c.out| && c.out[wait] != 0xFF
    requires c.out == Fill(wait) + [c.out[wait]] + c.out[wait + 1..]
    ensures
      var p := Poll(b, Token, 1000);
      && p.bus == Put(b, c.(out := if wait < 1000 then c.out[wait + 1..] else c.out[1000..]), p.bus.transfers)
      && p.last == if wait < 1000 then c.out[wait] else 0xFF
  {
    if wait < 1000 {
      PollSkips(b, Token, 1000, c, wait, c.out[wait], c.out[wait + 1..]);
    } else {
      assert c.out == Fill(wait) + c.out[wait..];
      PollGivesUp(b, Token, 1000, c, wait, c.out[wait..]);
      assert Fill(wait - 1000) + c.out[wait..] == c.out[1000..];
    }
  }

  /** The data block and its two CRC bytes. */
  lemma PacketRead(b: Bus, c: Card, n: nat)
    requires b.selected && b.slot == Some(c) && |c.out| == n + 2
    ensures
      var (b1, data) := Recv(b, n);
      var b2 := Recv(b1, 2).0;
      && data == c.out[..n] && b2.slot == Some(c.(out := []))
      && b2.selected && b2.script == b.script && b2.tick == b.tick && b2.log == b.log
  {
    ClocksQueued(b, n, c);
    ClocksQueued(Recv(b, n).0, 2, c.(out := c.out[n..]));
    assert c.out[n..][2..] == [];
  }

  /** rcvr_datablock on a sending card, in one step. */
  lemma BlockDelivered(b: Bus, c: Card)
    requires b.selected && b.slot == Some(c) && c.out == [] && c.busy == 0 && c.phase.Sending?
    ensures
      var (b', data) := ReceiveBlock(b, PacketSize(c));
      var (c', data') := Delivery(c, b.script(b.tick));
      && b'.slot == Some(c') && data == data'
      && b'.selected && b'.script == b.script && b'.tick == b.tick + 1 && b'.log == b.log
  {
    var rep := b.script(b.tick);
    RefillShape(c, rep);
    var c1 := Refill(c, rep);
    var b1 := b.(slot := Some(c1), tick := b.tick + 1);
    assert Clock(b) == Clock(b1);
    PollFrom(b, b1, Token, 1000);
    hide Refill, Clock, Clocks, Poll, Recv;
    if c1.out == [] {
      PollSilence(b1, Token, 1000);
    } else {
      PacketFound(b1, c1, rep.wait);
      if rep.wait < 1000 && c1.out[rep.wait] == 0xFE {
        var rest := c1.out[rep.wait + 1..];
        PacketRead(Poll(b1, Token, 1000).bus, c1.(out := rest), PacketSize(c));
        assert rest[..PacketSize(c)] == c1.out[rep.wait + 1..|c1.out| - 2];
      }
    }
  }

  /** A card after a data block was sent to it. */
  function Programmed(c: Card, data: Block, rep: Reply): Card
    requires c.phase.AwaitToken?
  {
    var s := c.phase.sector;
    var stored := DataResponse(c, s, rep) % 32 == 5;
    c.(out := [],
       flash := if stored && s < |c.flash| then c.flash[s := data] else c.flash,
       busy := if stored then rep.busy else 0,
       phase := if c.phase.multi then AwaitToken(if stored then s + 1 else s, true) else Waiting)
  }

  lemma QueuedThree(b: Bus, c: Card, x: Byte, y: Byte, z: Byte)
    requires b.selected && b.slot == Some(c) && c.out == [x, y, z]
    ensures
      var (b', d) := Recv(Recv(b, 2).0, 1);
      && b'.slot == Some(c.(out := [])) && d == [z]
      && b'.selected && b'.script == b.script && b'.tick == b.tick && b'.log == b.log
  {
    ClocksQueued(b, 2, c);
    var c2 := c.(out := c.out[2..]);
    assert c2.out == [z];
    ClocksQueued(Recv(b, 2).0, 1, c2);
    assert c2.out[1..] == [] && c2.out[..1] == [z];
    hide Clocks;
  }

  lemma BurstProgrammed(c: Card, data: Block, rep: Reply)
    requires c.phase.AwaitToken?
    ensures
      var c1 := c.(busy := 0, phase := AwaitData(c.phase.sector, c.phase.multi));
      OnBurst(c1, data, rep) == Programmed(c, data, rep).(out := [0xFF, 0xFF, DataResponse(c, c.phase.sector, rep)])
  {
  }

  /** xmit_datablock once the card is ready. */
  lemma ReadyBlockTaken(b: Bus, c: Card, data: Block)
    requires b.selected && b.slot == Some(c) && c.out == [] && c.phase.AwaitToken? && c.busy == 0
    ensures
      var token: Byte := if c.phase.multi then 0xFC else 0xFE;
      var (b', d) := Recv(Recv(Send(Send(b, [token]), data), 2).0, 1);
      var rep := b.script(b.tick + 1);
      && b'.selected && b'.script == b.script && b'.log == b.log && b'.tick == b.tick + 2
      && d == [DataResponse(c, c.phase.sector, rep)] && b'.slot == Some(Programmed(c, data, rep))
  {
    hide Recv;
    var token: Byte := if c.phase.multi then 0xFC else 0xFE;
    var b2 := Send(b, [token]);
    var rep := b.script(b.tick + 1);
    assert b2.slot == Some(c.(busy := 0, phase := AwaitData(c.phase.sector, c.phase.multi)));
    BurstProgrammed(c, data, rep);
    hide OnBurst, Programmed, DataResponse;
    var b3 := Send(b2, data);
    QueuedThree(b3, b3.slot.value, 0xFF, 0xFF, DataResponse(c, c.phase.sector, rep));
  }

  /** xmit_datablock with the right data token, in one step: accepted means programmed. */
  lemma BlockTaken(b: Bus, c: Card, data: Block)
    requires b.selected && b.slot == Some(c) && c.out == [] && c.phase.AwaitToken?
    ensures
      var (b', ok) := TransmitBlock(b, data, if c.phase.multi then 0xFC else 0xFE);
      var rep := b.script(b.tick + 1);
      && b'.selected && b'.script == b.script && b'.log == b.log
      && if c.busy < 5000 then
           && ok == (DataResponse(c, c.phase.sector, rep) % 32 == 5)
           && b'.slot == Some(Programmed(c, data, rep)) && b'.tick == b.tick + 2
         else
           !ok && b'.slot == Some(c.(busy := c.busy - 5000))
  {
    hide Poll, Recv, Send, DataResponse, Programmed;
    PollBusy(b, 5000, c);
    if c.busy < 5000 {
      ReadyBlockTaken(Poll(b, Ready, 5000).bus, c.(busy := 0), data);
      SameProgrammed(c, c.(busy := 0), data, b.script(b.tick + 1));
    }
  }

  /** Neither the data response nor its effect depends on how busy the card was. */
  lemma SameProgrammed(c: Card, c': Card, data: Block, rep: Reply)
    requires c.phase.AwaitToken? && c' == c.(busy := 0)
    ensures Programmed(c, data, rep) == Programmed(c', data, rep)
    ensures DataResponse(c, c.phase.sector, rep) == DataResponse(c', c.phase.sector, rep)
  {
  }

  /** The stop token ends a multiple block write unless the card stays busy too long. */
  lemma StopTaken(b: Bus, c: Card)
    requires b.selected && b.slot == Some(c) && c.out == [] && c.phase.AwaitToken? && c.phase.multi
    ensures
      var (b', ok) := TransmitBlock(b, [], STOP);
      && ok == (c.busy < 5000)
      && b'.slot == Some(if ok then c.(phase := Waiting, busy := b.script(b.tick).busy)
                         else c.(busy := c.busy - 5000))
      && b'.tick == (if ok then b.tick + 1 else b.tick)
      && b'.selected && b'.script == b.script && b'.log == b.log
  {
    PollBusy(b, 5000, c);
    hide Poll;
  }
}
