/**
 csrc/src/lwm2m/memtrace.c: the tracing allocator, its list of live blocks and its
 quarantine of the two hundred most recently freed ones.

 `State` and the functions on it are the allocator as a machine on values; the class
 `Tracer` has the two linked lists, relinked in place, and refines that machine.
 */
module MemTrace {

  datatype Site = Site(file: string, function_: string, lineno: int)

  class Entry {
    var next: Entry?
    var site: Site
    var size: nat
    var count: int

    constructor (site: Site)
      ensures next == null && this.site == site && size == 0 && count == 0
    {
      next, this.site, size, count := null, site, 0, 0;
    }
  }

  // ---------------------------------------------------------------------------
  // The allocator as a machine
  // ---------------------------------------------------------------------------

  /** A traced block: the memory handed out, its size and number, where it was last touched. */
  datatype Block = Block(memory: Entry, size: nat, number: int, site: Site)

  /** Both lists, first to last, with the counters kept in their head entries. */
  datatype State = State(
    live: seq<Block>, liveCount: int, liveSize: nat,
    freed: seq<Block>, freedCount: int, counter: int)

  /** size_t is 32 bits wide. */
  const SIZE_MODULUS := 0x1_0000_0000

  const QUARANTINE := 200

  function Malloc(s: State, memory: Entry, size: nat, site: Site): State {
    s.(live := [Block(memory, size, s.counter + 1, site)] + s.live,
       liveCount := s.liveCount + 1,
       liveSize := (s.liveSize + size) % SIZE_MODULUS,
       counter := s.counter + 1)
  }

  /** Position of a block in a list, or the list's length. */
  function Find(blocks: seq<Block>, memory: Entry): (i: nat)
    ensures i <= |blocks|
    ensures i < |blocks| ==> blocks[i].memory == memory
    ensures forall j :: 0 <= j < i ==> blocks[j].memory != memory
  {
    if blocks == [] then 0
    else if blocks[0].memory == memory then 0
    else 1 + Find(blocks[1..], memory)
  }

  /** Put a block at the head of the quarantine; a full one pushes its last block out. */
  function Quarantine(freed: seq<Block>, count: int, b: Block): (seq<Block>, int, seq<Entry>) {
    if count < QUARANTINE then ([b] + freed, count + 1, [])
    else if freed == [] then ([b], count, [])
    else ([b] + freed[..|freed| - 1], count, [freed[|freed| - 1].memory])
  }

  datatype Report = Quiet | NotAllocated | AlreadyFreed(site: Site)

  /** A free, what it reports, and what it returns to the host allocator. */
  function Free(s: State, memory: Entry, site: Site): (State, Report, seq<Entry>) {
    var i := Find(s.live, memory);
    if i < |s.live| then
      var b := s.live[i];
      var (freed, count, returned) := Quarantine(s.freed, s.freedCount, b.(site := site));
      (s.(live := s.live[..i] + s.live[i + 1..],
          liveCount := s.liveCount - 1,
          liveSize := (s.liveSize - b.size) % SIZE_MODULUS,
          freed := freed, freedCount := count),
       Quiet, returned)
    else
      var j := Find(s.freed, memory);
      (s, if j < |s.freed| then AlreadyFreed(s.freed[j].site) else NotAllocated, [])
  }

  // ---------------------------------------------------------------------------
  // What every state keeps
  // ---------------------------------------------------------------------------

  function Total(blocks: seq<Block>): nat {
    if blocks == [] then 0 else blocks[0].size + Total(blocks[1..])
  }

  function Memories(blocks: seq<Block>): (r: seq<Entry>)
    ensures |r| == |blocks| && forall i :: 0 <= i < |r| ==> r[i] == blocks[i].memory
  {
    if blocks == [] then [] else [blocks[0].memory] + Memories(blocks[1..])
  }

  predicate Distinct<T(==)>(s: seq<T>) {
    forall i, j :: 0 <= i < j < |s| ==> s[i] != s[j]
  }

  predicate Holds(s: State, memory: Entry) {
    memory in Memories(s.live) || memory in Memories(s.freed)
  }

  /**
   The counters in the head entries agree with the lists, allocation numbers strictly
   decrease along the live list, no block is twice in the lists.
   */
  predicate Consistent(s: State) {
    && s.liveCount == |s.live|
    && s.liveSize == Total(s.live) % SIZE_MODULUS
    && s.freedCount == |s.freed| <= QUARANTINE
    && Distinct(Memories(s.live) + Memories(s.freed))
    && (forall i, j :: 0 <= i < j < |s.live| ==> s.live[i].number > s.live[j].number)
    && (forall i :: 0 <= i < |s.live| ==> s.live[i].number <= s.counter)
  }

  const EMPTY: State := State([], 0, 0, [], 0, 0)

  /** The host allocator hands out only blocks the tracer does not hold. */
  lemma MallocKeeps(s: State, memory: Entry, size: nat, site: Site)
    requires Consistent(s) && !Holds(s, memory)
    ensures Consistent(Malloc(s, memory, size, site))
  {
    var s' := Malloc(s, memory, size, site);
    assert s'.live[1..] == s.live;
    assert Memories(s'.live) + Memories(s.freed) == [memory] + (Memories(s.live) + Memories(s.freed));
    assert forall i :: 0 <= i < |s.live| ==> s'.live[i + 1] == s.live[i];
  }

  lemma {:induction false} TotalWithout(blocks: seq<Block>, i: nat)
    requires i < |blocks|
    ensures Total(blocks) == Total(blocks[..i] + blocks[i + 1..]) + blocks[i].size
  {
    if i == 0 {
      assert blocks[..0] + blocks[1..] == blocks[1..];
    } else {
      TotalWithout(blocks[1..], i - 1);
      assert (blocks[..i] + blocks[i + 1..])[1..] == blocks[1..][..i - 1] + blocks[1..][i..];
    }
  }

  /** Taking a block out of the middle and putting it in front of the rest keeps blocks distinct. */
  lemma MoveKeepsDistinct(live: seq<Entry>, freed: seq<Entry>, i: nat, kept: nat)
    requires Distinct(live + freed) && i < |live| && kept <= |freed|
    ensures Distinct(live[..i] + live[i + 1..] + ([live[i]] + freed[..kept]))
  {
    var all := live + freed;
    var moved := live[..i] + live[i + 1..] + ([live[i]] + freed[..kept]);
    forall j, k | 0 <= j < k < |moved| ensures moved[j] != moved[k] {
      var n := |live| - 1;
      var j' := if j < i then j else if j < n then j + 1 else if j == n then i else j;
      var k' := if k < i then k else if k < n then k + 1 else if k == n then i else k;
      assert moved[j] == all[j'] && moved[k] == all[k'] && j' != k';
      if j' < k' { assert all[j'] != all[k']; } else { assert all[k'] != all[j']; }
    }
  }

  lemma MemoriesWithout(live: seq<Block>, i: nat)
    requires i < |live|
    ensures Memories(live[..i] + live[i + 1..]) == Memories(live)[..i] + Memories(live)[i + 1..]
  {
    hide Memories;
  }

  lemma MemoriesInFront(b: Block, freed: seq<Block>, kept: nat)
    requires kept <= |freed|
    ensures Memories([b] + freed[..kept]) == [b.memory] + Memories(freed)[..kept]
  {
    hide Memories;
  }

  /** The live list after a block is unlinked. */
  lemma UnlinkKeeps(s: State, i: nat)
    requires Consistent(s) && i < |s.live|
    ensures
      var live := s.live[..i] + s.live[i + 1..];
      && (s.liveSize - s.live[i].size) % SIZE_MODULUS == Total(live) % SIZE_MODULUS
      && (forall j, k :: 0 <= j < k < |live| ==> live[j].number > live[k].number)
      && (forall j :: 0 <= j < |live| ==> live[j].number <= s.counter)
  {
    hide Memories, Distinct;
    TotalWithout(s.live, i);
    hide Total;
  }

  lemma FreeKeeps(s: State, memory: Entry, site: Site)
    requires Consistent(s)
    ensures Consistent(Free(s, memory, site).0)
  {
    hide Memories, Total, Distinct;
    var i := Find(s.live, memory);
    if i < |s.live| {
      var b := s.live[i].(site := site);
      var kept := if s.freedCount < QUARANTINE then |s.freed| else |s.freed| - 1;
      UnlinkKeeps(s, i);
      MoveKeepsDistinct(Memories(s.live), Memories(s.freed), i, kept);
      MemoriesWithout(s.live, i);
      MemoriesInFront(b, s.freed, kept);
      assert s.freed[..|s.freed|] == s.freed;
    }
  }

  /** Freeing a pointer in the quarantine, or one the tracer does not know, changes nothing. */
  lemma StrayFreeChangesNothing(s: State, memory: Entry, site: Site)
    ensures memory !in Memories(s.live) <==> Free(s, memory, site).1 != Quiet
    ensures memory !in Memories(s.live) ==>
      && Free(s, memory, site).0 == s && Free(s, memory, site).2 == []
      && (Free(s, memory, site).1.AlreadyFreed? <==> memory in Memories(s.freed))
  {
    var i, j := Find(s.live, memory), Find(s.freed, memory);
    assert i < |s.live| ==> Memories(s.live)[i] == memory;
    assert j < |s.freed| ==> Memories(s.freed)[j] == memory;
  }

  // ---------------------------------------------------------------------------
  // Whole histories
  // ---------------------------------------------------------------------------

  datatype Op = DoMalloc(memory: Entry, size: nat, site: Site) | DoFree(memory: Entry, site: Site)

  /** A state with everything that led to it. */
  datatype History = History(state: State, mallocs: seq<Entry>, frees: seq<Block>, returned: seq<Entry>)

  function Step(h: History, op: Op): History {
    match op
    case DoMalloc(memory, size, site) =>
      h.(state := Malloc(h.state, memory, size, site), mallocs := h.mallocs + [memory])
    case DoFree(memory, site) =>
      var i := Find(h.state.live, memory);
      var (state, report, returned) := Free(h.state, memory, site);
      h.(state := state,
         frees := if i < |h.state.live| then h.frees + [h.state.live[i].(site := site)] else h.frees,
         returned := h.returned + returned)
  }

  function Run(ops: seq<Op>): History {
    if ops == [] then History(EMPTY, [], [], [])
    else Step(Run(ops[..|ops| - 1]), ops[|ops| - 1])
  }

  /** The host never hands out a block that the tracer still holds. */
  predicate HostHonest(ops: seq<Op>) {
    forall i :: 0 <= i < |ops| && ops[i].DoMalloc? ==> !Holds(Run(ops[..i]).state, ops[i].memory)
  }

  /** The last `n` elements, newest first. */
  function Newest(s: seq<Block>, n: nat): (r: seq<Block>)
    ensures |r| == if n < |s| then n else |s|
    ensures forall i :: 0 <= i < |r| ==> r[i] == s[|s| - 1 - i]
  {
    if n == 0 || s == [] then [] else [s[|s| - 1]] + Newest(s[..|s| - 1], n - 1)
  }

  function Older(s: seq<Block>): seq<Block> {
    if |s| <= QUARANTINE then [] else s[..|s| - QUARANTINE]
  }

  /**
   The quarantine is exactly the 200 most recent successful frees, newest first, and
   the host has got back exactly the ones before those, oldest first.
   */
  predicate Windowed(h: History) {
    && h.state.freed == Newest(h.frees, QUARANTINE)
    && h.returned == Memories(Older(h.frees))
  }

  /** Every block ever handed out is live, in quarantine or returned, as often as it was handed out. */
  predicate Conserved(h: History) {
    multiset(h.mallocs) ==
      multiset(Memories(h.state.live)) + multiset(Memories(h.state.freed)) + multiset(h.returned)
  }

  lemma WindowStep(h: History, b: Block)
    requires Windowed(h) && h.state.freedCount == |h.state.freed|
    ensures
      var (freed, count, returned) := Quarantine(h.state.freed, h.state.freedCount, b);
      && freed == Newest(h.frees + [b], QUARANTINE)
      && h.returned + returned == Memories(Older(h.frees + [b]))
  {
    var frees := h.frees + [b];
    if |h.frees| >= QUARANTINE {
      assert Older(frees) == Older(h.frees) + [frees[|h.frees| - QUARANTINE]];
      assert h.state.freed[QUARANTINE - 1] == h.frees[|h.frees| - QUARANTINE];
    }
  }

  lemma QuarantineConserves(freed: seq<Block>, count: int, b: Block)
    requires count < QUARANTINE || freed != []
    ensures
      var (freed', count', returned) := Quarantine(freed, count, b);
      multiset(Memories(freed')) + multiset(returned) == multiset(Memories(freed)) + multiset{b.memory}
  {
    hide Memories;
    var m := Memories(freed);
    if count < QUARANTINE {
      assert Memories([b] + freed) == [b.memory] + m;
    } else {
      assert Memories([b] + freed[..|freed| - 1]) == [b.memory] + m[..|m| - 1];
      assert Memories([freed[|freed| - 1]]) == [m[|m| - 1]];
      assert m == m[..|m| - 1] + [m[|m| - 1]];
    }
  }

  lemma RemoveConserves(live: seq<Block>, i: nat)
    requires i < |live|
    ensures multiset(Memories(live)) == multiset(Memories(live[..i] + live[i + 1..])) + multiset{live[i].memory}
  {
    hide Memories;
    var m := Memories(live);
    MemoriesWithout(live, i);
    SplitAt(m, i);
  }

  lemma SplitAt(m: seq<Entry>, i: nat)
    requires i < |m|
    ensures multiset(m) == multiset(m[..i] + m[i + 1..]) + multiset{m[i]}
  {
    assert m == m[..i] + ([m[i]] + m[i + 1..]);
  }

  ghost predicate Sound(h: History) {
    Consistent(h.state) && Windowed(h) && Conserved(h)
  }

  lemma MallocSound(h: History, memory: Entry, size: nat, site: Site)
    requires Sound(h) && !Holds(h.state, memory)
    ensures Sound(Step(h, DoMalloc(memory, size, site)))
  {
    MallocKeeps(h.state, memory, size, site);
    hide Consistent, Newest;
    var s' := Malloc(h.state, memory, size, site);
    assert Memories(s'.live) == [memory] + Memories(h.state.live);
  }

  lemma Rebalance(live: multiset<Entry>, freed: multiset<Entry>, returned: multiset<Entry>,
                  live': multiset<Entry>, freed': multiset<Entry>, back: multiset<Entry>, x: Entry)
    requires live == live' + multiset{x} && freed' + back == freed + multiset{x}
    ensures live + freed + returned == live' + freed' + (returned + back)
  {
    calc {
      live + freed + returned;
      live' + (freed + multiset{x}) + returned;
      live' + (freed' + back) + returned;
    }
  }

  lemma RoomOrFull(h: History)
    requires Sound(h)
    ensures h.state.freedCount < QUARANTINE || h.state.freed != []
  {
    hide Windowed, Conserved;
  }

  lemma FreeConserves(h: History, memory: Entry, site: Site)
    requires Sound(h) && Find(h.state.live, memory) < |h.state.live|
    ensures Conserved(Step(h, DoFree(memory, site)))
  {
    hide Consistent, Windowed, Memories, Quarantine, Find;
    RoomOrFull(h);
    var i := Find(h.state.live, memory);
    var b := h.state.live[i].(site := site);
    var (freed, count, returned) := Quarantine(h.state.freed, h.state.freedCount, b);
    var live := h.state.live[..i] + h.state.live[i + 1..];
    QuarantineConserves(h.state.freed, h.state.freedCount, b);
    RemoveConserves(h.state.live, i);
    Rebalance(multiset(Memories(h.state.live)), multiset(Memories(h.state.freed)), multiset(h.returned),
              multiset(Memories(live)), multiset(Memories(freed)), multiset(returned), b.memory);
    assert multiset(h.returned + returned) == multiset(h.returned) + multiset(returned);
  }

  lemma FreeWindowed(h: History, memory: Entry, site: Site)
    requires Sound(h) && Find(h.state.live, memory) < |h.state.live|
    ensures Windowed(Step(h, DoFree(memory, site)))
  {
    var i := Find(h.state.live, memory);
    WindowStep(h, h.state.live[i].(site := site));
    hide Consistent, Conserved, Newest, Memories, Quarantine, Older;
  }

  lemma FreeSound(h: History, memory: Entry, site: Site)
    requires Sound(h)
    ensures Sound(Step(h, DoFree(memory, site)))
  {
    hide Consistent, Conserved, Windowed, Find, Quarantine;
    FreeKeeps(h.state, memory, site);
    if Find(h.state.live, memory) < |h.state.live| {
      FreeConserves(h, memory, site);
      FreeWindowed(h, memory, site);
    } else {
      assert h.returned + [] == h.returned;
    }
  }

  /** After any history of mallocs and frees: counters right, window right, nothing lost or doubled. */
  lemma {:induction false} EveryHistory(ops: seq<Op>)
    requires HostHonest(ops)
    ensures Consistent(Run(ops).state) && Windowed(Run(ops)) && Conserved(Run(ops))
    decreases |ops|
  {
    hide Consistent, Step, Windowed, Conserved;
    if ops == [] {
      NothingYet();
    } else {
      var k := |ops| - 1;
      assert forall i :: 0 <= i < k ==> ops[..k][..i] == ops[..i];
      EveryHistory(ops[..k]);
      match ops[k]
      case DoMalloc(memory, size, site) => MallocSound(Run(ops[..k]), memory, size, site);
      case DoFree(memory, site) => FreeSound(Run(ops[..k]), memory, site);
    }
  }

  lemma NothingYet()
    ensures Sound(History(EMPTY, [], [], []))
  {
  }

  // ---------------------------------------------------------------------------
  // The lists, from the requests alone
  // ---------------------------------------------------------------------------

  datatype Option<T> = None | Some(value: T)

  function Mallocs(ops: seq<Op>): nat {
    if ops == [] then 0
    else Mallocs(ops[..|ops| - 1]) + (if ops[|ops| - 1].DoMalloc? then 1 else 0)
  }

  /** The request that allocated a block which has not been freed since. */
  function Allocated(ops: seq<Op>, memory: Entry): (i: Option<nat>)
    ensures i.Some? ==> i.value < |ops| && ops[i.value].DoMalloc? && ops[i.value].memory == memory
  {
    if ops == [] then None
    else if ops[|ops| - 1].memory == memory then
      (if ops[|ops| - 1].DoMalloc? then Some(|ops| - 1) else None)
    else Allocated(ops[..|ops| - 1], memory)
  }

  /** What the `i`-th request asked for; its number counts the allocations up to it. */
  function Asked(ops: seq<Op>, i: nat): Block
    requires i < |ops| && ops[i].DoMalloc?
  {
    Block(ops[i].memory, ops[i].size, Mallocs(ops[..i + 1]), ops[i].site)
  }

  /** Of the first `k` requests, those whose blocks are still allocated, newest first. */
  function Open(ops: seq<Op>, k: nat): seq<Block>
    requires k <= |ops|
  {
    if k == 0 then []
    else if ops[k - 1].DoMalloc? && Allocated(ops, ops[k - 1].memory) == Some(k - 1) then
      [Asked(ops, k - 1)] + Open(ops, k - 1)
    else Open(ops, k - 1)
  }

  /** The frees of allocated blocks, oldest first, each with the place that freed it. */
  function Freed(ops: seq<Op>): seq<Block> {
    if ops == [] then []
    else
      var front, op := ops[..|ops| - 1], ops[|ops| - 1];
      var i := Allocated(front, op.memory);
      if op.DoFree? && i.Some? then Freed(front) + [Asked(front, i.value).(site := op.site)]
      else Freed(front)
  }

  function Without(blocks: seq<Block>, memory: Entry): seq<Block> {
    if blocks == [] then []
    else (if blocks[0].memory == memory then [] else [blocks[0]]) + Without(blocks[1..], memory)
  }

  predicate Once(blocks: seq<Block>) {
    forall j, k :: 0 <= j < k < |blocks| ==> blocks[j].memory != blocks[k].memory
  }

  lemma {:induction false} WithoutAbsent(blocks: seq<Block>, memory: Entry)
    requires forall i :: 0 <= i < |blocks| ==> blocks[i].memory != memory
    ensures Without(blocks, memory) == blocks
  {
    if blocks != [] {
      assert forall i :: 0 <= i < |blocks| - 1 ==> blocks[1..][i] == blocks[i + 1];
      WithoutAbsent(blocks[1..], memory);
    }
  }

  lemma {:induction false} WithoutUnlinks(blocks: seq<Block>, memory: Entry)
    requires Once(blocks)
    ensures
      var i := Find(blocks, memory);
      Without(blocks, memory) == if i < |blocks| then blocks[..i] + blocks[i + 1..] else blocks
  {
    if blocks != [] {
      var rest := blocks[1..];
      assert forall i :: 0 <= i < |rest| ==> rest[i] == blocks[i + 1];
      if blocks[0].memory == memory {
        WithoutAbsent(rest, memory);
      } else {
        WithoutUnlinks(rest, memory);
        Unlinked(blocks, Find(rest, memory));
      }
    }
  }

  lemma Unlinked(blocks: seq<Block>, i: nat)
    requires blocks != []
    ensures i < |blocks| - 1 ==>
      blocks[..i + 1] + blocks[i + 2..] == [blocks[0]] + (blocks[1..][..i] + blocks[1..][i + 1..])
  {
  }

  lemma NoneWithout(memory: Entry)
    ensures Without([], memory) == []
  {
  }

  lemma WithoutFirst(b: Block, blocks: seq<Block>, memory: Entry)
    ensures Without([b] + blocks, memory) == (if b.memory == memory then [] else [b]) + Without(blocks, memory)
  {
    assert ([b] + blocks)[1..] == blocks;
  }

  lemma AllocatedLater(ops: seq<Op>, op: Op, memory: Entry)
    ensures Allocated(ops + [op], memory) ==
      if op.memory != memory then Allocated(ops, memory) else if op.DoMalloc? then Some(|ops|) else None
  {
    assert (ops + [op])[..|ops|] == ops;
  }

  lemma AskedLater(ops: seq<Op>, op: Op, i: nat)
    requires i < |ops| && ops[i].DoMalloc?
    ensures Asked(ops + [op], i) == Asked(ops, i)
  {
    assert (ops + [op])[..i + 1] == ops[..i + 1];
  }

  lemma {:induction false} OpenLater(ops: seq<Op>, op: Op, k: nat)
    requires k <= |ops|
    requires op.DoMalloc? ==> Allocated(ops, op.memory).None?
    ensures Open(ops + [op], k) == if op.DoMalloc? then Open(ops, k) else Without(Open(ops, k), op.memory)
  {
    hide Mallocs, Allocated, Asked, Without;
    NoneWithout(op.memory);
    if k > 0 {
      OpenLater(ops, op, k - 1);
      assert (ops + [op])[k - 1] == ops[k - 1];
      if ops[k - 1].DoMalloc? {
        AllocatedLater(ops, op, ops[k - 1].memory);
        AskedLater(ops, op, k - 1);
        AskedMemory(ops, k - 1);
        WithoutFirst(Asked(ops, k - 1), Open(ops, k - 1), op.memory);
      }
    }
  }

  lemma AskedMemory(ops: seq<Op>, i: nat)
    requires i < |ops| && ops[i].DoMalloc?
    ensures Asked(ops, i).memory == ops[i].memory
  {
  }

  /** An allocated block is open, with what was asked for it. */
  lemma {:induction false} AllocatedOpen(ops: seq<Op>, k: nat, memory: Entry)
    requires k <= |ops|
    ensures
      var f, i := Find(Open(ops, k), memory), Allocated(ops, memory);
      if i.Some? && i.value < k then f < |Open(ops, k)| && Open(ops, k)[f] == Asked(ops, i.value)
      else f == |Open(ops, k)|
  {
    hide Mallocs;
    if k > 0 {
      AllocatedOpen(ops, k - 1, memory);
    }
  }

  lemma FindsHeld(blocks: seq<Block>, memory: Entry)
    ensures Find(blocks, memory) < |blocks| <==> memory in Memories(blocks)
  {
    var f := Find(blocks, memory);
    if f < |blocks| { assert Memories(blocks)[f] == memory; }
  }

  /** Where a block of a list without repetition is found. */
  lemma FindsAt(blocks: seq<Block>, i: nat)
    requires i < |blocks| && Distinct(Memories(blocks))
    ensures Find(blocks, blocks[i].memory) == i
  {
    var m := Memories(blocks);
    var f := Find(blocks, blocks[i].memory);
    assert m[i] == blocks[i].memory && m[f] == blocks[f].memory;
  }

  ghost predicate FromRequests(h: History, ops: seq<Op>) {
    h.state.live == Open(ops, |ops|) && h.state.counter == Mallocs(ops) && h.frees == Freed(ops)
  }

  lemma MallocFromRequests(h: History, ops: seq<Op>, op: Op)
    requires FromRequests(h, ops) && op.DoMalloc? && !Holds(h.state, op.memory)
    ensures FromRequests(Step(h, op), ops + [op])
  {
    var all := ops + [op];
    assert all[..|ops|] == ops && all[..|ops| + 1] == all;
    AllocatedOpen(ops, |ops|, op.memory);
    FindsHeld(h.state.live, op.memory);
    OpenLater(ops, op, |ops|);
  }

  lemma FreeFromRequests(h: History, ops: seq<Op>, op: Op)
    requires FromRequests(h, ops) && op.DoFree? && Distinct(Memories(h.state.live))
    ensures FromRequests(Step(h, op), ops + [op])
  {
    hide Memories, Distinct, Once, Without, Quarantine, Open, Find, Asked;
    var all := ops + [op];
    assert all[..|ops|] == ops;
    AllocatedOpen(ops, |ops|, op.memory);
    OnceEach(h.state.live);
    WithoutUnlinks(h.state.live, op.memory);
    OpenLater(ops, op, |ops|);
    AfterFree(ops, op);
  }

  lemma OnceEach(blocks: seq<Block>)
    requires Distinct(Memories(blocks))
    ensures Once(blocks)
  {
    assert forall i :: 0 <= i < |blocks| ==> Memories(blocks)[i] == blocks[i].memory;
  }

  lemma AfterFree(ops: seq<Op>, op: Op)
    requires op.DoFree?
    ensures Mallocs(ops + [op]) == Mallocs(ops)
    ensures Open(ops + [op], |ops| + 1) == Open(ops + [op], |ops|)
    ensures
      var i := Allocated(ops, op.memory);
      Freed(ops + [op]) == if i.Some? then Freed(ops) + [Asked(ops, i.value).(site := op.site)] else Freed(ops)
  {
    assert (ops + [op])[..|ops|] == ops;
    hide Asked;
  }

  lemma {:induction false} RunFromRequests(ops: seq<Op>)
    requires HostHonest(ops)
    ensures FromRequests(Run(ops), ops)
    decreases |ops|
  {
    hide FromRequests, Step, Consistent;
    if ops == [] {
      NothingRequested();
    } else {
      var k := |ops| - 1;
      var front, op := ops[..k], ops[k];
      assert ops == front + [op];
      assert forall i :: 0 <= i < k ==> front[..i] == ops[..i];
      RunFromRequests(front);
      if op.DoMalloc? {
        MallocFromRequests(Run(front), front, op);
      } else {
        EveryHistory(front);
        LiveDistinct(Run(front).state);
        FreeFromRequests(Run(front), front, op);
      }
    }
  }

  lemma NothingRequested()
    ensures FromRequests(History(EMPTY, [], [], []), [])
  {
  }

  lemma LiveDistinct(s: State)
    requires Consistent(s)
    ensures Distinct(Memories(s.live)) && Distinct(Memories(s.freed))
  {
    hide Memories, Distinct;
    PartsDistinct(Memories(s.live), Memories(s.freed));
  }

  lemma PartsDistinct(a: seq<Entry>, b: seq<Entry>)
    requires Distinct(a + b)
    ensures Distinct(a) && Distinct(b)
  {
    var all := a + b;
    assert forall i :: 0 <= i < |a| ==> all[i] == a[i];
    assert forall i :: 0 <= i < |b| ==> all[|a| + i] == b[i];
    forall i, j | 0 <= i < j < |b| ensures b[i] != b[j] {
      assert all[|a| + i] != all[|a| + j];
    }
  }

  /**
   The live list is exactly the requests not freed since, newest first, each with the size, number
   and site of its own request, and the counters are theirs; the quarantine is the 200 latest frees
   of allocated blocks, newest first, and the host has back the blocks of the frees before.
   */
  lemma ListsAreRequests(ops: seq<Op>)
    requires HostHonest(ops)
    ensures
      var s := Run(ops).state;
      && s.live == Open(ops, |ops|)
      && s.liveCount == |Open(ops, |ops|)|
      && s.liveSize == Total(Open(ops, |ops|)) % 0x1_0000_0000
    ensures
      var s, frees := Run(ops).state, Freed(ops);
      && |s.freed| == (if |frees| < 200 then |frees| else 200)
      && (forall i :: 0 <= i < |s.freed| ==> s.freed[i] == frees[|frees| - 1 - i])
      && Run(ops).returned == Memories(if |frees| <= 200 then [] else frees[..|frees| - 200])
  {
    hide Memories, Conserved, Open, Freed, Newest, Run, HostHonest, Total, Consistent, Windowed, Step;
    RunFromRequests(ops);
    EveryHistory(ops);
    CountersRight(Run(ops).state);
    WindowIs(Run(ops));
  }

  lemma CountersRight(s: State)
    requires Consistent(s)
    ensures s.liveCount == |s.live| && s.liveSize == Total(s.live) % 0x1_0000_0000
  {
    hide Memories, Distinct, Total;
  }

  lemma WindowIs(h: History)
    requires Windowed(h)
    ensures
      var freed, frees := h.state.freed, h.frees;
      && |freed| == (if |frees| < 200 then |frees| else 200)
      && (forall i :: 0 <= i < |freed| ==> freed[i] == frees[|frees| - 1 - i])
      && h.returned == Memories(if |frees| <= 200 then [] else frees[..|frees| - 200])
  {
    hide Newest, Memories;
  }

  /**
   A free takes back a block exactly if that block is allocated; of any other pointer it says where
   it was freed if that is one of the 200 latest frees, and that it knows nothing of it otherwise.
   */
  lemma FreeReports(ops: seq<Op>, memory: Entry, site: Site)
    requires HostHonest(ops)
    ensures
      var report, frees := Free(Run(ops).state, memory, site).1, Freed(ops);
      && (report == Quiet <==> Allocated(ops, memory).Some?)
      && (Allocated(ops, memory).None? ==>
            && (forall k :: 0 <= k < |frees| && |frees| - 200 <= k && frees[k].memory == memory ==>
                  report == AlreadyFreed(frees[k].site))
            && ((forall k :: 0 <= k < |frees| && |frees| - 200 <= k ==> frees[k].memory != memory) ==>
                  report == NotAllocated))
  {
    hide Memories, Distinct, Consistent, Windowed, Conserved, Open, Freed, Run, HostHonest, Allocated, Find, Free, Total, Asked;
    ListsAreRequests(ops);
    EveryHistory(ops);
    LiveDistinct(Run(ops).state);
    AllocatedOpen(ops, |ops|, memory);
    ReportInWindow(Run(ops).state, Freed(ops), memory, site);
  }

  lemma ReportInWindow(s: State, frees: seq<Block>, memory: Entry, site: Site)
    requires Distinct(Memories(s.freed))
    requires |s.freed| == (if |frees| < 200 then |frees| else 200)
    requires forall i :: 0 <= i < |s.freed| ==> s.freed[i] == frees[|frees| - 1 - i]
    ensures
      var report := Free(s, memory, site).1;
      && (report == Quiet <==> Find(s.live, memory) < |s.live|)
      && (report != Quiet ==>
            && (forall k :: 0 <= k < |frees| && |frees| - 200 <= k && frees[k].memory == memory ==>
                  report == AlreadyFreed(frees[k].site))
            && ((forall k :: 0 <= k < |frees| && |frees| - 200 <= k ==> frees[k].memory != memory) ==>
                  report == NotAllocated))
  {
    WindowFinds(s.freed, frees, memory);
    hide Memories, Distinct, Quarantine, Find;
  }

  lemma WindowFinds(freed: seq<Block>, frees: seq<Block>, memory: Entry)
    requires Distinct(Memories(freed))
    requires |freed| == (if |frees| < 200 then |frees| else 200)
    requires forall i :: 0 <= i < |freed| ==> freed[i] == frees[|frees| - 1 - i]
    ensures forall k :: 0 <= k < |frees| && |frees| - 200 <= k && frees[k].memory == memory ==>
      Find(freed, memory) < |freed| && freed[Find(freed, memory)] == frees[k]
    ensures Find(freed, memory) < |freed| ==>
      var k := |frees| - 1 - Find(freed, memory);
      0 <= k && |frees| - 200 <= k && frees[k].memory == memory
  {
    forall k | 0 <= k < |frees| && |frees| - 200 <= k && frees[k].memory == memory
      ensures Find(freed, memory) == |frees| - 1 - k
    {
      var i := |frees| - 1 - k;
      assert freed[i] == frees[k];
      FindsAt(freed, i);
    }
    hide Memories, Distinct, Find;
  }

  // ---------------------------------------------------------------------------
  // The report and its self-check
  // ---------------------------------------------------------------------------

  datatype Message =
    | Listed(number: int, size: nat, site: Site)
    | CountError(stored: int, counted: int)
    | SizeError(bytes: nat, total: nat)
    | Summary(count: int, size: nat)

  function Listing(blocks: seq<Block>): (r: seq<Message>)
    ensures |r| == |blocks|
    ensures forall i :: 0 <= i < |r| ==> r[i] == Listed(blocks[i].number, blocks[i].size, blocks[i].site)
  {
    if blocks == [] then []
    else [Listed(blocks[0].number, blocks[0].size, blocks[0].site)] + Listing(blocks[1..])
  }

  /** What trace_print writes when it is due. */
  function Printout(s: State, level: int): seq<Message> {
    var total := Total(s.live) % SIZE_MODULUS;
    (if level == 1 then
       Listing(s.live)
       + (if |s.live| != s.liveCount then [CountError(s.liveCount, |s.live|)] else [])
       + (if total != s.liveSize then [SizeError(s.liveSize, total)] else [])
     else [])
    + [Summary(s.liveCount, s.liveSize)]
  }

  /** The self-check never finds a mismatch: every printout is the listing and the summary alone. */
  lemma SelfCheckPasses(ops: seq<Op>, level: int)
    requires HostHonest(ops)
    ensures
      var s := Run(ops).state;
      Printout(s, level) ==
        (if level == 1 then Listing(s.live) else []) + [Summary(|s.live|, Total(s.live) % SIZE_MODULUS)]
  {
    EveryHistory(ops);
    CleanPrintout(Run(ops).state, level);
    hide *;
  }

  lemma CleanPrintout(s: State, level: int)
    requires Consistent(s)
    ensures Printout(s, level) ==
      (if level == 1 then Listing(s.live) else []) + [Summary(|s.live|, Total(s.live) % SIZE_MODULUS)]
  {
    hide Listing, Total, Memories, Distinct;
    assert Listing(s.live) + [] + [] == Listing(s.live);
  }
}
