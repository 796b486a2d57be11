/** The tracing allocator in its own form: two linked lists relinked in place. */
module MemTracer {
  import opened MemTrace

  // ---------------------------------------------------------------------------
  // Linked lists
  // ---------------------------------------------------------------------------

  function BlockOf(e: Entry): Block
    reads e
  {
    Block(e, e.size, e.count, e.site)
  }

  /** `chain` is the list that starts at its first entry, the head; no entry is in it twice. */
  ghost predicate Linked(chain: seq<Entry>)
    reads chain
  {
    && chain != []
    && (forall i :: 0 <= i < |chain| - 1 ==> chain[i].next == chain[i + 1])
    && chain[|chain| - 1].next == null
    && Distinct(chain)
  }

  /** The entries behind the head hold `blocks`. */
  ghost predicate Shows(chain: seq<Entry>, blocks: seq<Block>)
    reads chain
  {
    && |chain| == |blocks| + 1
    && (forall i :: 0 <= i < |blocks| ==> blocks[i] == BlockOf(chain[i + 1]))
  }

  ghost predicate Holding(head: Entry, chain: seq<Entry>, blocks: seq<Block>)
    reads chain
  {
    Linked(chain) && chain[0] == head && Shows(chain, blocks)
  }

  /** No entry is in both chains. */
  ghost predicate Apart(a: seq<Entry>, b: seq<Entry>) {
    forall e :: e in a ==> e !in b
  }

  lemma EndOfChain(chain: seq<Entry>, k: nat)
    requires Linked(chain) && k < |chain|
    ensures chain[k].next == null <==> k == |chain| - 1
    ensures k < |chain| - 1 ==> chain[k].next == chain[k + 1]
  {
    if k < |chain| - 1 { assert chain[k].next == chain[k + 1]; }
  }

  lemma FindShown(chain: seq<Entry>, blocks: seq<Block>, memory: Entry, k: nat)
    requires Shows(chain, blocks)
    requires k < |chain| && forall i :: 0 < i <= k ==> chain[i] != memory
    requires k < |chain| - 1 ==> chain[k + 1] == memory
    ensures Find(blocks, memory) == k
  {
    hide Find;
    var i := Find(blocks, memory);
    assert forall j :: 0 <= j < |blocks| ==> blocks[j].memory == chain[j + 1];
    assert i < |blocks| ==> chain[i + 1] == memory;
    assert k < |blocks| ==> blocks[k].memory == memory;
  }

  /** prv_memory_find_previous: the entry before the one that holds `memory`. */
  method FindPrevious(list: Entry, memory: Entry, ghost chain: seq<Entry>, ghost blocks: seq<Block>)
    returns (previous: Entry?)
    requires Holding(list, chain, blocks)
    ensures
      var k := Find(blocks, memory);
      if k == |blocks| then previous == null
      else previous != null && previous == chain[k] && previous.next == chain[k + 1] == memory
  {
    hide Distinct, Find;
    previous := list;
    ghost var k := 0;
    while previous.next != null
      invariant k < |chain| && chain[k] == previous
      invariant forall i :: 0 < i <= k ==> chain[i] != memory
      decreases |chain| - k
    {
      EndOfChain(chain, k);
      if previous.next == memory {
        FindShown(chain, blocks, memory, k);
        return previous;
      }
      previous := previous.next;
      k := k + 1;
    }
    EndOfChain(chain, k);
    FindShown(chain, blocks, memory, k);
    return null;
  }

  /** Put an entry behind the head of a list. */
  method LinkBehind(head: Entry, entry: Entry, ghost chain: seq<Entry>, ghost blocks: seq<Block>)
    requires Holding(head, chain, blocks) && entry !in chain
    modifies head`next, entry`next
    ensures Holding(head, [head, entry] + chain[1..], [BlockOf(entry)] + blocks)
  {
    entry.next := head.next;
    head.next := entry;
    ghost var longer := [head, entry] + chain[1..];
    assert forall i :: 2 <= i < |longer| ==> longer[i] == chain[i - 1];
    assert Distinct(longer);
  }

  /** Take out the entry behind `entry`. */
  method UnlinkBehind(head: Entry, entry: Entry, ghost chain: seq<Entry>, ghost blocks: seq<Block>, ghost k: nat)
    returns (remove: Entry)
    requires Holding(head, chain, blocks) && k < |blocks| && chain[k] == entry
    modifies entry`next
    ensures remove == chain[k + 1]
    ensures Holding(head, chain[..k + 1] + chain[k + 2..], blocks[..k] + blocks[k + 1..])
  {
    EndOfChain(chain, k);
    EndOfChain(chain, k + 1);
    remove := entry.next;
    entry.next := remove.next;
    ghost var shorter := chain[..k + 1] + chain[k + 2..];
    assert forall i :: 0 <= i < |shorter| ==> shorter[i] == if i <= k then chain[i] else chain[i + 1];
    assert Distinct(shorter);
  }

  /** The walk to the end of a full quarantine, which lets go of the last entry; `other` is not touched. */
  method DropLast(head: Entry, first: Entry, ghost chain: seq<Entry>, ghost blocks: seq<Block>,
                  ghost otherHead: Entry, ghost other: seq<Entry>, ghost otherBlocks: seq<Block>)
    requires Holding(head, chain, blocks) && |blocks| > 1 && first == chain[1]
    requires Holding(otherHead, other, otherBlocks) && Apart(other, chain)
    modifies (set e | e in chain)`next
    ensures Holding(head, chain[..|blocks|], blocks[..|blocks| - 1])
    ensures Holding(otherHead, other, otherBlocks)
  {
    hide Distinct;
    var at := first;
    ghost var k := 1;
    EndOfChain(chain, 1);
    while at.next.next != null
      invariant 1 <= k < |chain| - 1 && at == chain[k] && at.next == chain[k + 1]
      invariant Holding(head, chain, blocks) && Holding(otherHead, other, otherBlocks)
      decreases |chain| - k
    {
      EndOfChain(chain, k + 1);
      at := at.next;
      k := k + 1;
    }
    EndOfChain(chain, k + 1);
    assert at in chain && at !in other;
    at.next := null;
    PrefixDistinct(chain, |blocks|);
  }

  lemma PrefixDistinct(chain: seq<Entry>, k: nat)
    requires k < |chain| && Distinct(chain)
    ensures Distinct(chain[..k])
    ensures forall i :: 0 <= i < k ==> chain[i] != chain[k]
  {
  }

  // ---------------------------------------------------------------------------
  // The tracer
  // ---------------------------------------------------------------------------

  /**
   The two heads are entries of their own. Their count, size and lineno, which only
   serve as counters, are the fields liveCount, liveSize, dirty and freedCount.
   */
  class Tracer {
    const mallocList: Entry
    const freeList: Entry
    var liveCount: int
    var liveSize: nat
    var dirty: int         // set by changes, cleared by a printout
    var freedCount: int
    var counter: int       // the static counter of lwm2m_trace_malloc
    var printCounter: int  // the static counter of trace_print
    ghost var liveChain: seq<Entry>
    ghost var freeChain: seq<Entry>
    ghost var live: seq<Block>
    ghost var freed: seq<Block>

    ghost predicate Valid()
      reads this, liveChain, freeChain
    {
      && Holding(mallocList, liveChain, live)
      && Holding(freeList, freeChain, freed)
      && Apart(liveChain, freeChain)
    }

    ghost function View(): State
      reads this
    {
      State(live, liveCount, liveSize, freed, freedCount, counter)
    }

    constructor ()
      ensures Valid() && View() == EMPTY
      ensures liveChain == [mallocList] && freeChain == [freeList] && fresh(mallocList) && fresh(freeList)
    {
      mallocList := new Entry(Site("head", "malloc", 0));
      freeList := new Entry(Site("head", "free", 0));
      liveCount, liveSize, dirty, freedCount, counter, printCounter := 0, 0, 0, 0, 0, 0;
      liveChain := [mallocList];
      freeChain := [freeList];
      live, freed := [], [];
    }

    /** Link a block at the front of the live list. */
    method LinkLive(block: Entry)
      requires Valid() && block !in liveChain && block !in freeChain
      modifies this`live, this`liveChain, mallocList`next, block`next
      ensures Valid() && live == [BlockOf(block)] + old(live)
      ensures liveChain == [mallocList, block] + old(liveChain)[1..]
    {
      HeadFirst(mallocList, liveChain, live);
      hide Linked, Shows, Holding, Apart, Distinct;
      ApartPut(liveChain, freeChain, mallocList, block);
      LinkBehind(mallocList, block, liveChain, live);
      live := [BlockOf(block)] + live;
      liveChain := [mallocList, block] + liveChain[1..];
    }

    /** lwm2m_trace_malloc, with the block the host allocator provides. */
    method TraceMalloc(block: Entry, size: nat, site: Site) returns (memory: Entry)
      requires Valid() && block !in liveChain && block !in freeChain
      requires size < SIZE_MODULUS
      modifies this, mallocList, block
      ensures Valid() && View() == Malloc(old(View()), block, size, site) && memory == block
      ensures liveChain == [mallocList, block] + old(liveChain)[1..] && freeChain == old(freeChain)
    {
      hide Linked, Shows, Holding, Apart, Distinct;
      liveCount := liveCount + 1;
      liveSize := (liveSize + size) % SIZE_MODULUS;
      dirty := 1;
      counter := counter + 1;
      block.site, block.size, block.count := site, size, counter;
      LinkLive(block);
      return block;
    }

    /** prv_trace_add_free_list. */
    method AddFreeList(block: Entry, site: Site) returns (ghost returned: seq<Entry>)
      requires Valid() && block !in liveChain && block !in freeChain
      modifies this`freeChain, this`freed, this`freedCount, block, freeChain
      ensures Valid()
      ensures (freed, freedCount, returned) ==
        Quarantine(old(freed), old(freedCount), Block(block, old(block.size), old(block.count), site))
    {
      HeadFirst(freeList, freeChain, freed);
      hide Linked, Shows, Holding, Distinct, Quarantine, Apart;
      ApartPut(freeChain, liveChain, freeList, block);
      block.site := site;
      QuarantineShape(freed, freedCount, BlockOf(block));
      LinkBehind(freeList, block, freeChain, freed);
      freeChain, freed := [freeList, block] + freeChain[1..], [BlockOf(block)] + freed;
      returned := [];
      if freedCount < QUARANTINE {
        freedCount := freedCount + 1;
      } else {
        returned := PushOut(block);
      }
    }

    /** A full quarantine lets its last block go, unless that is the one just put in. */
    method PushOut(block: Entry) returns (ghost returned: seq<Entry>)
      requires Valid() && |freeChain| > 1 && freeChain[1] == block
      modifies this`freeChain, this`freed, freeChain`next
      ensures Valid()
      ensures |old(freed)| == 1 ==> freed == old(freed) && returned == []
      ensures |old(freed)| > 1 ==>
        freed == old(freed)[..|old(freed)| - 1] && returned == [old(freed)[|old(freed)| - 1].memory]
    {
      HeadFirst(freeList, freeChain, freed);
      SecondEntry(freeList, block, freeChain, freed);
      hide Linked, Shows, Holding, Distinct;
      ApartDrop(liveChain, freeChain, |freed|);
      returned := [];
      if block.next != null {
        DropLast(freeList, block, freeChain, freed, mallocList, liveChain, live);
        returned := [freed[|freed| - 1].memory];
        freeChain, freed := freeChain[..|freed|], freed[..|freed| - 1];
      }
    }

    /** The branch of lwm2m_trace_free for a live block: unlink it and quarantine it. */
    method FreeLive(entry: Entry, site: Site, ghost k: nat) returns (ghost returned: seq<Entry>)
      requires Valid() && k < |live| && k < |liveChain| && liveChain[k] == entry
      modifies this, liveChain, freeChain
      ensures Valid()
      ensures
        var b := old(live)[k];
        var (freed', count, back) := Quarantine(old(freed), old(freedCount), b.(site := site));
        && View() == old(View()).(live := old(live)[..k] + old(live)[k + 1..], liveCount := old(liveCount) - 1,
                        liveSize := (old(liveSize) - b.size) % SIZE_MODULUS,
                        freed := freed', freedCount := count)
        && returned == back
    {
      HeadFirst(mallocList, liveChain, live);
      BlockAt(mallocList, liveChain, live, k);
      hide Linked, Shows, Holding, Quarantine;
      ApartLeave(liveChain, freeChain, k);
      var remove := UnlinkBehind(mallocList, entry, liveChain, live, k);
      liveCount := liveCount - 1;
      liveSize := (liveSize - remove.size) % SIZE_MODULUS;
      dirty := 1;
      live := live[..k] + live[k + 1..];
      liveChain := liveChain[..k + 1] + liveChain[k + 2..];
      returned := AddFreeList(remove, site);
    }

    /** lwm2m_trace_free: quarantine a live block, or report a stray pointer. */
    method TraceFree(memory: Entry?, site: Site) returns (report: Report, ghost returned: seq<Entry>)
      requires Valid()
      modifies this, liveChain, freeChain
      ensures Valid()
      ensures memory == null ==> View() == old(View()) && report == Quiet && returned == []
      ensures memory != null ==> (View(), report, returned) == Free(old(View()), memory, site)
    {
      report, returned := Quiet, [];
      if memory != null {
        HeadFirst(mallocList, liveChain, live);
        HeadFirst(freeList, freeChain, freed);
        hide Linked, Shows, Holding, Quarantine, Find, Apart;
        var entry := FindPrevious(mallocList, memory, liveChain, live);
        if entry != null {
          returned := FreeLive(entry, site, Find(live, memory));
        } else {
          var previous := FindPrevious(freeList, memory, freeChain, freed);
          report := NotAllocated;
          if previous != null {
            BlockAt(freeList, freeChain, freed, Find(freed, memory));
            report := AlreadyFreed(previous.next.site);
          }
        }
      }
    }

    /** trace_status. */
    method TraceStatus() returns (blocks: int, size: nat)
      requires Valid() && Consistent(View())
      ensures blocks == |View().live| && size == Total(View().live) % SIZE_MODULUS
    {
      return liveCount, liveSize;
    }

    /** The walk of trace_print over the live list, which counts and adds up again. */
    method ListLive() returns (out: seq<Message>, entries: int, total: nat)
      requires Valid()
      ensures out == Listing(live) && entries == |live| && total == Total(live) % SIZE_MODULUS
    {
      HeadFirst(mallocList, liveChain, live);
      EndOfChain(liveChain, 0);
      hide Listing, Total, Linked, Distinct;
      ListingStart();
      out, entries, total := [], 0, 0;
      var entry := mallocList.next;
      while entry != null
        invariant 0 <= entries <= |live| && (entry == null <==> entries == |live|)
        invariant entry != null ==> entry == liveChain[entries + 1]
        invariant total == Total(live[..entries]) % SIZE_MODULUS
        invariant out == Listing(live[..entries])
        decreases |live| - entries
      {
        BlockAt(mallocList, liveChain, live, entries);
        EndOfChain(liveChain, entries + 1);
        ListingStep(live, entries);
        out := out + [Listed(entry.count, entry.size, entry.site)];
        entries := entries + 1;
        total := (total + entry.size) % SIZE_MODULUS;
        entry := entry.next;
      }
      assert live[..entries] == live;
    }

    /** trace_print: every `loops`-th call after a change, or at once for 0. */
    method TracePrint(loops: int, level: int) returns (out: seq<Message>)
      requires Valid()
      modifies this`printCounter, this`dirty
      ensures Valid() && View() == old(View())
      ensures printCounter == if loops == 0 then 0 else old(printCounter) + 1
      ensures
        var due := loops == 0 || (printCounter % loops == 0 && old(dirty) != 0);
        && out == (if due then Printout(View(), level) else [])
        && dirty == (if due then 0 else old(dirty))
    {
      hide Holding, Listing, Total, Apart;
      printCounter := if loops == 0 then 0 else printCounter + 1;
      out := [];
      if loops == 0 || (printCounter % loops == 0 && dirty != 0) {
        dirty := 0;
        if level == 1 {
          var entries, total;
          out, entries, total := ListLive();
          if entries != liveCount {
            out := out + [CountError(liveCount, entries)];
          }
          if total != liveSize {
            out := out + [SizeError(liveSize, total)];
          }
        }
        out := out + [Summary(liveCount, liveSize)];
      }
    }
  }

  lemma ListingStart()
    ensures Listing([]) == [] && Total([]) == 0
  {
  }

  lemma {:induction false} ListingStep(blocks: seq<Block>, k: nat)
    requires k < |blocks|
    ensures Total(blocks[..k + 1]) == Total(blocks[..k]) + blocks[k].size
    ensures Listing(blocks[..k + 1]) == Listing(blocks[..k]) + [Listed(blocks[k].number, blocks[k].size, blocks[k].site)]
    decreases k
  {
    if k > 0 {
      ListingStep(blocks[1..], k - 1);
      assert blocks[..k + 1][1..] == blocks[1..][..k] && blocks[..k][1..] == blocks[1..][..k - 1];
    }
  }

  lemma BlockAt(head: Entry, chain: seq<Entry>, blocks: seq<Block>, k: nat)
    requires Holding(head, chain, blocks) && k < |blocks|
    ensures blocks[k] == BlockOf(chain[k + 1])
  {
  }

  lemma SecondEntry(head: Entry, second: Entry, chain: seq<Entry>, blocks: seq<Block>)
    requires Holding(head, chain, blocks) && |chain| > 1 && chain[1] == second
    ensures second.next == null <==> |blocks| == 1
  {
    EndOfChain(chain, 1);
  }

  lemma HeadFirst(head: Entry, chain: seq<Entry>, blocks: seq<Block>)
    requires Holding(head, chain, blocks)
    ensures |chain| == |blocks| + 1 && chain[0] == head && Distinct(chain)
    ensures forall i :: 0 <= i < |blocks| ==> blocks[i].memory == chain[i + 1]
  {
  }

  lemma ApartPut(a: seq<Entry>, b: seq<Entry>, head: Entry, e: Entry)
    requires (Apart(a, b) || Apart(b, a)) && a != [] && a[0] == head && e !in b
    ensures head !in b && Apart([head, e] + a[1..], b) && Apart(b, [head, e] + a[1..])
  {
    assert head in a;
    forall x | x in [head, e] + a[1..] ensures x !in b {
      assert x == e || x in a;
    }
  }

  lemma ApartDrop(a: seq<Entry>, b: seq<Entry>, k: nat)
    requires Apart(a, b) && k <= |b|
    ensures Apart(a, b[..k])
  {
    forall e | e in a ensures e !in b[..k] {
      assert forall i :: 0 <= i < k ==> b[..k][i] == b[i];
    }
  }

  /** The quarantine as one list with the new block in front, cut at its end. */
  lemma QuarantineShape(freed: seq<Block>, count: int, b: Block)
    ensures
      var all := [b] + freed;
      Quarantine(freed, count, b) ==
        if count < QUARANTINE then (all, count + 1, [])
        else if |all| == 1 then (all, count, [])
        else (all[..|all| - 1], count, [all[|all| - 1].memory])
  {
    var all := [b] + freed;
    if freed == [] {
      assert all == [b];
    } else {
      assert all[..|all| - 1] == [b] + freed[..|freed| - 1];
    }
  }

  lemma ApartLeave(a: seq<Entry>, b: seq<Entry>, k: nat)
    requires Apart(a, b) && k + 1 < |a| && Distinct(a)
    ensures
      var rest := a[..k + 1] + a[k + 2..];
      && Apart(rest, b) && a[k] !in b && a[k + 1] !in b && a[k + 1] !in rest
  {
    var rest := a[..k + 1] + a[k + 2..];
    assert forall e :: e in rest ==> e in a;
  }
}
