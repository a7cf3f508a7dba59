/**
 Every run of a program over its heap: any sequence of `malloc` and `free` calls, with any
 answers of the kernel to the requests to move the end of the heap.
 */
module HeapClient {
  import opened Common
  import opened Words
  import opened HeapBlocks
  import opened HeapModel
  import opened HeapRuns
  import opened HeapWords

  /** `grant` is the kernel's answer to each new end of the heap that is asked for. */
  datatype Op =
    | Malloc(sz: Word, grant: int -> bool)
    | Free(piece: Block, grant: int -> bool)
    | FreeNull

  /**
   The heap, the places of its index, and the program's own account: the pieces it holds and the size it asked for
   each.
   */
  datatype Program = Program(heap: State, capacity: nat, ledger: map<Block, int>)

  /** No sum wraps, the index has room, and a contraction leaves enough for the tags. */
  ghost predicate Enabled(p: Program, op: Op)
    requires Inv(p.heap)
  {
    match op
    case Malloc(sz, grant) => NonWrapping(p.heap, sz, grant) && RoomToAlloc(p.heap, sz, grant, p.capacity)
    case Free(b, grant) =>
      && b in p.ledger && b in p.heap.blocks
      && SafeToFree(p.heap, Position(p.heap.blocks, b), grant) &&
          RoomToFree(p.heap, Position(p.heap.blocks, b), p.capacity)
    case FreeNull => true
  }

  function Step(p: Program, op: Op): Program
    requires Inv(p.heap) && Enabled(p, op)
  {
    match op
    case Malloc(sz, grant) =>
      var r := Alloc(p.heap, sz, grant);
      p.(heap := r.state, ledger := if r.got.Some? then p.ledger[r.got.value := sz] else p.ledger)
    case Free(b, grant) =>
      p.(heap := FreeBlock(p.heap, Position(p.heap.blocks, b), grant), ledger := p.ledger - {b})
    case FreeNull => p
  }

  ghost predicate PageSpan(s: State)
  {
    s.end - s.start >= MIN_SPAN && (s.end - s.start) % PAGE == 0
  }

  /** The live blocks are exactly what the program holds, each large enough for what was asked. */
  ghost predicate LedgerOk(s: State, ledger: map<Block, int>)
  {
    ledger.Keys == Live(s) && forall b :: b in ledger ==> 0 <= ledger[b] <= b.size - TAGS
  }

  ghost predicate Sound(p: Program)
  {
    Inv(p.heap) && PageSpan(p.heap) && |p.heap.index| <= p.capacity && LedgerOk(p.heap, p.ledger)
  }

  ghost predicate Reaches(p: Program, ops: seq<Op>, q: Program)
    decreases |ops|
  {
    if ops == [] then p == q
    else Inv(p.heap) && Enabled(p, ops[0]) && Reaches(Step(p, ops[0]), ops[1..], q)
  }

  lemma MallocSound(p: Program, sz: int, q: int, r: Outcome)
    requires Sound(p) && 0 <= sz && q % PAGE == 0 && 0 <= q && |r.state.index| <= p.capacity
    requires Allocated(p.heap, sz, r) && r.state.end in {p.heap.end, p.heap.end + q, p.heap.end + 2 * q}
    ensures Sound(p.(heap := r.state, ledger := if r.got.Some? then p.ledger[r.got.value := sz] else p.ledger))
  {
    hide Inv, Live;
  }

  lemma FreeSound(p: Program, b: Block, t: State)
    requires Sound(p) && Inv(t) && PageSpan(t) && Live(t) == Live(p.heap) - {b} && |t.index| <= p.capacity
    ensures Sound(p.(heap := t, ledger := p.ledger - {b}))
  {
    hide Inv, Live;
  }

  /** A call keeps the heap sound, its place and the places of its index. */
  lemma StepSound(p: Program, op: Op)
    requires Sound(p) && Enabled(p, op)
    ensures Sound(Step(p, op)) && SamePlace(p, Step(p, op))
  {
    hide Alloc, FreeBlock, Inv, NonWrapping, RoomToAlloc, RoomToFree;
    match op
    case Malloc(sz, grant) =>
      var r := Alloc(p.heap, sz, grant);
      AllocCorrect(p.heap, sz, grant);
      AllocRoomIff(p.heap, sz, grant, p.capacity);
      MallocSound(p, sz, Quantity(sz), r);
    case Free(b, grant) =>
      var k := Position(p.heap.blocks, b);
      assert b in Live(p.heap);
      FreeBlockInv(p.heap, k, grant);
      FreeBlockSpan(p.heap, k, grant);
      FreeRoomIff(p.heap, k, grant, p.capacity);
      FreeSound(p, b, FreeBlock(p.heap, k, grant));
    case FreeNull =>
  }

  predicate SamePlace(p: Program, q: Program)
  {
    q.heap.start == p.heap.start && q.heap.maxEnd == p.heap.maxEnd && q.capacity == p.capacity
  }

  /** Every run keeps the heap sound. */
  lemma {:induction false} RunsStaySound(p: Program, ops: seq<Op>, q: Program)
    requires Sound(p) && Reaches(p, ops, q)
    ensures Sound(q) && SamePlace(p, q)
    decreases |ops|
  {
    if ops != [] {
      StepSound(p, ops[0]);
      RunsStaySound(Step(p, ops[0]), ops[1..], q);
    }
  }

  /** What the program may rely on: its pieces lie inside the heap and apart from one another. */
  ghost predicate PiecesApart(p: Program)
  {
    && (forall a :: a in p.ledger ==> p.heap.start <= a.addr && a.addr + HEADER + p.ledger[a] <= p.heap.end)
    && (forall a, b :: a in p.ledger && b in p.ledger && a != b ==>
          a.addr + HEADER + p.ledger[a] <= b.addr + HEADER || b.addr + HEADER + p.ledger[b] <= a.addr + HEADER)
  }

  lemma SoundApart(p: Program)
    requires Sound(p)
    ensures PiecesApart(p)
  {
    TileBounds(p.heap.blocks, p.heap.start, p.heap.end);
    forall a, b | a in p.ledger && b in p.ledger && a != b
      ensures a.addr + HEADER + p.ledger[a] <= b.addr + HEADER || b.addr + HEADER + p.ledger[b] <= a.addr + HEADER
    {
      assert a in Live(p.heap) && b in Live(p.heap);
      if a.addr < EndOf(b) && b.addr < EndOf(a) {
        AddressesUnique(p.heap, a, b);
      }
    }
  }

  /** A heap from which everything has been freed is one hole over its whole span. */
  lemma NothingLive(s: State)
    requires Inv(s) && Live(s) == {}
    ensures s.blocks == [Block(s.start, s.end - s.start, true)] && s.index == s.blocks
  {
    forall i | 0 <= i < |s.blocks|
      ensures s.blocks[i].hole
    {
      assert s.blocks[i] !in Live(s);
    }
    var b := s.blocks[0];
    assert s.blocks == [b] by {
      CoalescedNeighbours(s.blocks, 0);
    }
    TileLast(s.blocks, s.start, s.end);
    HolesOne(b);
    assert |multiset(s.index)| == 1;
    assert s.index[0] in multiset(s.index);
  }

  /**
   Over every run from a newly created heap: the tiling, the index and the coalescing hold, the index keeps within its
   places, the pieces of the program are apart, the span is whole pages from `start` to no further than `maxEnd`, and
   once the program has given everything back the heap is one hole again.
   */
  lemma EveryRun(start: int, end: int, maxEnd: int, capacity: nat, ops: seq<Op>, q: Program)
    requires 0 <= start && start + MIN_SPAN <= end <= maxEnd < SPACE && (end - start) % PAGE == 0 && 0 < capacity
    requires Reaches(Program(Create(start, end, maxEnd), capacity, map[]), ops, q)
    ensures Sound(q) && PiecesApart(q)
    ensures q.heap.start == start && q.heap.end <= maxEnd == q.heap.maxEnd && q.capacity == capacity
    ensures q.ledger == map[] ==> q.heap.blocks == [Block(q.heap.start, q.heap.end - q.heap.start, true)]
  {
    hide Inv, Live, PiecesApart, Reaches;
    var p := Program(Create(start, end, maxEnd), capacity, map[]);
    CreateSound(start, end, maxEnd, capacity);
    RunsStaySound(p, ops, q);
    SoundApart(q);
    EndBound(q.heap);
    if q.ledger == map[] {
      NothingLive(q.heap);
    }
  }

  lemma CreateSound(start: int, end: int, maxEnd: int, capacity: nat)
    requires 0 <= start && start + MIN_SPAN <= end <= maxEnd < SPACE && (end - start) % PAGE == 0 && 0 < capacity
    ensures Sound(Program(Create(start, end, maxEnd), capacity, map[]))
  {
    hide Inv, Live;
    CreateInv(start, end, maxEnd);
  }

  lemma EndBound(s: State)
    requires Inv(s)
    ensures s.end <= s.maxEnd
  {
  }

  // ---------------------------------------------------------------- the guard of the index

  /** The test of `heapIdx_insert` for an index of `bytes` bytes with `used` entries. */
  predicate GuardRefuses(used: nat, bytes: nat) { used + 4 >= bytes }

  /**
   Whatever is indexed, the guard never refuses an index of two or more places; the insertion stays inside it iff one
   is free.
   */
  lemma GuardNeverRefuses(used: nat, capacity: nat)
    requires used <= capacity && 2 <= capacity
    ensures !GuardRefuses(used, 4 * capacity)
    ensures 4 * (used + 1) <= 4 * capacity <==> used < capacity
  {
  }

  /** Blocks of 256 bytes from `addr` on, in turn in use and holes: `n` holes between blocks in use. */
  function Comb(n: nat, addr: int): seq<Block>
  {
    var live := Block(addr, 0x100, false);
    if n == 0 then [live] else [live] + ([Block(addr + 0x100, 0x100, true)] + Comb(n - 1, addr + 0x200))
  }

  /** Two more blocks in use in front of them: freeing the second makes a hole that touches no other. */
  function Filled(n: nat): State
  {
    var bs := Comb(n, 0x1200);
    State([Block(0x1000, 0x100, false)] + ([Block(0x1100, 0x100, false)] + bs), Holes(bs), 0x1000, 0x1300 + 0x200 * n,
          0x1300 + 0x200 * n)
  }

  lemma OneMore(b: Block, bs: seq<Block>, hi: int)
    requires Tile(bs, EndOf(b), hi) && TAGS <= b.size && bs != [] && Coalesced(bs) && !(b.hole && bs[0].hole)
    ensures Tile([b] + bs, b.addr, hi) && Coalesced([b] + bs)
    ensures Holes([b] + bs) == (if b.hole then [b] else []) + Holes(bs)
  {
    assert ([b] + bs)[1..] == bs;
  }

  lemma {:induction false} CombIs(n: nat, addr: int)
    ensures var bs := Comb(n, addr);
            && bs != [] && !bs[0].hole && Tile(bs, addr, addr + 0x100 + 0x200 * n) && Coalesced(bs)
            && |Holes(bs)| == n && forall h :: h in Holes(bs) ==> h.size == 0x100
  {
    var live, hole, hi := Block(addr, 0x100, false), Block(addr + 0x100, 0x100, true), addr + 0x100 + 0x200 * n;
    if n == 0 {
      OneEnd(live);
    } else {
      hide Tile, Coalesced, Holes;
      CombIs(n - 1, addr + 0x200);
      OneMore(hole, Comb(n - 1, addr + 0x200), hi);
      OneMore(live, [hole] + Comb(n - 1, addr + 0x200), hi);
    }
  }

  /**
   Whatever number of places the index has: this heap fills them, and there is no room to free its second block, yet
   the guard lets the insertion through.
   */
  lemma GuardFails(n: nat)
    requires 2 <= n <= 0x10_0000
    ensures Inv(Filled(n)) && |Filled(n).index| == n && !Filled(n).blocks[1].hole
    ensures !RoomToFree(Filled(n), 1, n) && !GuardRefuses(n, 4 * n)
  {
    hide Tile, Holes, Coalesced;
    var a, b, bs := Block(0x1000, 0x100, false), Block(0x1100, 0x100, false), Comb(n, 0x1200);
    CombIs(n, 0x1200);
    OneMore(b, bs, 0x1300 + 0x200 * n);
    OneMore(a, [b] + bs, 0x1300 + 0x200 * n);
    assert Sorted(Holes(bs)) by {
      assert forall i :: 0 <= i < |Holes(bs)| ==> Holes(bs)[i] in Holes(bs);
    }
    assert Holes(Filled(n).blocks) == Holes(bs);
  }

  lemma OneEnd(b: Block)
    requires TAGS <= b.size
    ensures Tile([b], b.addr, EndOf(b)) && Coalesced([b])
  {
    assert Tile([b][1..], EndOf(b), EndOf(b));
  }
}
