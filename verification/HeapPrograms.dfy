/**
 Programs over the heap in memory: between its calls a program stores what it likes in its pieces, and all that lies
 outside the heap may change as well. Any such run makes the steps of the run model.
 */
module HeapPrograms {
  import opened Words
  import opened HeapBlocks
  import opened HeapModel
  import opened HeapRuns
  import opened HeapTags
  import opened HeapClient
  import InMemory = Heap

  /** What the program's pieces and the rest of the memory hold before the call `op`. */
  datatype Act = Act(fill: int -> Byte, op: Op)

  /** `x` is a byte that the program asked for. */
  predicate Inside(p: Program, x: int)
  {
    exists b :: b in p.ledger && b.addr + HEADER <= x < b.addr + HEADER + p.ledger[b]
  }

  /** Of the heap itself, the tags, the holes and the slack stay as they are; all other bytes are new. */
  function Stored(m: Memory, p: Program, fill: int -> Byte): Memory
  {
    seq(SPACE, x requires 0 <= x < SPACE =>
      if p.heap.start <= x < p.heap.end && !Inside(p, x) then m[x] else fill(x))
  }

  function Everywhere(fill: int -> Byte): Memory { seq(SPACE, x requires 0 <= x < SPACE => fill(x)) }

  /** No word just outside the heap looks like a tag to a `heap_free` of the block at `k`. */
  ghost predicate Quiet(s: State, k: nat, fill: int -> Byte)
  {
    && 16 <= s.start < SPACE && 0 <= s.end && s.end + 4 <= SPACE
    && (k == 0 ==> ReadWord(Everywhere(fill), s.start - FOOTER) != MAGIC)
    && (k + 1 == |s.blocks| ==> ReadWord(Everywhere(fill), s.end) != MAGIC)
  }

  ghost predicate MayAct(p: Program, a: Act)
    requires Inv(p.heap)
  {
    && Enabled(p, a.op)
    && (a.op.Free? ==> Quiet(p.heap, Position(p.heap.blocks, a.op.piece), a.fill))
  }

  lemma SameBytes(m: Memory, n: Memory, a: int)
    requires 0 <= a && a + 4 <= SPACE && forall x :: a <= x < a + 4 ==> n[x] == m[x]
    ensures ReadWord(n, a) == ReadWord(m, a)
  {
  }

  /** The tags of a block lie outside every piece. */
  lemma TagsOutside(p: Program, b: Block, x: int)
    requires Sound(p) && b in p.heap.blocks
    requires b.addr <= x < b.addr + HEADER || EndOf(b) - FOOTER <= x < EndOf(b)
    ensures p.heap.start <= x < p.heap.end && !Inside(p, x)
  {
    TileBounds(p.heap.blocks, p.heap.start, p.heap.end);
    if Inside(p, x) {
      var c :| c in p.ledger && c.addr + HEADER <= x < c.addr + HEADER + p.ledger[c];
      assert c in Live(p.heap) && c != b;
      AddressesUnique(p.heap, b, c);
      assert false;
    }
  }

  lemma StoredWord(m: Memory, p: Program, fill: int -> Byte, b: Block, a: int)
    requires Sound(p) && b in p.heap.blocks && InSpace(b) && p.heap.end <= SPACE
    requires b.addr <= a <= b.addr + HEADER - 4 || EndOf(b) - FOOTER <= a <= EndOf(b) - 4
    ensures ReadWord(Stored(m, p, fill), a) == ReadWord(m, a)
  {
    hide Sound, Inside, ReadWord;
    forall x | a <= x < a + 4
      ensures Stored(m, p, fill)[x] == m[x]
    {
      TagsOutside(p, b, x);
    }
    SameBytes(m, Stored(m, p, fill), a);
  }

  /** Stores of the program and of others keep every tag. */
  lemma StoredTags(m: Memory, p: Program, fill: int -> Byte)
    requires Sound(p) && AllTagged(m, p.heap.blocks) && p.heap.end <= SPACE
    ensures AllTagged(Stored(m, p, fill), p.heap.blocks)
  {
    hide Sound, Inside, ReadWord, Stored;
    forall b | b in p.heap.blocks
      ensures InSpace(b) && Tagged(Stored(m, p, fill), b)
    {
      assert InSpace(b) && Tagged(m, b);
      StoredWord(m, p, fill, b, b.addr);
      StoredWord(m, p, fill, b, b.addr + 4);
      StoredWord(m, p, fill, b, b.addr + 8);
      StoredWord(m, p, fill, b, EndOf(b) - 8);
      StoredWord(m, p, fill, b, EndOf(b) - 4);
    }
  }

  lemma StoredOutside(m: Memory, p: Program, fill: int -> Byte, a: int)
    requires 0 <= a && a + 4 <= SPACE && (a + 4 <= p.heap.start || p.heap.end <= a)
    ensures ReadWord(Stored(m, p, fill), a) == ReadWord(Everywhere(fill), a)
  {
    hide ReadWord, Inside;
    SameBytes(Everywhere(fill), Stored(m, p, fill), a);
  }

  /** The stores before a call: the heap is as good as before, and nothing else has happened to it. */
  method Store(h: InMemory.Heap, p: Program, fill: int -> Byte)
    requires h.Valid() && h.State() == p.heap && Sound(p)
    modifies h`mem
    ensures h.Valid() && h.State() == p.heap && h.mem == Stored(old(h.mem), p, fill)
    ensures forall k :: Quiet(p.heap, k, fill) ==> h.NoFalseTags(k)
  {
    hide Sound, AllTagged, Stored, ReadWord, Tile, Coalesced, Indexes;
    StoredTags(h.mem, p, fill);
    StoredOutside(h.mem, p, fill, h.startAddr - FOOTER);
    StoredOutside(h.mem, p, fill, h.endAddr);
    h.mem := Stored(h.mem, p, fill);
  }

  /** The pointer is null and the program has what it had, or it points behind the header of one more piece. */
  ghost predicate Received(p: Program, q: Program, sz: int, ptr: int)
  {
    if ptr == 0 then q.ledger == p.ledger
    else exists b :: b !in p.ledger && b.addr == ptr - 12 && b.size >= sz + 20 && q.ledger == p.ledger[b := sz]
  }

  lemma StepReceives(p: Program, sz: int, grant: int -> bool)
    requires Sound(p) && 0 <= sz < SPACE && Enabled(p, Malloc(sz, grant))
    ensures var got := Alloc(p.heap, sz, grant).got;
            Received(p, Step(p, Malloc(sz, grant)), sz, if got.Some? then got.value.addr + 12 else 0)
  {
    hide Inv, HeapRuns.Alloc;
    AllocCorrect(p.heap, sz, grant);
    var r := Alloc(p.heap, sz, grant);
    if r.got.Some? {
      assert r.got.value in Live(r.state);
      BlockBounds(r.state, r.got.value);
    }
  }

  lemma BlockBounds(s: State, b: Block)
    requires Inv(s) && b in s.blocks
    ensures b.addr >= 0
  {
    TileBounds(s.blocks, s.start, s.end);
  }

  /** Stores and a call: the step of the run model, after which every piece still held has what was stored in it. */
  method Perform(h: InMemory.Heap, a: Act, p: Program) returns (q: Program, ptr: int)
    requires h.Valid() && h.State() == p.heap && h.idx.Length == p.capacity && Sound(p) && MayAct(p, a)
    modifies h`mem, h`idxUsed, h`index, h`blocks, h`endAddr, h.idx
    ensures h.Valid() && h.State() == q.heap && h.idx.Length == q.capacity && Sound(q) && q == Step(p, a.op)
    ensures a.op.Malloc? ==> Received(p, q, a.op.sz, ptr)
    ensures a.op.Free? ==> q.ledger == p.ledger - {a.op.piece}
    ensures forall b :: b in p.ledger && b in q.ledger ==> Holds(h.mem, b, p.ledger[b], a.fill)
  {
    hide Sound, Inv, AllTagged, Stored, Quiet, HeapRuns.Alloc, Holds, Received;
    StepSound(p, a.op);
    if a.op.Malloc? {
      StepReceives(p, a.op.sz, a.op.grant);
    }
    Store(h, p, a.fill);
    ghost var m := h.mem;
    ptr := InMemory.Perform(h, a.op, p);
    q := Step(p, a.op);
    forall b | b in p.ledger && b in q.ledger
      ensures Holds(h.mem, b, p.ledger[b], a.fill)
    {
      StoredHolds(old(h.mem), p, a.fill, b);
      UntouchedHolds(m, h.mem, p, b, a.fill);
    }
  }

  /** The bytes that the program asked for in the piece `b` are those of `fill`. */
  ghost predicate Holds(m: Memory, b: Block, sz: int, fill: int -> Byte)
  {
    forall x :: b.addr + HEADER <= x < b.addr + HEADER + sz ==> 0 <= x < SPACE && m[x] == fill(x)
  }

  lemma StoredHolds(m: Memory, p: Program, fill: int -> Byte, b: Block)
    requires Sound(p) && b in p.ledger
    ensures Holds(Stored(m, p, fill), b, p.ledger[b], fill)
  {
    TileBounds(p.heap.blocks, p.heap.start, p.heap.end);
    assert b in Live(p.heap);
  }

  lemma UntouchedHolds(m: Memory, n: Memory, p: Program, b: Block, fill: int -> Byte)
    requires Sound(p) && b in p.ledger && Untouched(m, n, b) && Holds(m, b, p.ledger[b], fill)
    ensures Holds(n, b, p.ledger[b], fill)
  {
    TileBounds(p.heap.blocks, p.heap.start, p.heap.end);
    assert b in Live(p.heap);
    forall x | b.addr + HEADER <= x < b.addr + HEADER + p.ledger[b]
      ensures 0 <= x < SPACE && n[x] == fill(x)
    {
      assert m[x] == fill(x) && b.addr <= x < EndOf(b);
    }
  }

  function Calls(acts: seq<Act>): seq<Op>
  {
    if acts == [] then [] else [acts[0].op] + Calls(acts[1..])
  }

  /** Every call is enabled when its turn comes. */
  ghost predicate MayRun(p: Program, acts: seq<Act>)
    decreases |acts|
  {
    acts == [] || (Inv(p.heap) && MayAct(p, acts[0]) && MayRun(Step(p, acts[0].op), acts[1..]))
  }

  /** Any run of stores and calls over the heap in memory is a run of the model, and ends in step with it. */
  method PerformAll(h: InMemory.Heap, acts: seq<Act>, p: Program) returns (q: Program)
    requires h.Valid() && h.State() == p.heap && h.idx.Length == p.capacity && Sound(p) && MayRun(p, acts)
    modifies h`mem, h`idxUsed, h`index, h`blocks, h`endAddr, h.idx
    ensures h.Valid() && h.State() == q.heap && h.idx.Length == q.capacity && Sound(q)
    ensures Reaches(p, Calls(acts), q)
    decreases |acts|
  {
    hide Sound, Inv, AllTagged, Quiet, Enabled, Step;
    q := p;
    if acts != [] {
      assert Calls(acts)[1..] == Calls(acts[1..]);
      var ptr;
      q, ptr := Perform(h, acts[0], p);
      q := PerformAll(h, acts[1..], q);
    }
  }
}
