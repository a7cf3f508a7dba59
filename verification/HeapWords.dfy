/**
 `heap_alloc` in 32-bit arithmetic: where its sums wrap, and what becomes of the heap then.
 */
module HeapWords {
  import opened Common
  import opened Words
  import opened HeapBlocks
  import opened HeapModel
  import opened HeapRuns

  /** A round of `heap_alloc`: it ends the request, or expands the heap and starts again. */
  datatype Round = Done(outcome: Outcome) | Again(state: State)

  /** A round over the integers. */
  function Meant(s: State, sz: int, grant: int -> bool): Round
    requires Indexes(s.index, s.blocks) && s.blocks != [] && 0 <= sz
  {
    if Stops(s, sz, grant) then Done(Finish(s, sz)) else Again(Grow(s, Quantity(sz)))
  }

  /** The writes of `heap_expand` by `q` bytes up to `newEnd`, whatever these are. */
  function WordGrow(s: State, q: Word, newEnd: Word): State
    requires s.blocks != []
  {
    if Last(s).hole then
      var e := Last(s).(size := Wrap(Last(s).size + q));
      s.(blocks := s.blocks[..|s.blocks| - 1] + [e], index := Insert(Remove(s.index, Last(s)), e), end := newEnd)
    else
      var tail := Block(s.end, q, true);
      s.(blocks := s.blocks + [tail], index := Insert(s.index, tail), end := newEnd)
  }

  /** A round as it is computed. The index lies in front of the heap, so that splitting a hole wraps nothing. */
  function Computed(s: State, sz: Word, grant: int -> bool): Round
    requires Indexes(s.index, s.blocks) && s.blocks != []
  {
    var n := Wrap(sz + TAGS);
    if First(s.index, n) < |s.index| then
      IndexMembers(s.index, s.blocks);
      assert s.index[First(s.index, n)] in s.index;
      var h := s.index[First(s.index, n)];
      Done(Outcome(Carve(s, h, n), Some(Carved(h, n))))
    else
      var q := Wrap(Quantity(sz));
      var newEnd := Wrap(s.end + q);
      if newEnd > s.maxEnd || !grant(newEnd) then Done(Outcome(s, None)) else Again(WordGrow(s, q, newEnd))
  }

  /** Either the sums do not wrap, or the round is refused all the same. */
  predicate RoundFits(s: State, sz: Word, grant: int -> bool)
  {
    && (sz + TAGS < SPACE || s.index == [])
    && (Hit(s, sz) || s.end + Quantity(sz) < SPACE || NewEndRefused(s, sz, grant))
  }

  predicate NewEndRefused(s: State, sz: Word, grant: int -> bool)
  {
    var newEnd := Wrap(s.end + Quantity(sz));
    newEnd > s.maxEnd || !grant(newEnd)
  }

  lemma WrapTwice(a: int, b: int)
    ensures Wrap(a + Wrap(b)) == Wrap(a + b)
  {
  }

  lemma HoleBounds(s: State, h: Block)
    requires Inv(s) && h in s.index
    ensures h in s.blocks && h.hole && TAGS <= h.size <= s.end
  {
    IndexMembers(s.index, s.blocks);
    TileBounds(s.blocks, s.start, s.end);
  }

  lemma NoHugeHole(s: State, n: int)
    requires Inv(s) && n >= SPACE
    ensures First(s.index, n) == |s.index|
  {
    var k := First(s.index, n);
    if k < |s.index| {
      HoleBounds(s, s.index[k]);
      assert false;
    }
  }

  lemma SmallHits(s: State, n: int)
    requires Inv(s) && n < TAGS && s.index != []
    ensures First(s.index, n) == 0
  {
    HoleBounds(s, s.index[0]);
  }

  lemma GrowsAlike(s: State, q: int)
    requires Inv(s) && 0 <= q && s.end + q < SPACE
    ensures WordGrow(s, q, s.end + q) == Grow(s, q)
  {
    TileLast(s.blocks, s.start, s.end);
    TileBounds(s.blocks[..|s.blocks| - 1], s.start, Last(s).addr);
  }

  /** The round that is computed is the one that is meant exactly when it fits. */
  lemma ComputedIff(s: State, sz: Word, grant: int -> bool)
    requires Inv(s)
    ensures Computed(s, sz, grant) == Meant(s, sz, grant) <==> RoundFits(s, sz, grant)
  {
    hide Tile, Coalesced, Carve, Grow, WordGrow, First, Indexes;
    WrapTwice(s.end, Quantity(sz));
    if sz + TAGS >= SPACE {
      NoHugeHole(s, sz + TAGS);
      if s.index != [] {
        SmallHits(s, Wrap(sz + TAGS));
      }
      assert Quantity(sz) == SPACE;
    } else if !Hit(s, sz) && s.end + Quantity(sz) < SPACE {
      GrowsAlike(s, Quantity(sz));
    }
  }

  /** A block that is handed out holds what was asked for exactly when the size with its tags did not wrap. */
  lemma HoldsRequestIff(s: State, sz: Word, grant: int -> bool)
    requires Inv(s) && Computed(s, sz, grant).Done? && Computed(s, sz, grant).outcome.got.Some?
    ensures Computed(s, sz, grant).outcome.got.value.size >= sz + TAGS <==> sz + TAGS < SPACE
  {
    var n := Wrap(sz + TAGS);
    HoleBounds(s, s.index[First(s.index, n)]);
  }

  /** And the blocks still tile the heap exactly when it did not wrap or the hole was handed out whole. */
  lemma TilesIff(s: State, sz: Word, grant: int -> bool)
    requires Inv(s) && Computed(s, sz, grant).Done? && Computed(s, sz, grant).outcome.got.Some?
    ensures var n := Wrap(sz + TAGS);
            Tile(Computed(s, sz, grant).outcome.state.blocks, s.start, s.end) <==>
              sz + TAGS < SPACE || s.index[First(s.index, n)].size <= n + TAGS
  {
    hide Coalesced, Indexes, Carve, Tile;
    var n := Wrap(sz + TAGS);
    var h := s.index[First(s.index, n)];
    HoleBounds(s, h);
    if sz + TAGS < SPACE {
      CarveInv(s, h, n);
      CarveEnds(s, h, n);
    } else if h.size <= n + TAGS {
      WholeTiles(s, h, n);
    } else {
      CarveTooSmall(s, h, n);
    }
  }

  lemma WholeTiles(s: State, h: Block, n: int)
    requires Inv(s) && h in s.blocks && h.size <= n + TAGS
    ensures Tile(Carve(s, h, n).blocks, s.start, s.end)
  {
    var k := Position(s.blocks, h);
    TileCut(s.blocks, k, s.start, s.end);
    assert Tile([Carved(h, n)][1..], EndOf(h), EndOf(h));
    TileSplice(s.blocks, k, k + 1, [Carved(h, n)], s.start, s.end);
  }

  /** A request for 0xFFFFFFF0 bytes is answered with a block of 4, over which the new hole is written. */
  lemma WrappedRequest(s: State, grant: int -> bool)
    requires Inv(s) && s.index != [] && s.index[0].size > 4 + TAGS
    ensures var r := Computed(s, 0xFFFF_FFF0, grant);
            r.Done? && r.outcome.got == Some(Block(s.index[0].addr, 4, false)) &&
                !Tile(r.outcome.state.blocks, s.start, s.end)
  {
    hide Tile, Carve, Coalesced, Indexes, First;
    SmallHits(s, 4);
    HoleBounds(s, s.index[0]);
    CarveTooSmall(s, s.index[0], 4);
  }

  /** The rounded size has wrapped to 0, no hole is found, and the kernel agrees to the end staying where it is. */
  ghost predicate Zero(s: State, sz: Word, grant: int -> bool)
  {
    Inv(s) && sz >= 0xFFFF_F000 && First(s.index, Wrap(sz + TAGS)) == |s.index| && grant(s.end)
  }

  /** All this, and the last block is a hole, which is then expanded by 0 bytes. */
  ghost predicate Stuck(s: State, sz: Word, grant: int -> bool)
  {
    Zero(s, sz, grant) && Last(s).hole
  }

  /** Then the round changes nothing that the next one would notice: `heap_alloc` calls itself for ever. */
  lemma StuckAgain(s: State, sz: Word, grant: int -> bool)
    requires Stuck(s, sz, grant)
    ensures Computed(s, sz, grant).Again? && Stuck(Computed(s, sz, grant).state, sz, grant)
    ensures Computed(s, sz, grant).state.blocks == s.blocks
  {
    hide Tile, Coalesced, First, Indexes, Insert, Remove;
    TileLastSize(s);
    var t := Computed(s, sz, grant).state;
    assert Last(s).(size := Last(s).size) == Last(s);
    assert s.blocks == s.blocks[..|s.blocks| - 1] + [Last(s)];
    assert t == ResizeLast(s, Last(s).size);
    ResizeLastInv(s, Last(s).size);
    NoneFound(s, t, Wrap(sz + TAGS));
  }

  /** Behind a last block in use the round writes a hole of 0 bytes, and the blocks no longer tile the heap. */
  lemma ZeroHole(s: State, sz: Word, grant: int -> bool)
    requires Zero(s, sz, grant) && !Last(s).hole
    ensures Computed(s, sz, grant).Again?
    ensures var t := Computed(s, sz, grant).state;
            t.blocks == s.blocks + [Block(s.end, 0, true)] && t.end == s.end && !Inv(t)
  {
    hide Tile, Coalesced, First, Indexes, Insert;
    TileLastSize(s);
    var t := Computed(s, sz, grant).state;
    assert Last(t) == Block(s.end, 0, true);
    if Inv(t) {
      TileLastSize(t);
      assert false;
    }
  }

  /** On the heap that `malloc` makes, the request for 0xFFFFF000 bytes is of the first kind. */
  lemma MallocStuck(grant: int -> bool)
    requires grant(0x2011_0000)
    ensures Stuck(Create(0x2001_0000, 0x2011_0000, 0x6F01_0000), 0xFFFF_F000, grant)
  {
    CreateInv(0x2001_0000, 0x2011_0000, 0x6F01_0000);
  }

  lemma TileLastSize(s: State)
    requires Inv(s)
    ensures TAGS <= Last(s).size <= s.end
  {
    TileLast(s.blocks, s.start, s.end);
    TileBounds(s.blocks[..|s.blocks| - 1], s.start, Last(s).addr);
  }

  /** Whether a hole is found depends on the blocks alone. */
  lemma NoneFound(s: State, t: State, n: int)
    requires Inv(s) && Inv(t) && s.blocks == t.blocks && First(s.index, n) == |s.index|
    ensures First(t.index, n) == |t.index|
  {
    FirstIsBestFit(s.index, s.blocks, n);
    FirstIsBestFit(t.index, t.blocks, n);
  }

  /** With a new end that has wrapped to an acceptable one, an expansion takes the heap back. */
  lemma ExpansionShrinks(s: State, sz: Word, grant: int -> bool)
    requires Inv(s) && First(s.index, Wrap(sz + TAGS)) == |s.index| && sz < 0xFFFF_F000
    requires s.end + Quantity(sz) >= SPACE && !NewEndRefused(s, sz, grant)
    ensures Computed(s, sz, grant).Again? && Computed(s, sz, grant).state.end < s.end
  {
    hide Tile, Coalesced, Indexes, First, Wrap, Insert, Remove;
    WrapTwice(s.end, Quantity(sz));
    WrapsBelow(s.end, Quantity(sz), sz);
  }

  lemma WrapsBelow(e: int, q: int, sz: int)
    requires 0 <= e < SPACE && 0 <= sz < 0xFFFF_F000 && q == Quantity(sz) && e + q >= SPACE
    ensures Wrap(e + q) < e
  {
    assert q <= 0xFFFF_F000;
    assert Wrap(e + q) == e + q - SPACE;
  }

  /** On the heap that `malloc` makes, 0xE0000000 bytes lead to the new end 0x111000, far below the heap. */
  lemma MallocShrinks(grant: int -> bool)
    requires grant(0x11_1000)
    ensures var s := Create(0x2001_0000, 0x2011_0000, 0x6F01_0000);
            Inv(s) && Computed(s, 0xE000_0000, grant).Again? && Computed(s, 0xE000_0000, grant).state.end == 0x11_1000
  {
    CreateInv(0x2001_0000, 0x2011_0000, 0x6F01_0000);
  }

  /** Every round of the request fits; after a second expansion the search succeeds. */
  predicate NonWrapping(s: State, sz: Word, grant: int -> bool)
    requires s.blocks != []
  {
    RoundFits(s, sz, grant) && (!Stops(s, sz, grant) ==> RoundFits(Grow(s, Quantity(sz)), sz, grant))
  }

  lemma NonWrappingNext(s: State, sz: Word, grant: int -> bool)
    requires Inv(s) && NonWrapping(s, sz, grant) && !Stops(s, sz, grant)
    ensures sz + TAGS < SPACE && Inv(Grow(s, Quantity(sz))) && NonWrapping(Grow(s, Quantity(sz)), sz, grant)
  {
    hide Tile, Coalesced, Grow, First, Indexes;
    GrowRounds(s, sz);
    var s1 := Grow(s, Quantity(sz));
    if !Stops(s1, sz, grant) {
      GrowRounds(s1, sz);
      assert Hit(Grow(s1, Quantity(sz)), sz);
    }
  }

  /** Sizes beyond the address space left are refused, not excluded: on the heap of `malloc`, 0xA0000000 bytes fit. */
  lemma LargeRequestFits(grant: int -> bool)
    ensures NonWrapping(Create(0x2001_0000, 0x2011_0000, 0x6F01_0000), 0xA000_0000, grant)
  {
  }
}
