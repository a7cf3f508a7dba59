/**
 Whole operations of the heap (`malloc` with its expansions, `free` with its
 contraction) and what holds after every run of them.
 */
module HeapRuns {
  import opened Common
  import opened HeapBlocks
  import opened HeapModel

  // ---------------------------------------------------------------- contraction

  function Min(a: int, b: int): int { if a < b then a else b }

  /** How many pages have to go before at most 0 of `x` is left. */
  function PagesOver(x: int): nat { if x <= 0 then 0 else (x + PAGE - 1) / PAGE }

  /** Bytes given back for a last hole of `size` bytes in a heap of `span` bytes. */
  function ContractQuantity(span: int, size: int): int
  {
    PAGE * Min(PagesOver(span - MIN_SPAN), PagesOver(size - PAGE))
  }

  /** In a heap of whole pages: all but the minimum span, or all whole pages but the last partial one. */
  lemma ContractClosedForm(span: int, size: int)
    requires span % PAGE == 0 && span >= MIN_SPAN && 1 <= size
    ensures ContractQuantity(span, size) == Min(span - MIN_SPAN, (size - 1) / PAGE * PAGE)
  {
    assert PagesOver(span - MIN_SPAN) * PAGE == span - MIN_SPAN;
    assert PagesOver(size - PAGE) == (size - 1) / PAGE;
  }

  /** What is left of the hole: never nothing, and more than a page only when the minimum span stops it. */
  lemma ContractResidue(span: int, size: int)
    requires 1 <= size
    ensures 1 <= size - ContractQuantity(span, size) <= size
    ensures size - ContractQuantity(span, size) > PAGE ==> span - ContractQuantity(span, size) <= MIN_SPAN
  {
  }

  /**
   The residue, exactly: in a heap of whole pages it is too small for its tags just when the
   minimum span does not stop the contraction and the hole is 1 to 19 bytes more than whole pages.
   */
  lemma ResidueExact(span: int, size: int)
    requires span % PAGE == 0 && span >= MIN_SPAN && TAGS <= size
    ensures ResidueHoldsTags(span, size) <==> span - MIN_SPAN < (size - 1) / PAGE * PAGE || !(1 <= size % PAGE < TAGS)
  {
    ContractClosedForm(span, size);
  }

  /** It does happen: a last hole of 0x2005 bytes is cut down to 5. */
  lemma ResidueTooSmall()
    ensures ContractQuantity(0x10_0000, 0x2005) == 0x2000 && !ResidueHoldsTags(0x10_0000, 0x2005)
  {
  }

  function Contract(s: State, grant: int -> bool): State
    requires s.blocks != []
  {
    var q := ContractQuantity(s.end - s.start, Last(s).size);
    if !Last(s).hole || q == 0 || !grant(s.end - q) then s else ResizeLast(s, Last(s).size - q)
  }

  /** The residue condition of a contraction: the hole that is left can hold its own tags. */
  predicate ResidueHoldsTags(span: int, size: int)
  {
    size - ContractQuantity(span, size) >= TAGS
  }

  /** The part of `free` after coalescing: contract when a large hole has come to lie last. */
  predicate Contracts(s: State, m: Block)
  {
    EndOf(m) == s.end && m.size >= CONTRACT_AT && s.end - s.start > MIN_SPAN
  }

  function FreeBlock(s: State, k: nat, grant: int -> bool): State
    requires k < |s.blocks|
  {
    var m := Merged(s.blocks, k);
    if Contracts(s, m) then Contract(Release(s, k), grant) else Release(s, k)
  }

  /** Contracting is refused, or leaves enough. */
  predicate SafeToContract(s: State, size: int, grant: int -> bool)
  {
    grant(s.end - ContractQuantity(s.end - s.start, size)) ==> ResidueHoldsTags(s.end - s.start, size)
  }

  predicate SafeToFree(s: State, k: nat, grant: int -> bool)
    requires k < |s.blocks|
  {
    var m := Merged(s.blocks, k);
    Contracts(s, m) ==> SafeToContract(s, m.size, grant)
  }

  /** Freeing a live block keeps the heap well formed and takes exactly that block out of use. */
  lemma FreeBlockInv(s: State, k: nat, grant: int -> bool)
    requires Inv(s) && k < |s.blocks| && !s.blocks[k].hole && SafeToFree(s, k, grant)
    ensures Inv(FreeBlock(s, k, grant))
    ensures Live(FreeBlock(s, k, grant)) == Live(s) - {s.blocks[k]}
  {
    hide Tile, Coalesced, Indexes, Release, Contract, Live, ContractQuantity;
    ReleaseInv(s, k);
    ReleaseLast(s, k);
    var m := Merged(s.blocks, k);
    if Contracts(s, m) {
      ContractInv(Release(s, k), grant);
    }
  }

  lemma QuantityNonNegative(span: int, size: int)
    ensures ContractQuantity(span, size) >= 0
  {
  }

  lemma ContractInv(s: State, grant: int -> bool)
    requires Inv(s) && Last(s).hole && SafeToContract(s, Last(s).size, grant)
    ensures Inv(Contract(s, grant)) && Live(Contract(s, grant)) == Live(s)
  {
    hide Live, ResizeLast, Tile, Coalesced, Indexes, ContractQuantity;
    var q := ContractQuantity(s.end - s.start, Last(s).size);
    assert q >= 0 by {
      QuantityNonNegative(s.end - s.start, Last(s).size);
    }
    if q != 0 && grant(s.end - q) {
      ResizeLastInv(s, Last(s).size - q);
      assert Contract(s, grant) == ResizeLast(s, Last(s).size - q);
    }
  }

  /**
   In a heap of whole pages a granted contraction moves the end down by exactly the closed form, out of the last hole;
   a refused one, or one with a live block last, does nothing.
   */
  lemma ContractRemoves(s: State, grant: int -> bool)
    requires Inv(s) && s.end - s.start >= MIN_SPAN && (s.end - s.start) % PAGE == 0
    ensures var size, t := Last(s).size, Contract(s, grant);
            var q := Min(s.end - s.start - MIN_SPAN, (size - 1) / PAGE * PAGE);
            if Last(s).hole && grant(s.end - q) then
              t.end == s.end - q && Last(t) == Last(s).(size := size - q) &&
                  t.blocks[..|t.blocks| - 1] == s.blocks[..|s.blocks| - 1]
            else
              t == s
  {
    hide Tile, Coalesced, Indexes, ContractQuantity, Min, Insert, Remove;
    TileLast(s.blocks, s.start, s.end);
    ContractClosedForm(s.end - s.start, Last(s).size);
    ResizeLastIs(s, ContractQuantity(s.end - s.start, Last(s).size));
  }

  lemma ResizeLastIs(s: State, q: int)
    requires s.blocks != []
    ensures var t := ResizeLast(s, Last(s).size - q);
            && t.end == s.end - q && Last(t) == Last(s).(size := Last(s).size - q)
            && t.blocks[..|t.blocks| - 1] == s.blocks[..|s.blocks| - 1]
    ensures q == 0 ==> Last(s) == Last(s).(size := Last(s).size - q)
  {
  }

  /** Only whole pages are given back, and never below the minimum span. */
  lemma ContractSpan(s: State, grant: int -> bool)
    requires s.blocks != [] && Last(s).size >= 1
    requires s.end - s.start >= MIN_SPAN && (s.end - s.start) % PAGE == 0
    ensures var t := Contract(s, grant);
            && t.start == s.start && t.maxEnd == s.maxEnd && t.end - t.start >= MIN_SPAN &&
                (t.end - t.start) % PAGE == 0
            && t.end <= s.end
  {
    ContractClosedForm(s.end - s.start, Last(s).size);
    var q := ContractQuantity(s.end - s.start, Last(s).size);
    assert q % PAGE == 0 && q <= s.end - s.start - MIN_SPAN;
    assert Contract(s, grant).end in {s.end, s.end - q};
  }

  lemma FreeBlockSpan(s: State, k: nat, grant: int -> bool)
    requires Inv(s) && k < |s.blocks| && !s.blocks[k].hole
    requires s.end - s.start >= MIN_SPAN && (s.end - s.start) % PAGE == 0
    ensures var t := FreeBlock(s, k, grant);
            && t.start == s.start && t.maxEnd == s.maxEnd && t.end - t.start >= MIN_SPAN &&
                (t.end - t.start) % PAGE == 0
            && t.end <= s.end
  {
    hide Inv, Release, Contract, Merged, Last;
    ReleaseLast(s, k);
    if Contracts(s, Merged(s.blocks, k)) {
      ContractSpan(Release(s, k), grant);
    }
  }

  // ---------------------------------------------------------------- allocation

  /** The expansion asked for when no hole is large enough. */
  function Quantity(sz: int): (q: int)
    requires 0 <= sz
    ensures q % PAGE == 0 && sz < q <= sz + PAGE
  {
    sz - sz % PAGE + PAGE
  }

  /** How many expansions a request can still need. */
  function Rounds(s: State, sz: int): nat
    requires s.blocks != [] && 0 <= sz
  {
    if First(s.index, sz + TAGS) < |s.index| then 0
    else if (if Last(s).hole then Last(s).size else 0) + Quantity(sz) >= sz + TAGS then 1
    else 2
  }

  datatype Outcome = Outcome(state: State, got: Option<Block>)

  predicate Hit(s: State, sz: int) { First(s.index, sz + TAGS) < |s.index| }

  predicate Refused(s: State, sz: int, grant: int -> bool)
    requires 0 <= sz
  {
    s.end + Quantity(sz) > s.maxEnd || !grant(s.end + Quantity(sz))
  }

  /** The search of `heap_alloc`: carve the first sufficient entry of the index, or fail. */
  function Finish(s: State, sz: int): Outcome
    requires Indexes(s.index, s.blocks)
  {
    if Hit(s, sz) then
      var h := s.index[First(s.index, sz + TAGS)];
      IndexMembers(s.index, s.blocks);
      assert h in s.index;
      Outcome(Carve(s, h, sz + TAGS), Some(Carved(h, sz + TAGS)))
    else
      Outcome(s, None)
  }

  predicate Stops(s: State, sz: int, grant: int -> bool)
    requires 0 <= sz
  {
    Hit(s, sz) || Refused(s, sz, grant)
  }

  lemma GrowRounds(s: State, sz: int)
    requires Inv(s) && 0 <= sz && !Hit(s, sz) && s.end + Quantity(sz) <= s.maxEnd
    ensures Inv(Grow(s, Quantity(sz))) && Live(Grow(s, Quantity(sz))) == Live(s)
    ensures Rounds(Grow(s, Quantity(sz)), sz) < Rounds(s, sz)
  {
    var t := Grow(s, Quantity(sz));
    GrowInv(s, Quantity(sz));
    if Last(t).size >= sz + TAGS {
      FirstIsBestFit(t.index, t.blocks, sz + TAGS);
      assert Last(t) in t.blocks;
    }
  }

  /** The state in which the search of a request finally succeeds or fails. */
  function Searched(s: State, sz: int, grant: int -> bool): (t: State)
    requires Inv(s) && 0 <= sz
    ensures Inv(t) && t.start == s.start && t.maxEnd == s.maxEnd
    ensures Stops(t, sz, grant) && Live(t) == Live(s)
    ensures t.end in {s.end, s.end + Quantity(sz), s.end + 2 * Quantity(sz)}
    ensures Hit(s, sz) ==> t == s
  {
    if Stops(s, sz, grant) then s
    else
      GrowRounds(s, sz);
      var s1 := Grow(s, Quantity(sz));
      if Stops(s1, sz, grant) then s1
      else
        GrowRounds(s1, sz);
        Grow(s1, Quantity(sz))
  }

  /** `heap_alloc` written without recursion: search, and expand at most twice. */
  function Alloc(s: State, sz: int, grant: int -> bool): Outcome
    requires Inv(s) && 0 <= sz
  {
    Finish(Searched(s, sz, grant), sz)
  }

  lemma AllocHits(s: State, sz: int, grant: int -> bool)
    requires Inv(s) && 0 <= sz && Hit(s, sz)
    ensures var h := s.index[First(s.index, sz + TAGS)];
            && h in s.blocks && h.hole && h.size >= sz + TAGS
            && Alloc(s, sz, grant) == Outcome(Carve(s, h, sz + TAGS), Some(Carved(h, sz + TAGS)))
  {
    hide Carve, Grow;
    IndexMembers(s.index, s.blocks);
    assert s.index[First(s.index, sz + TAGS)] in s.index;
  }

  lemma AllocFails(s: State, sz: int, grant: int -> bool)
    requires Inv(s) && 0 <= sz && !Hit(s, sz) && Refused(s, sz, grant)
    ensures Alloc(s, sz, grant) == Outcome(s, None)
  {
  }

  /** The recursive equation of the source: after an expansion, start again. */
  lemma AllocAgain(s: State, sz: int, grant: int -> bool)
    requires Inv(s) && 0 <= sz && !Stops(s, sz, grant)
    ensures Inv(Grow(s, Quantity(sz)))
    ensures Alloc(s, sz, grant) == Alloc(Grow(s, Quantity(sz)), sz, grant)
  {
    GrowRounds(s, sz);
    var s1 := Grow(s, Quantity(sz));
    if !Stops(s1, sz, grant) {
      GrowRounds(s1, sz);
      var s2 := Grow(s1, Quantity(sz));
      assert Hit(s2, sz);
    }
  }

  ghost predicate Allocated(s: State, sz: int, r: Outcome)
  {
    && Inv(r.state) && r.state.start == s.start && r.state.maxEnd == s.maxEnd
    && (r.got.None? ==> Live(r.state) == Live(s))
    && (r.got.Some? ==>
        Live(r.state) == Live(s) + {r.got.value} && r.got.value !in Live(s) && r.got.value.size >= sz + TAGS)
  }

  lemma CarveEnds(s: State, h: Block, n: int)
    requires h in s.blocks
    ensures var t := Carve(s, h, n); t.start == s.start && t.end == s.end && t.maxEnd == s.maxEnd
  {
  }

  lemma FinishInv(s: State, sz: int)
    requires Inv(s) && 0 <= sz
    ensures Allocated(s, sz, Finish(s, sz)) && Finish(s, sz).state.end == s.end
  {
    hide Tile, Coalesced, Indexes, Carve, Live;
    if Hit(s, sz) {
      var h := s.index[First(s.index, sz + TAGS)];
      IndexMembers(s.index, s.blocks);
      assert h in s.index;
      CarveEnds(s, h, sz + TAGS);
      CarveInv(s, h, sz + TAGS);
      assert Finish(s, sz) == Outcome(Carve(s, h, sz + TAGS), Some(Carved(h, sz + TAGS)));
    }
  }

  /**
   A request ends well formed after at most two expansions: it leaves the live blocks as they
   are, or adds one large enough block to them.
   */
  lemma AllocCorrect(s: State, sz: int, grant: int -> bool)
    requires Inv(s) && 0 <= sz
    ensures Allocated(s, sz, Alloc(s, sz, grant))
    ensures Alloc(s, sz, grant).state.end in {s.end, s.end + Quantity(sz), s.end + 2 * Quantity(sz)}
  {
    var t := Searched(s, sz, grant);
    FinishInv(t, sz);
  }

  /** `h` is a smallest hole with room for `sz` bytes and their tags. */
  ghost predicate BestFit(bs: seq<Block>, h: Block, sz: int)
  {
    h in bs && h.hole && h.size >= sz + TAGS && forall b :: b in bs && b.hole && b.size >= sz + TAGS ==>
        h.size <= b.size
  }

  /**
   `got` is what a request for `sz` bytes takes of the hole `h`, leaving `t`: the size asked for and 20 bytes of tags,
   the rest staying an indexed hole, or all of it when the rest could not hold more than its own tags.
   */
  ghost predicate TakenOf(h: Block, sz: int, got: Block, t: State)
  {
    && got.addr == h.addr && !got.hole && sz + 20 <= got.size <= sz + 40
    && (h.size <= sz + 40 ==> got.size == h.size)
    && (h.size > sz + 40 ==>
          got.size == sz + 20 && var rest := Block(h.addr + sz + 20, h.size - sz - 20, true);
          rest in t.blocks && rest in t.index)
  }

  /**
   A request fails exactly when every hole is too small and the next expansion is refused; otherwise its block is the
   front of a smallest sufficient hole, split where it is useful.
   */
  lemma AllocBestFit(s: State, sz: int, grant: int -> bool)
    requires Inv(s) && 0 <= sz
    ensures var t := Searched(s, sz, grant);
            Alloc(s, sz, grant).got.None? <==> Refused(t, sz, grant) && forall b :: b in t.blocks && b.hole ==>
                b.size < sz + TAGS
    ensures var t, r := Searched(s, sz, grant), Alloc(s, sz, grant);
            r.got.Some? ==> exists h :: BestFit(t.blocks, h, sz) && TakenOf(h, sz, r.got.value, r.state)
  {
    var t := Searched(s, sz, grant);
    FinishBestFit(t, sz);
  }

  lemma FinishBestFit(t: State, sz: int)
    requires Inv(t) && 0 <= sz
    ensures Finish(t, sz).got.None? <==> forall b :: b in t.blocks && b.hole ==> b.size < sz + TAGS
    ensures Finish(t, sz).got.Some? ==>
              exists h :: BestFit(t.blocks, h, sz) && TakenOf(h, sz, Finish(t, sz).got.value, Finish(t, sz).state)
  {
    FirstIsBestFit(t.index, t.blocks, sz + TAGS);
    if Hit(t, sz) {
      var h := t.index[First(t.index, sz + TAGS)];
      assert BestFit(t.blocks, h, sz);
      CarveTakes(t, h, sz);
    }
  }

  lemma CarveTakes(t: State, h: Block, sz: int)
    requires Inv(t) && h in t.blocks && h.hole && 0 <= sz && h.size >= sz + TAGS
    ensures TakenOf(h, sz, Carved(h, sz + TAGS), Carve(t, h, sz + TAGS))
  {
    hide Insert, Remove, Tile, Coalesced, Indexes;
    var u := Carve(t, h, sz + TAGS);
    CarveInv(t, h, sz + TAGS);
    IndexMembers(u.index, u.blocks);
    if h.size > sz + 40 {
      assert u.blocks[Position(t.blocks, h) + 1] == Block(h.addr + sz + 20, h.size - sz - 20, true);
    }
  }

  // ---------------------------------------------------------------- places in the index

  /** Every insertion of `heap_alloc` finds a place: only the tail of a first expansion takes a new one. */
  predicate RoomToAlloc(s: State, sz: int, grant: int -> bool, capacity: nat)
    requires s.blocks != [] && 0 <= sz
  {
    Stops(s, sz, grant) || Last(s).hole || |s.index| < capacity
  }

  /** The insertion of `heap_free` finds a place, the united holes having given up theirs. */
  predicate RoomToFree(s: State, k: nat, capacity: nat)
    requires k < |s.blocks|
  {
    |s.index| - |Before(s.blocks, k)| - |After(s.blocks, k)| < capacity
  }

  /** An allocation stays within the index exactly when there is room, and then ends within it too. */
  lemma AllocRoomIff(s: State, sz: int, grant: int -> bool, capacity: nat)
    requires Inv(s) && 0 <= sz && |s.index| <= capacity
    ensures RoomToAlloc(s, sz, grant, capacity) <==> Stops(s, sz, grant) || |Grow(s, Quantity(sz)).index| <= capacity
    ensures RoomToAlloc(s, sz, grant, capacity) ==> |Alloc(s, sz, grant).state.index| <= capacity
  {
    hide Tile, Coalesced, Grow, Carve, First;
    if Stops(s, sz, grant) {
      FinishIndex(s, sz);
    } else {
      GrowRounds(s, sz);
      GrowInv(s, Quantity(sz));
      var s1 := Grow(s, Quantity(sz));
      FinishIndex(s1, sz);
      if !Stops(s1, sz, grant) {
        GrowRounds(s1, sz);
        GrowInv(s1, Quantity(sz));
        FinishIndex(Grow(s1, Quantity(sz)), sz);
      }
    }
  }

  lemma FinishIndex(s: State, sz: int)
    requires Inv(s) && 0 <= sz
    ensures |Finish(s, sz).state.index| <= |s.index|
  {
    hide Tile, Coalesced, Indexes, Carve;
    if Hit(s, sz) {
      IndexMembers(s.index, s.blocks);
      assert s.index[First(s.index, sz + TAGS)] in s.index;
      CarveInv(s, s.index[First(s.index, sz + TAGS)], sz + TAGS);
    }
  }

  /** So does freeing. */
  lemma FreeRoomIff(s: State, k: nat, grant: int -> bool, capacity: nat)
    requires Inv(s) && k < |s.blocks| && !s.blocks[k].hole && SafeToFree(s, k, grant)
    ensures RoomToFree(s, k, capacity) <==> |Release(s, k).index| <= capacity
    ensures |FreeBlock(s, k, grant).index| == |Release(s, k).index|
  {
    hide Tile, Coalesced, Indexes, Release, Live, ContractQuantity, ResizeLast, Before, After;
    ReleaseInv(s, k);
    ReleaseLast(s, k);
    if Contracts(s, Merged(s.blocks, k)) {
      var r := Release(s, k);
      var q := ContractQuantity(r.end - r.start, Last(r).size);
      QuantityNonNegative(r.end - r.start, Last(r).size);
      if q != 0 && grant(r.end - q) {
        ResizeLastInv(r, Last(r).size - q);
      }
    }
  }
}
