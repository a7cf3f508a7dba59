/**
 What `malloc` and `free` do, read off the heap before the call: how far it is expanded or contracted, where the block
 comes from and how large it is. Together with the tiling, the coalescing and the live blocks this leaves nothing open.
 */
module HeapEffects {
  import opened HeapBlocks
  import opened HeapModel
  import opened HeapRuns

  // ---------------------------------------------------------------- malloc

  /** Some hole has room for `sz` bytes and 20 of tags. */
  predicate Roomy(s: State, sz: int) { exists b :: b in s.blocks && b.hole && b.size >= sz + 20 }

  /** The bytes of a hole that lies last. */
  function LastRoom(s: State): int
    requires s.blocks != []
  {
    if Last(s).hole then Last(s).size else 0
  }

  /** The kernel and the maximum allow the heap to end at `e`. */
  predicate Allowed(s: State, e: int, grant: int -> bool) { e <= s.maxEnd && grant(e) }

  /** The number of expansions by `q` bytes: only without room, at most two, and no further than allowed. */
  function Expansions(s: State, sz: int, q: int, grant: int -> bool): nat
    requires s.blocks != []
  {
    if Roomy(s, sz) || !Allowed(s, s.end + q, grant) then 0
    else if LastRoom(s) + q >= sz + 20 || !Allowed(s, s.end + 2 * q, grant) then 1
    else 2
  }

  /**
   The heap is expanded by the least number of whole pages above the request, as often as said; the block comes out of a
   smallest hole with room, or else out of what was added, together with a hole that lay last, if that has room.
   */
  lemma AllocExactly(s: State, sz: int, grant: int -> bool)
    requires Inv(s) && 0 <= sz
    ensures var q, r := sz - sz % 0x1000 + 0x1000, Alloc(s, sz, grant);
            var n := Expansions(s, sz, q, grant);
            var added := Block(s.end - LastRoom(s), LastRoom(s) + n * q, true);
            && r.state.end == s.end + n * q
            && (r.got.Some? <==> Roomy(s, sz) || added.size >= sz + 20)
            && (r.got.Some? && !Roomy(s, sz) ==> TakenOf(added, sz, r.got.value, r.state))
            && (Roomy(s, sz) ==> exists h :: BestFit(s.blocks, h, sz) && TakenOf(h, sz, r.got.value, r.state))
  {
    hide Tile, Coalesced, Indexes, Finish, TakenOf, BestFit, Searched, Live, Extended, Roomy, LastRoom;
    var q, t := sz - sz % 0x1000 + 0x1000, Searched(s, sz, grant);
    var n := Expansions(s, sz, q, grant);
    SearchedIs(s, sz, grant);
    ExtendedEnd(s, t, n * q);
    FinishRoomy(t, sz);
    FinishInv(t, sz);
    RoomIff(s, sz, grant);
    if n == 0 {
      NothingAdded(s, t);
    }
    if Finish(t, sz).got.Some? && !Roomy(s, sz) {
      var h :| BestFit(t.blocks, h, sz) && TakenOf(h, sz, Finish(t, sz).got.value, Finish(t, sz).state);
      assert BestFit(t.blocks, h, sz);
      FitIsLast(s, t, n * q, h, sz);
    }
  }

  lemma FinishRoomy(t: State, sz: int)
    requires Inv(t) && 0 <= sz
    ensures var r := Finish(t, sz);
            && (r.got.Some? <==> Roomy(t, sz))
            && (r.got.Some? ==> exists h :: BestFit(t.blocks, h, sz) && TakenOf(h, sz, r.got.value, r.state))
  {
    hide Tile, Coalesced, Indexes, Finish, TakenOf, BestFit;
    FinishBestFit(t, sz);
  }

  lemma RoomIff(s: State, sz: int, grant: int -> bool)
    requires Inv(s) && 0 <= sz
    ensures var q := sz - sz % 0x1000 + 0x1000;
            Roomy(Searched(s, sz, grant), sz) <==>
              Roomy(s, sz) || LastRoom(s) + Expansions(s, sz, q, grant) * q >= sz + 20
  {
    hide Tile, Coalesced, Indexes, Searched, Live, Extended, Roomy;
    var q, t := sz - sz % 0x1000 + 0x1000, Searched(s, sz, grant);
    var n := Expansions(s, sz, q, grant) * q;
    SearchedIs(s, sz, grant);
    if n > 0 {
      ExtendedRoomy(s, t, n, sz);
    } else {
      NothingAdded(s, t);
      if LastRoom(s) >= sz + 20 {
        LastRoomy(s, sz);
      }
    }
  }

  lemma LastRoomy(s: State, sz: int)
    requires s.blocks != [] && 0 <= sz && LastRoom(s) >= sz + 20
    ensures Roomy(s, sz)
  {
    assert Last(s) in s.blocks;
  }

  lemma NothingAdded(s: State, t: State)
    requires s.blocks != [] && Extended(s, t, 0)
    ensures t == s
  {
  }

  /** `t` is `s` with `n` bytes more at its end, part of a last hole. */
  ghost predicate Extended(s: State, t: State, n: int)
    requires s.blocks != []
  {
    && t.blocks != [] && t.end == s.end + n && t.maxEnd == s.maxEnd
    && (n == 0 ==> t == s)
    && (n > 0 ==> t.blocks == Kept(s) + [Block(s.end - LastRoom(s), LastRoom(s) + n, true)])
  }

  /** The blocks but for a hole that lies last. */
  function Kept(s: State): seq<Block>
    requires s.blocks != []
  {
    if Last(s).hole then s.blocks[..|s.blocks| - 1] else s.blocks
  }

  lemma GrowExtends(s: State, q: int)
    requires Inv(s) && TAGS <= q && s.end + q <= s.maxEnd
    ensures Extended(s, Grow(s, q), q)
  {
    hide Coalesced, Indexes, Insert, Remove;
    TileLast(s.blocks, s.start, s.end);
    assert s.blocks == s.blocks[..|s.blocks| - 1] + [Last(s)];
  }

  lemma ExtendsTwice(s: State, t: State, u: State, q: int)
    requires s.blocks != [] && q > 0 && Extended(s, t, q) && Extended(t, u, q)
    ensures Extended(s, u, 2 * q)
  {
  }

  /** Whether the search finds an entry is a matter of the holes. */
  lemma HitIff(s: State, sz: int)
    requires Inv(s)
    ensures Hit(s, sz) <==> Roomy(s, sz)
  {
    FirstIsBestFit(s.index, s.blocks, sz + TAGS);
  }

  lemma ExtendedRoomy(s: State, t: State, n: int, sz: int)
    requires s.blocks != [] && Extended(s, t, n) && n > 0 && !Roomy(s, sz)
    ensures Roomy(t, sz) <==> LastRoom(s) + n >= sz + 20
  {
    assert Last(t) in t.blocks;
    assert forall b :: b in t.blocks ==> b in s.blocks || b == Last(t);
  }

  lemma SearchedIs(s: State, sz: int, grant: int -> bool)
    requires Inv(s) && 0 <= sz
    ensures var q := sz - sz % 0x1000 + 0x1000;
            Extended(s, Searched(s, sz, grant), Expansions(s, sz, q, grant) * q)
  {
    hide Inv, Extended, Roomy, Hit, Grow;
    var q := Quantity(sz);
    assert q == sz - sz % 0x1000 + 0x1000;
    HitIff(s, sz);
    NotExtended(s);
    if !Stops(s, sz, grant) {
      GrowRounds(s, sz);
      GrowExtends(s, q);
      var t := Grow(s, q);
      HitIff(t, sz);
      ExtendedRoomy(s, t, q, sz);
      ExtendedEnd(s, t, q);
      if !Stops(t, sz, grant) {
        GrowRounds(t, sz);
        GrowExtends(t, q);
        ExtendsTwice(s, t, Grow(t, q), q);
      }
    }
  }

  lemma NotExtended(s: State)
    requires Inv(s)
    ensures s.blocks != [] && Extended(s, s, 0)
  {
  }

  lemma ExtendedEnd(s: State, t: State, n: int)
    requires s.blocks != [] && Extended(s, t, n)
    ensures t.end == s.end + n && t.maxEnd == s.maxEnd
  {
  }

  lemma FitIsLast(s: State, t: State, n: int, h: Block, sz: int)
    requires s.blocks != [] && !Roomy(s, sz) && BestFit(t.blocks, h, sz) && Extended(s, t, n) && n >= 0
    ensures n > 0 && h == Block(s.end - LastRoom(s), LastRoom(s) + n, true)
  {
    assert forall b :: b in t.blocks ==> b in s.blocks || (n > 0 && b == Last(t));
  }

  // ---------------------------------------------------------------- free

  /** Where the hole begins that block `k` becomes part of, and where it ends. */
  function HoleFrom(bs: seq<Block>, k: nat): int
    requires k < |bs|
  {
    if k > 0 && bs[k - 1].hole then bs[k - 1].addr else bs[k].addr
  }

  function HoleTo(bs: seq<Block>, k: nat): int
    requires k < |bs|
  {
    if k + 1 < |bs| && bs[k + 1].hole then bs[k + 1].addr + bs[k + 1].size else bs[k].addr + bs[k].size
  }

  /**
   Freeing gives memory back if and only if the new hole lies last and has at least 0x2000 bytes, the heap is larger
   than 0x4000 and the kernel agrees; then all pages go but those of the minimum and the last, perhaps partial, one of
   the hole.
   */
  lemma FreeExactly(s: State, k: nat, grant: int -> bool)
    requires Inv(s) && k < |s.blocks| && !s.blocks[k].hole && (s.end - s.start) % 0x1000 == 0
    requires s.end - s.start >= 0x4000
    ensures var lo, hi, span := HoleFrom(s.blocks, k), HoleTo(s.blocks, k), s.end - s.start;
            var spare, pages := span - 0x4000, (hi - lo - 1) / 0x1000 * 0x1000;
            var q := if spare < pages then spare else pages;
            FreeBlock(s, k, grant).end ==
            if hi == s.end && hi - lo >= 0x2000 && span > 0x4000 && grant(s.end - q) then s.end - q else s.end
  {
    hide Tile, Coalesced, Indexes, Release, ContractQuantity, Contract;
    var m, t := Merged(s.blocks, k), Release(s, k);
    ReleaseInv(s, k);
    ReleaseLast(s, k);
    TileLast(s.blocks, s.start, s.end);
    ContractRemoves(t, grant);
  }
}
