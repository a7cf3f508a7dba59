/**
 Boundary tags in memory: what it means for a sequence of blocks to be written out as headers and
 footers, and how that survives writes elsewhere.
 */
module HeapTags {
  import opened Words
  import opened HeapBlocks
  import opened HeapModel

  const MAGIC: Word := 0xBAD0BEEF

  ghost predicate InSpace(b: Block)
  {
    0 <= b.addr && TAGS <= b.size && EndOf(b) <= SPACE
  }

  /** The header words of a block and its footer words, which point at each other. */
  ghost predicate Tagged(m: Memory, b: Block)
    requires InSpace(b)
  {
    && ReadWord(m, b.addr) == MAGIC
    && ReadWord(m, b.addr + 4) == (if b.hole then 1 else 0)
    && ReadWord(m, b.addr + 8) == b.size
    && ReadWord(m, EndOf(b) - 8) == MAGIC
    && ReadWord(m, EndOf(b) - 4) == b.addr
  }

  ghost predicate AllTagged(m: Memory, bs: seq<Block>)
  {
    forall b :: b in bs ==> InSpace(b) && Tagged(m, b)
  }

  /** The two memories have the same bytes outside [lo, hi). */
  ghost predicate Agree(m: Memory, n: Memory, lo: int, hi: int)
  {
    forall x :: 0 <= x < SPACE && !(lo <= x < hi) ==> m[x] == n[x]
  }

  /** The two memories have the same bytes in block `b`. */
  ghost predicate Untouched(m: Memory, n: Memory, b: Block)
  {
    forall x :: 0 <= x < SPACE && b.addr <= x < EndOf(b) ==> m[x] == n[x]
  }

  lemma SameWord(m: Memory, n: Memory, b: Block, a: int)
    requires Untouched(m, n, b) && 0 <= a && a + 4 <= SPACE && b.addr <= a && a + 4 <= EndOf(b)
    ensures ReadWord(n, a) == ReadWord(m, a)
  {
  }

  lemma TaggedFrame(m: Memory, n: Memory, b: Block)
    requires InSpace(b) && Tagged(m, b) && Untouched(m, n, b)
    ensures Tagged(n, b)
  {
    hide ReadWord, Untouched;
    SameWord(m, n, b, b.addr);
    SameWord(m, n, b, b.addr + 4);
    SameWord(m, n, b, b.addr + 8);
    SameWord(m, n, b, EndOf(b) - 8);
    SameWord(m, n, b, EndOf(b) - 4);
  }

  lemma WordFrame(m: Memory, n: Memory, lo: int, hi: int, a: int)
    requires Agree(m, n, lo, hi) && 0 <= a && a + 4 <= SPACE && (a + 4 <= lo || hi <= a)
    ensures ReadWord(n, a) == ReadWord(m, a)
  {
  }

  /** Writing only inside a run of blocks keeps the tags of all the others. */
  lemma SpliceTagged(m: Memory, n: Memory, bs: seq<Block>, i: nat, j: nat, mid: seq<Block>, lo: int, hi: int)
    requires Tile(bs, lo, hi) && i < j <= |bs| && AllTagged(m, bs)
    requires Agree(m, n, bs[i].addr, EndOf(bs[j - 1])) && AllTagged(n, mid)
    ensures AllTagged(n, bs[..i] + mid + bs[j..])
  {
    hide Tile, ReadWord, Tagged;
    TileCut(bs, i, lo, hi);
    TileBounds(bs[..i], lo, bs[i].addr);
    TileCut(bs, j - 1, lo, hi);
    TileBounds(bs[j..], EndOf(bs[j - 1]), hi);
    forall b | b in bs[..i] + mid + bs[j..]
      ensures InSpace(b) && Tagged(n, b)
    {
      if b !in mid {
        assert b in bs && (EndOf(b) <= bs[i].addr || EndOf(bs[j - 1]) <= b.addr);
        TaggedFrame(m, n, b);
      }
    }
  }

  ghost predicate SizesStored(m: Memory, ix: seq<Block>)
  {
    forall h :: h in ix ==> InSpace(h) && ReadWord(m, h.addr + 8) == h.size
  }

  /** The words written when a last hole at `header` is made to end at `newEnd`. */
  function Retag(m: Memory, header: int, newEnd: int): Memory
    requires 0 <= header && header + HEADER <= SPACE && FOOTER <= newEnd <= SPACE && 0 <= newEnd - header < SPACE
  {
    WriteWord(WriteWord(WriteWord(m, header + 8, newEnd - header), newEnd - FOOTER, MAGIC), newEnd - 4, header)
  }

  lemma KeepTagged(m: Memory, n: Memory, bs: seq<Block>, lo: int, hi: int)
    requires AllTagged(m, bs) && Agree(m, n, lo, hi)
    requires forall b :: b in bs ==> EndOf(b) <= lo || hi <= b.addr
    ensures AllTagged(n, bs)
    ensures forall b :: b in bs ==> Untouched(m, n, b)
  {
    forall b | b in bs
      ensures InSpace(b) && Tagged(n, b) && Untouched(m, n, b)
    {
      TaggedFrame(m, n, b);
    }
  }

  /** An indexed hole is the only entry at its address. */
  lemma EntryUnique(s: State, h: Block)
    requires Inv(s) && h in s.blocks && h.hole
    ensures h in s.index && forall o :: o in s.index && o.addr == h.addr ==> o == h
  {
    IndexMembers(s.index, s.blocks);
    TileBounds(s.blocks, s.start, s.end);
    forall o | o in s.index && o.addr == h.addr
      ensures o == h
    {
      AddressesUnique(s, o, h);
    }
  }

  lemma RetagOne(m: Memory, b: Block, e: Block)
    requires InSpace(b) && Tagged(m, b) && InSpace(e) && e == b.(size := e.size) && e.size < SPACE
    ensures Tagged(Retag(m, b.addr, EndOf(e)), e)
    ensures Agree(m, Retag(m, b.addr, EndOf(e)), b.addr, EndOf(e))
  {
  }

  /** After those writes the resized heap is tagged, and no live byte has changed. */
  lemma RetagTags(s: State, m: Memory, last: Block, size: int)
    requires Inv(s) && last == Last(s) && last.hole && AllTagged(m, s.blocks)
    requires 0 <= last.addr && TAGS <= size < SPACE && last.addr + size <= SPACE
    ensures AllTagged(Retag(m, last.addr, last.addr + size), ResizeLast(s, size).blocks)
    ensures forall b :: b in Live(s) ==> Untouched(m, Retag(m, last.addr, last.addr + size), b)
  {
    hide Coalesced, Indexes, Retag, WriteWord, ReadWord, Tagged, Tile;
    var n := Retag(m, last.addr, last.addr + size);
    var front := s.blocks[..|s.blocks| - 1];
    var e := last.(size := size);
    assert last in s.blocks;
    RetagOne(m, last, e);
    FrontEnds(s);
    KeepTagged(m, n, front, last.addr, last.addr + size);
    assert s.blocks == front + [last];
    assert ResizeLast(s, size).blocks == front + [e];
  }

  lemma FrontEnds(s: State)
    requires Inv(s)
    ensures forall b :: b in s.blocks[..|s.blocks| - 1] ==> EndOf(b) <= Last(s).addr
  {
    TileLast(s.blocks, s.start, s.end);
    TileBounds(s.blocks[..|s.blocks| - 1], s.start, Last(s).addr);
  }

  /** Tags that start out like a tiling have to continue like it: its header sizes leave no choice. */
  lemma {:induction false} TagsForceTiling(n: Memory, front: seq<Block>, cs: seq<Block>, lo: int, mid: int, hi: int)
    requires Tile(front, lo, mid) && Tile(cs, lo, hi) && AllTagged(n, cs)
    requires forall b :: b in front ==> InSpace(b) && ReadWord(n, b.addr + 8) == b.size
    ensures hi <= mid || mid + TAGS <= hi
  {
    hide ReadWord;
    if cs == [] {
      TileBounds(front, lo, mid);
    } else if front == [] {
      TileBounds(cs[1..], lo + cs[0].size, hi);
    } else {
      assert front[0] in front && cs[0] in cs;
      TagsForceTiling(n, front[1..], cs[1..], lo + front[0].size, mid, hi);
    }
  }

  ghost predicate TagsATiling(m: Memory, lo: int, hi: int)
  {
    exists cs :: Tile(cs, lo, hi) && AllTagged(m, cs)
  }

  /**
   A contraction that leaves 1 to 19 bytes of the last hole leaves memory that is not the tags of
   any tiling; with 20 or more it is that of the smaller heap.
   */
  lemma ContractTilesIff(s: State, m: Memory, last: Block, size: int)
    requires Inv(s) && last == Last(s) && last.hole && AllTagged(m, s.blocks) && InSpace(last)
    requires 1 <= size < last.size && last.addr + size >= FOOTER
    ensures TagsATiling(Retag(m, last.addr, last.addr + size), s.start, last.addr + size) <==> size >= TAGS
  {
    hide ReadWord, Retag, Coalesced, Indexes, Tagged;
    var n := Retag(m, last.addr, last.addr + size);
    TileLast(s.blocks, s.start, s.end);
    if size >= TAGS {
      RetagTags(s, m, last, size);
      ResizeLastInv(s, size);
      assert Tile(ResizeLast(s, size).blocks, s.start, last.addr + size) && AllTagged(n, ResizeLast(s, size).blocks);
    } else {
      forall cs | Tile(cs, s.start, last.addr + size) && AllTagged(n, cs)
        ensures false
      {
        RetagFront(s, m, last, size);
        TagsForceTiling(n, s.blocks[..|s.blocks| - 1], cs, s.start, last.addr, last.addr + size);
      }
    }
  }

  lemma RetagFront(s: State, m: Memory, last: Block, size: int)
    requires Inv(s) && last == Last(s) && AllTagged(m, s.blocks) && InSpace(last)
    requires 1 <= size < last.size && last.addr + size >= FOOTER
    ensures forall b :: b in s.blocks[..|s.blocks| - 1] ==>
              InSpace(b) && ReadWord(Retag(m, last.addr, last.addr + size), b.addr + 8) == b.size
  {
    hide ReadWord, WriteWord, Tile, Coalesced, Indexes;
    FrontEnds(s);
    forall b | b in s.blocks[..|s.blocks| - 1]
      ensures InSpace(b) && ReadWord(Retag(m, last.addr, last.addr + size), b.addr + 8) == b.size
    {
      assert b in s.blocks && EndOf(b) <= last.addr;
    }
  }

  /** An entry written behind a full index takes the place of the first header's magic: the tags are gone. */
  lemma HeaderOverwritten(s: State, m: Memory, e: Word)
    requires Inv(s) && AllTagged(m, s.blocks) && s.start + 4 <= SPACE && e != MAGIC
    ensures !AllTagged(WriteWord(m, s.start, e), s.blocks)
  {
    hide ReadWord, Coalesced, Indexes;
    assert s.blocks[0] in s.blocks && s.blocks[0].addr == s.start;
  }
}
