/**
 The heap of the user library at the level of its source: headers and footers are words in a
 byte-addressed memory, the index is an array of header addresses kept sorted by shifting. Each
 method is proved to do to the blocks and the index what `HeapModel` and `HeapRuns` say.
 */
module Heap {
  import opened Common
  import opened Words
  import opened HeapBlocks
  import opened HeapModel
  import opened HeapRuns
  import opened HeapWords
  import opened HeapClient
  import opened HeapTags

  lemma TaggedSizes(m: Memory, bs: seq<Block>, ix: seq<Block>)
    requires AllTagged(m, bs) && forall h :: h in ix ==> h in bs
    ensures SizesStored(m, ix)
  {
  }

  lemma LastEntry(s: State)
    requires Inv(s) && Last(s).hole
    ensures Last(s) in s.blocks && EndOf(Last(s)) == s.end
    ensures Sorted(Remove(s.index, Last(s))) && |Remove(s.index, Last(s))| == |s.index| - 1
    ensures forall o :: o in s.index && o.addr == Last(s).addr ==> o == Last(s)
  {
    assert Last(s) in s.blocks;
    EntryUnique(s, Last(s));
    TileLast(s.blocks, s.start, s.end);
    RemoveProperties(s.index, Last(s));
  }

  /** `e` may enter the index: the sizes compared with are in memory, and the index becomes that of `t`. */
  lemma EnterReady(t: State, ix: seq<Block>, e: Block, m: Memory)
    requires Inv(t) && t.index == Insert(ix, e) && Sorted(ix) && AllTagged(m, t.blocks)
    ensures SizesStored(m, ix) && e in t.blocks && InSpace(e) && ReadWord(m, e.addr + 8) == e.size
  {
    hide ReadWord;
    OthersDiffer(t, ix, e);
    TaggedSizes(m, t.blocks, ix);
    TaggedSizes(m, t.blocks, [e]);
    assert e in [e];
  }

  lemma LastTagged(s: State, m: Memory)
    requires Inv(s) && AllTagged(m, s.blocks)
    ensures Last(s) in s.blocks && InSpace(Last(s)) && Tagged(m, Last(s)) && s.start <= Last(s).addr
    ensures EndOf(Last(s)) == s.end
  {
    assert Last(s) in s.blocks;
    TileLast(s.blocks, s.start, s.end);
    TileBounds(s.blocks, s.start, s.end);
  }

  /** The loop of `heap_contract` that counts the bytes to give back. */
  method ContractLoop(span: int, size: int) returns (quantity: int)
    requires 1 <= size <= span
    ensures quantity == ContractQuantity(span, size)
  {
    quantity := 0;
    while span - quantity > MIN_SPAN && size - quantity > PAGE
      invariant 0 <= quantity <= ContractQuantity(span, size) && quantity % PAGE == 0
      decreases span - quantity
    {
      quantity := quantity + PAGE;
    }
  }

  lemma HoleEntry(s: State, m: Memory, h: Block)
    requires Inv(s) && AllTagged(m, s.blocks) && h in s.blocks && h.hole
    ensures InSpace(h) && Tagged(m, h) && EndOf(h) <= s.end && h in s.index
    ensures Sorted(Remove(s.index, h)) && |Remove(s.index, h)| == |s.index| - 1
    ensures forall o :: o in s.index && o.addr == h.addr ==> o == h
  {
    EntryUnique(s, h);
    RemoveProperties(s.index, h);
    TileBounds(s.blocks, s.start, s.end);
  }

  /** Writing tags only inside a hole, so that the pieces carved from it are tagged. */
  lemma CarveTags(s: State, m: Memory, n: Memory, h: Block, size: int)
    requires Inv(s) && AllTagged(m, s.blocks) && h in s.blocks && h.hole && TAGS <= size <= h.size
    requires Agree(m, n, h.addr, EndOf(h)) && forall b :: b in CarvedRun(h, size) ==> InSpace(b) && Tagged(n, b)
    ensures AllTagged(n, Carve(s, h, size).blocks)
    ensures forall b :: b in Live(s) ==> Untouched(m, n, b)
  {
    hide ReadWord, Tagged, Coalesced, Indexes;
    var k := Position(s.blocks, h);
    SpliceTagged(m, n, s.blocks, k, k + 1, CarvedRun(h, size), s.start, s.end);
    forall b | b in Live(s)
      ensures Untouched(m, n, b)
    {
      TileBounds(s.blocks, s.start, s.end);
      if b.addr < EndOf(h) && h.addr < EndOf(b) {
        AddressesUnique(s, b, h);
      }
    }
  }

  lemma UntouchedTwice(s: State, a: Memory, b: Memory, c: Memory)
    requires forall x :: x in Live(s) ==> Untouched(a, b, x)
    requires forall x :: x in Live(s) ==> Untouched(b, c, x)
    ensures forall x :: x in Live(s) ==> Untouched(a, c, x)
  {
    hide Live;
  }

  lemma GrowLast(s: State, q: int)
    requires Inv(s) && TAGS <= q && s.end + q <= s.maxEnd
    ensures Grow(s, q).blocks != [] && Last(Grow(s, q)).hole && Grow(s, q).maxEnd == s.maxEnd
  {
    GrowInv(s, q);
  }

  /** A search for the size as computed finds what a search for the size as meant would. */
  lemma SearchMeans(s: State, sz: Word, grant: int -> bool)
    requires Inv(s) && NonWrapping(s, sz, grant)
    ensures First(s.index, Wrap(sz + TAGS)) == First(s.index, sz + TAGS)
    ensures Hit(s, sz) ==> sz + TAGS < SPACE
  {
  }

  /** The quantity that is asked for when the search fails is whole pages; it is granted only as the one meant. */
  lemma WholePages(s: State, sz: Word, grant: int -> bool)
    requires Inv(s) && NonWrapping(s, sz, grant) && !Hit(s, sz)
    ensures var q := Wrap(Quantity(sz));
            && PageUp(q) == q && (s.end + q < SPACE || Wrap(s.end + q) > s.maxEnd || !grant(Wrap(s.end + q)))
            && (s.end + q <= s.maxEnd && grant(s.end + q) <==> !Refused(s, sz, grant))
            && (!Refused(s, sz, grant) ==> q == Quantity(sz) && TAGS <= q)
  {
    hide Tile, Coalesced, Indexes, First, Grow;
    WrapTwice(s.end, Quantity(sz));
    assert Wrap(Quantity(sz)) % PAGE == 0;
  }

  /** The tags of a block and of its neighbours, and where they lie. */
  lemma NeighbourTags(s: State, m: Memory, k: nat)
    requires Inv(s) && AllTagged(m, s.blocks) && k < |s.blocks|
    ensures InSpace(s.blocks[k]) && Tagged(m, s.blocks[k]) && s.start <= s.blocks[k].addr && EndOf(s.blocks[k]) <= s.end
    ensures k > 0 ==>
            InSpace(s.blocks[k - 1]) && Tagged(m, s.blocks[k - 1]) && EndOf(s.blocks[k - 1]) == s.blocks[k].addr
    ensures k > 0 ==> s.start <= s.blocks[k - 1].addr
    ensures k == 0 ==> s.blocks[k].addr == s.start
    ensures k + 1 < |s.blocks| ==>
              InSpace(s.blocks[k + 1]) && Tagged(m, s.blocks[k + 1]) && EndOf(s.blocks[k]) == s.blocks[k + 1].addr &&
                  EndOf(s.blocks[k + 1]) <= s.end
    ensures k + 1 == |s.blocks| ==> EndOf(s.blocks[k]) == s.end
  {
    hide ReadWord, Coalesced, Indexes;
    TileBounds(s.blocks, s.start, s.end);
    assert s.blocks[k] in s.blocks;
    if k > 0 {
      TileNext(s.blocks, k - 1, s.start, s.end);
      assert s.blocks[k - 1] in s.blocks;
    }
    if k + 1 < |s.blocks| {
      TileNext(s.blocks, k, s.start, s.end);
      assert s.blocks[k + 1] in s.blocks;
    } else {
      TileLast(s.blocks, s.start, s.end);
    }
  }

  /** After uniting to the left, the next block is still as it was. */
  lemma NextReady(s: State, m: Memory, n: Memory, k: nat, ix: seq<Block>)
    requires Inv(s) && AllTagged(m, s.blocks) && k < |s.blocks| && !s.blocks[k].hole && s.end + HEADER <= SPACE
    requires ix == RemoveAny(s.index, Before(s.blocks, k))
    requires Agree(m, n, LeftMerged(s.blocks, k).addr, EndOf(LeftMerged(s.blocks, k)))
    ensures k + 1 < |s.blocks| ==>
              && InSpace(s.blocks[k + 1]) && Tagged(n, s.blocks[k + 1])
              && forall o :: o in ix && o.addr == s.blocks[k + 1].addr ==> o == s.blocks[k + 1]
    ensures k + 1 == |s.blocks| ==> ReadWord(n, s.end) == ReadWord(m, s.end)
    ensures EndOf(LeftMerged(s.blocks, k)) == EndOf(s.blocks[k])
  {
    hide ReadWord, Tagged, Coalesced, Tile;
    NeighbourTags(s, m, k);
    if k + 1 < |s.blocks| {
      TaggedFrame(m, n, s.blocks[k + 1]);
      forall o | o in ix && o.addr == s.blocks[k + 1].addr
        ensures o == s.blocks[k + 1]
      {
        assert o in s.index;
        IndexMembers(s.index, s.blocks);
        TileBounds(s.blocks, s.start, s.end);
        AddressesUnique(s, o, s.blocks[k + 1]);
      }
    } else {
      WordFrame(m, n, LeftMerged(s.blocks, k).addr, EndOf(LeftMerged(s.blocks, k)), s.end);
    }
  }

  lemma MergedEnds(s: State, k: nat)
    requires Inv(s) && k < |s.blocks| && !s.blocks[k].hole
    ensures var m, l := Merged(s.blocks, k), LeftMerged(s.blocks, k);
            && m.addr == l.addr && TAGS <= m.size && EndOf(l) == EndOf(s.blocks[k]) <= EndOf(m) <= s.end && 0 <= m.addr
            && EndOf(m) == if HoleAfter(s.blocks, k) then EndOf(s.blocks[k + 1]) else EndOf(s.blocks[k])
  {
    MergedSize(s, k);
    TileBounds(s.blocks, s.start, s.end);
    assert s.blocks[k] in s.blocks;
    if HoleBefore(s.blocks, k) {
      TileNext(s.blocks, k - 1, s.start, s.end);
      assert s.blocks[k - 1] in s.blocks;
    }
    if HoleAfter(s.blocks, k) {
      assert s.blocks[k + 1] in s.blocks;
    }
  }

  lemma AgreeTwice(a: Memory, b: Memory, c: Memory, l: Block, m: Block)
    requires Agree(a, b, l.addr, EndOf(l)) && Agree(b, c, m.addr, EndOf(m))
    requires m.addr <= l.addr && EndOf(l) <= EndOf(m)
    ensures Agree(a, c, m.addr, EndOf(m))
  {
  }

  /** The word that makes a united block a hole. */
  lemma MarkedHole(m: Memory, n: Memory, e: Block, s: State, k: nat)
    requires k < |s.blocks| && e == Merged(s.blocks, k) && InSpace(e)
    requires Tagged(m, e.(hole := LeftMerged(s.blocks, k).hole)) && n == WriteWord(m, e.addr + 4, 1)
    ensures Tagged(n, e) && Agree(m, n, e.addr, EndOf(e))
  {
    hide ReadWord, WriteWord;
  }

  lemma ReleaseTags(s: State, m: Memory, n: Memory, k: nat)
    requires Inv(s) && AllTagged(m, s.blocks) && k < |s.blocks| && !s.blocks[k].hole
    requires Agree(m, n, Merged(s.blocks, k).addr, EndOf(Merged(s.blocks, k)))
    requires InSpace(Merged(s.blocks, k)) && Tagged(n, Merged(s.blocks, k))
    ensures AllTagged(n, Release(s, k).blocks)
    ensures forall b :: b in Live(Release(s, k)) ==> Untouched(m, n, b)
  {
    hide ReadWord, Tagged, Coalesced, Indexes, Tile;
    var i, j := k - |Before(s.blocks, k)|, k + 1 + |After(s.blocks, k)|;
    var e, t := Merged(s.blocks, k), Release(s, k);
    SpliceTagged(m, n, s.blocks, i, j, [e], s.start, s.end);
    assert t.blocks == s.blocks[..i] + [e] + s.blocks[j..];
    ReleaseInv(s, k);
    assert t.blocks[i] == e;
    TileBounds(t.blocks, t.start, t.end);
    forall b | b in Live(t)
      ensures Untouched(m, n, b)
    {
      if b.addr < EndOf(e) && e.addr < EndOf(b) {
        AddressesUnique(t, b, e);
      }
    }
  }

  lemma ReleaseSorted(s: State, k: nat)
    requires Inv(s) && k < |s.blocks| && !s.blocks[k].hole
    ensures var ix := RemoveAny(RemoveAny(s.index, Before(s.blocks, k)), After(s.blocks, k));
            && Sorted(ix) && |ix| == |s.index| - |Before(s.blocks, k)| - |After(s.blocks, k)|
            && Release(s, k).index == Insert(ix, Merged(s.blocks, k))
  {
    hide Tile, Coalesced, Holes, Insert;
    ReleaseInv(s, k);
    if HoleBefore(s.blocks, k) {
      RemoveProperties(s.index, s.blocks[k - 1]);
    }
    var ix1 := RemoveAny(s.index, Before(s.blocks, k));
    if HoleAfter(s.blocks, k) {
      RemoveProperties(ix1, s.blocks[k + 1]);
    }
    InsertProperties(RemoveAny(ix1, After(s.blocks, k)), Merged(s.blocks, k));
  }

  lemma ContractLive(r: State, s: State, k: nat, grant: int -> bool)
    requires Inv(s) && k < |s.blocks| && !s.blocks[k].hole && r == Release(s, k) && Last(r) == Merged(s.blocks, k)
    requires SafeToContract(r, Last(r).size, grant)
    ensures Live(HeapRuns.Contract(r, grant)) == Live(r)
  {
    hide Tile, Coalesced, Indexes, HeapRuns.Contract;
    ReleaseInv(s, k);
    ContractInv(r, grant);
  }

  /** Move a[pos..n) one place up. */
  method ShiftUp(a: array<int>, pos: nat, n: nat)
    requires pos <= n < a.Length
    modifies a
    ensures forall i :: 0 <= i < a.Length && !(pos < i <= n) ==> a[i] == old(a[i])
    ensures forall i :: pos < i <= n ==> a[i] == old(a[i - 1])
  {
    var it := n;
    while it > pos
      invariant pos <= it <= n
      invariant forall i :: 0 <= i < a.Length && !(it < i <= n) ==> a[i] == old(a[i])
      invariant forall i :: it < i <= n ==> a[i] == old(a[i - 1])
    {
      a[it] := a[it - 1];
      it := it - 1;
    }
  }

  /** Move a(pos..n] one place down. */
  method ShiftDown(a: array<int>, pos: nat, n: nat)
    requires pos <= n < a.Length
    modifies a
    ensures forall i :: 0 <= i < a.Length && !(pos <= i < n) ==> a[i] == old(a[i])
    ensures forall i {:trigger a[i]} :: pos <= i < n ==> a[i] == old(a[i + 1])
  {
    var it := pos;
    while it < n
      invariant pos <= it <= n
      invariant forall i :: 0 <= i < a.Length && !(pos <= i < it) ==> a[i] == old(a[i])
      invariant forall i {:trigger a[i]} :: pos <= i < it ==> a[i] == old(a[i + 1])
    {
      a[it] := a[it + 1];
      it := it + 1;
    }
  }

  class Heap {
    var mem: Memory
    var idx: array<int>
    var idxUsed: nat
    var idxBase: int
    var startAddr: int
    var endAddr: int
    var maxEnd: int
    ghost var blocks: seq<Block>
    ghost var index: seq<Block>

    ghost function State(): State
      reads this
    {
      HeapModel.State(blocks, index, startAddr, endAddr, maxEnd)
    }

    /** The index array holds the addresses of the indexed holes, in order. */
    ghost predicate Linked()
      reads this, idx
    {
      && idxUsed == |index| <= idx.Length
      && 4 <= idx.Length == (startAddr - idxBase) / 4 && 0 <= idxBase && 16 <= startAddr && startAddr + HEADER <= SPACE
      && forall i :: 0 <= i < idxUsed ==> idx[i] == index[i].addr
    }

    ghost predicate Valid()
      reads this, idx
    {
      && Linked()
      && Inv(State())
      && maxEnd + HEADER <= SPACE
      && AllTagged(mem, blocks)
    }

    /** The words just outside the heap that `heap_free` reads for a first or last block do not look like tags. */
    ghost predicate NoFalseTags(k: nat)
      requires 16 <= startAddr < SPACE && 0 <= endAddr && endAddr + 4 <= SPACE
      reads this
    {
      && (k == 0 ==> ReadWord(mem, startAddr - FOOTER) != MAGIC)
      && (k + 1 == |blocks| ==> ReadWord(mem, endAddr) != MAGIC)
    }

    /** The test by which `heapIdx_insert` gives up; it counts entries where it should count bytes. */
    predicate Full()
      reads this
    {
      idxUsed + 4 + idxBase >= startAddr
    }

    /**
     The search of `heapIdx_insert`. Its test for meeting `e` itself never succeeds: an entry at
     `e` has the very size searched for, and stops the loop first.
     */
    method IdxPlace(e: int, ghost h: Block) returns (it: nat)
      requires Linked() && SizesStored(mem, index)
      requires InSpace(h) && h.addr == e && ReadWord(mem, e + 8) == h.size
      ensures it == First(index, h.size)
    {
      hide ReadWord;
      it := 0;
      while it < idxUsed && ReadWord(mem, idx[it] + 8) < ReadWord(mem, e + 8)
        invariant 0 <= it <= idxUsed
        invariant forall i :: 0 <= i < it ==> index[i].size < h.size
      {
        assert index[it] in index;
        if idx[it] == e {
          assert false;
        }
        it := it + 1;
      }
      assert it < idxUsed ==> index[it] in index;
      FirstUnique(index, h.size, it);
    }

    /** The entry that an insertion into an index without a free place writes behind it. */
    ghost function Pushed(e: int, h: Block): int
      reads this
      requires index != []
    {
      if First(index, h.size) == |index| then e else index[|index| - 1].addr
    }

    /**
     `heapIdx_insert`: nothing when it counts as full, else before the first entry not smaller. Without a free place the
     last entry goes into the word behind the index, which is where the first header starts.
     */
    method IdxInsert(e: int, ghost h: Block)
      requires Linked() && SizesStored(mem, index)
      requires InSpace(h) && h.addr == e && ReadWord(mem, e + 8) == h.size
      modifies this`idxUsed, this`index, this`mem, idx
      ensures old(Full()) ==> index == old(index)
      ensures !old(Full()) ==> index == Insert(old(index), h)
      ensures old(Full()) || old(idxUsed) < idx.Length ==> Linked() && mem == old(mem)
      ensures !old(Full()) && old(idxUsed) == idx.Length ==>
                idxBase + 4 * idx.Length + 4 <= SPACE &&
                    mem == WriteWord(old(mem), idxBase + 4 * idx.Length, old(Pushed(e, h)))
    {
      hide ReadWord, Insert, WriteWord;
      if Full() {
        return;
      }
      var it := IdxPlace(e, h);
      assert idxUsed > 0 ==> InSpace(index[idxUsed - 1]);
      IdxEnter(it, e, h);
    }

    /** The insertion at the place that was found. */
    method IdxEnter(it: nat, e: int, ghost h: Block)
      requires Linked() && InSpace(h) && h.addr == e && (idxUsed > 0 ==> InSpace(index[idxUsed - 1]))
      requires it == First(index, h.size)
      modifies this`idxUsed, this`index, this`mem, idx
      ensures index == Insert(old(index), h)
      ensures old(idxUsed) < idx.Length ==> Linked() && mem == old(mem)
      ensures old(idxUsed) == idx.Length ==>
                idxBase + 4 * idx.Length + 4 <= SPACE &&
                    mem == WriteWord(old(mem), idxBase + 4 * idx.Length, old(Pushed(e, h)))
    {
      hide Insert, WriteWord, First;
      ghost var ix, spill := index, idxUsed == idx.Length;
      IdxShift(it, e, h);
      index := Insert(ix, h);
      if !spill {
        InsertAt(ix, h, index);
      }
    }

    /** The shifting half of `heapIdx_insert`. */
    method IdxShift(it: nat, e: int, ghost h: Block)
      requires Linked() && InSpace(h) && h.addr == e && it <= idxUsed && (idxUsed > 0 ==> InSpace(index[idxUsed - 1]))
      modifies this`idxUsed, this`mem, idx
      ensures idxUsed == old(idxUsed) + 1
      ensures old(idxUsed) < idx.Length ==>
                && mem == old(mem) && idx[it] == e
                && (forall i :: 0 <= i < it ==> idx[i] == old(idx[i])) &&
                    (forall i :: it < i < idxUsed ==> idx[i] == old(idx[i - 1]))
      ensures old(idxUsed) == idx.Length ==>
                && idxBase + 4 * idx.Length + 4 <= SPACE
                && mem ==
                    WriteWord(old(mem), idxBase + 4 * idx.Length, if it == old(idxUsed) then e
                    else index[old(idxUsed) - 1].addr)
    {
      hide WriteWord;
      if it == idxUsed {
        IdxSet(idxUsed, e, h);
        idxUsed := idxUsed + 1;
      } else {
        IdxSet(idxUsed, idx[idxUsed - 1], index[idxUsed - 1]);
        ShiftUp(idx, it, idxUsed - 1);
        idxUsed := idxUsed + 1;
        idx[it] := e;
      }
    }

    /** Assignment to a place of the index, or to the word behind it. */
    method IdxSet(i: nat, e: int, ghost b: Block)
      requires i <= idx.Length && 4 <= idx.Length == (startAddr - idxBase) / 4 && 0 <= idxBase
      requires startAddr + HEADER <= SPACE
      requires InSpace(b) && e == b.addr
      modifies this`mem, idx
      ensures i < idx.Length ==> idx[..] == old(idx[..])[i := e] && mem == old(mem)
      ensures i == idx.Length ==> idx[..] == old(idx[..]) && mem == WriteWord(old(mem), idxBase + 4 * i, e)
    {
      if i < idx.Length {
        idx[i] := e;
      } else {
        mem := WriteWord(mem, idxBase + 4 * i, e);
      }
    }

    /** `heapIdx_remove`. */
    method IdxRemove(e: int, ghost h: Block)
      requires Linked()
      requires h.addr == e && forall o :: o in index && o.addr == e ==> o == h
      modifies this`idxUsed, this`index, idx
      ensures Linked() && index == Remove(old(index), h)
    {
      ghost var ix := index;
      var it := 0;
      while it < idxUsed
        invariant 0 <= it <= idxUsed
        invariant forall i :: 0 <= i < it ==> ix[i] != h
      {
        assert ix[it] in index;
        if idx[it] == e {
          break;
        }
        it := it + 1;
      }
      if it == idxUsed {
        return;
      }
      assert ix[it] in index && Position(ix, h) == it;
      idxUsed := idxUsed - 1;
      ShiftDown(idx, it, idxUsed);
      index := Remove(ix, h);
    }

    /**
     `heap_create`, once the kernel has granted the segment: `start` is rounded up to a page, the
     index takes the first `idxSize` bytes and one hole takes all of the data.
     */
    constructor Create(m: Memory, start: int, idxSize: int, dataSize: int, maxDataSize: int)
      requires 0 <= start && 16 <= idxSize && TAGS <= dataSize <= maxDataSize
      requires PageUp(start) + idxSize + maxDataSize + HEADER <= SPACE
      ensures Valid() && fresh(idx) && idx.Length == idxSize / 4
      ensures var base := PageUp(start);
              State() == HeapModel.Create(base + idxSize, base + idxSize + dataSize, base + idxSize + maxDataSize)
      ensures Agree(m, mem, startAddr, endAddr)
    {
      hide Inv, ReadWord, WriteWord;
      var base := PageUp(start);
      idxBase, startAddr, endAddr, maxEnd := base, base + idxSize, base + idxSize + dataSize,
          base + idxSize + maxDataSize;
      idx := new int[idxSize / 4];
      idxUsed := 0;
      var hole := base + idxSize;
      var footer := base + idxSize + dataSize - FOOTER;
      var m1 := WriteWord(m, hole + 8, dataSize);
      var m2 := WriteWord(m1, hole, MAGIC);
      var m3 := WriteWord(m2, hole + 4, 1);
      var m4 := WriteWord(m3, footer + 4, hole);
      mem := WriteWord(m4, footer, MAGIC);
      ghost var h := Block(hole, dataSize, true);
      blocks, index := [h], [];
      new;
      assert Tagged(mem, h);
      IdxInsert(hole, h);
      assert index == [h];
      CreateInv(startAddr, endAddr, maxEnd);
    }

    /** Give the last hole, whose header is at `header`, a new end: the writes shared by expanding and contracting. */
    method RetagLast(header: int, newEnd: int)
      requires Valid() && Last(State()).hole && header == Last(State()).addr
      requires 0 <= header && header + TAGS <= newEnd <= maxEnd
      modifies this`mem, this`idxUsed, this`index, this`blocks, this`endAddr, idx
      ensures Valid() && State() == ResizeLast(old(State()), newEnd - header)
      ensures forall b :: b in Live(old(State())) ==> Untouched(old(mem), mem, b)
    {
      hide ReadWord, WriteWord, Tile, Coalesced, Indexes, Live, AllTagged, Insert, Remove;
      ghost var s, size := State(), newEnd - header;
      ghost var last, t := Last(s), ResizeLast(s, size);
      LastEntry(s);
      IdxRemove(header, last);
      mem := WriteWord(mem, header + 8, newEnd - header);
      var footer := newEnd - FOOTER;
      mem := WriteWord(mem, footer, MAGIC);
      mem := WriteWord(mem, footer + 4, header);
      RetagTags(s, old(mem), last, size);
      ResizeLastInv(s, size);
      blocks, endAddr := t.blocks, newEnd;
      EnterReady(t, Remove(s.index, last), last.(size := size), mem);
      IdxInsert(header, last.(size := size));
    }

    /** The new bytes of an expansion as a hole of their own. */
    method AppendHole(newEnd: int, quantity: int)
      requires Valid() && !Last(State()).hole && idxUsed < idx.Length
      requires TAGS <= quantity && newEnd == endAddr + quantity <= maxEnd
      modifies this`mem, this`idxUsed, this`index, this`blocks, this`endAddr, idx
      ensures Valid() && State() == Grow(old(State()), quantity)
      ensures forall b :: b in Live(old(State())) ==> Untouched(old(mem), mem, b)
    {
      hide ReadWord, WriteWord, Tile, Coalesced, Insert, Holes, Sorted;
      ghost var s := State();
      ghost var tail := Block(endAddr, quantity, true);
      ghost var t := Grow(s, quantity);
      TileBounds(blocks, startAddr, endAddr);
      var header := endAddr;
      var footer := newEnd - FOOTER;
      mem := WriteWord(mem, header + 4, 1);
      mem := WriteWord(mem, header, MAGIC);
      mem := WriteWord(mem, header + 8, quantity);
      mem := WriteWord(mem, footer, MAGIC);
      mem := WriteWord(mem, footer + 4, header);
      assert Tagged(mem, tail);
      KeepTagged(old(mem), mem, s.blocks, header, newEnd);
      GrowInv(s, quantity);
      blocks, endAddr := t.blocks, newEnd;
      EnterReady(t, s.index, tail, mem);
      IdxInsert(header, tail);
    }

    /**
     `heap_expand`: ask for `quantity` more bytes, rounded up to pages; refused beyond the maximum
     or by the kernel. The new bytes extend a last hole or become a new one.
     */
    method Expand(quantity: int, grant: int -> bool) returns (ok: bool)
      requires Valid() && 0 <= quantity && PageUp(quantity) < SPACE
      requires endAddr + PageUp(quantity) < SPACE || Wrap(endAddr + PageUp(quantity)) > maxEnd ||
               !grant(Wrap(endAddr + PageUp(quantity)))
      requires endAddr + PageUp(quantity) <= maxEnd && grant(endAddr + PageUp(quantity)) ==>
                 0 < quantity && (Last(State()).hole || idxUsed < idx.Length)
      modifies this`mem, this`idxUsed, this`index, this`blocks, this`endAddr, idx
      ensures Valid()
      ensures ok == (old(endAddr) + PageUp(quantity) <= maxEnd && grant(old(endAddr) + PageUp(quantity)))
      ensures State() == if ok then Grow(old(State()), PageUp(quantity)) else old(State())
      ensures forall b :: b in Live(old(State())) ==> Untouched(old(mem), mem, b)
    {
      hide ReadWord, Tile, Coalesced, Indexes, ResizeLast, Insert, Live;
      LastTagged(State(), mem);
      var q := PageUp(quantity);
      if Wrap(endAddr + q) > maxEnd {
        return false;
      }
      var newEnd := Wrap(endAddr + q);
      if !grant(newEnd) {
        return false;
      }
      var lastFooter := endAddr - FOOTER;
      var lastHeader := ReadWord(mem, lastFooter + 4);
      if ReadWord(mem, lastHeader + 4) != 0 {
        RetagLast(lastHeader, newEnd);
      } else {
        AppendHole(newEnd, q);
      }
      return true;
    }

    /**
     `heap_contract`: give back whole pages of a last hole, down to the minimum span, if the kernel
     agrees. What is left of the hole must be able to hold its own tags.
     */
    method Contract(grant: int -> bool)
      requires Valid() && (Last(State()).hole ==> SafeToContract(State(), Last(State()).size, grant))
      modifies this`mem, this`idxUsed, this`index, this`blocks, this`endAddr, idx
      ensures Valid() && State() == HeapRuns.Contract(old(State()), grant)
      ensures forall b :: b in Live(old(State())) ==> Untouched(old(mem), mem, b)
    {
      hide ReadWord, Tile, Coalesced, Indexes, ResizeLast, Live;
      LastTagged(State(), mem);
      var lastFooter := endAddr - FOOTER;
      var lastHeader := ReadWord(mem, lastFooter + 4);
      if ReadWord(mem, lastHeader + 4) == 0 {
        return;
      }
      var size := ReadWord(mem, lastHeader + 8);
      var quantity := ContractLoop(endAddr - startAddr, size);
      if quantity == 0 {
        return;
      }
      var newEnd := endAddr - quantity;
      if !grant(newEnd) {
        return;
      }
      RetagLast(lastHeader, newEnd);
    }

    /** The search of `heap_alloc`: the first entry of the index with room for `newSize` bytes. */
    method FindHole(newSize: int) returns (it: nat)
      requires Linked() && SizesStored(mem, index)
      ensures it == First(index, newSize)
    {
      hide ReadWord;
      it := 0;
      while it < idxUsed
        invariant 0 <= it <= idxUsed
        invariant forall i :: 0 <= i < it ==> index[i].size < newSize
      {
        assert index[it] in index;
        if ReadWord(mem, idx[it] + 8) >= newSize {
          break;
        }
        it := it + 1;
      }
      assert it < idxUsed ==> index[it] in index;
      FirstUnique(index, newSize, it);
    }

    /** The writes that split the block at `loc`, of `h`'s extent and no longer marked a hole, after `newSize` bytes. */
    method SplitTags(loc: int, newSize: int, footer: int, ghost h: Block)
      requires InSpace(h) && loc == h.addr && footer == EndOf(h) - FOOTER && TAGS <= newSize
      requires newSize + TAGS < h.size < SPACE
      requires ReadWord(mem, loc) == MAGIC && ReadWord(mem, loc + 4) == 0
      modifies this`mem
      ensures forall b :: b in CarvedRun(h, newSize) ==> InSpace(b) && Tagged(mem, b)
      ensures Agree(old(mem), mem, h.addr, EndOf(h))
    {
      hide ReadWord, WriteWord;
      mem := WriteWord(mem, loc + 8, newSize);
      var newFooter := loc + newSize - FOOTER;
      mem := WriteWord(mem, newFooter + 4, loc);
      mem := WriteWord(mem, newFooter, MAGIC);
      var nextLoc := loc + newSize;
      mem := WriteWord(mem, nextLoc + 4, 1);
      mem := WriteWord(mem, nextLoc, MAGIC);
      mem := WriteWord(mem, nextLoc + 8, footer - nextLoc + FOOTER);
      mem := WriteWord(mem, footer + 4, nextLoc);
      mem := WriteWord(mem, footer, MAGIC);
    }

    /** The hole `h` is marked as used and leaves the index. */
    method MarkUsed(loc: int, ghost h: Block)
      requires Linked() && InSpace(h) && Tagged(mem, h) && loc == h.addr
      requires forall o :: o in index && o.addr == h.addr ==> o == h
      modifies this`mem, this`idxUsed, this`index, idx
      ensures Linked() && index == Remove(old(index), h)
      ensures Tagged(mem, h.(hole := false)) && Agree(old(mem), mem, h.addr, EndOf(h))
    {
      hide ReadWord, WriteWord;
      mem := WriteWord(mem, loc + 4, 0);
      IdxRemove(loc, h);
    }

    /**
     The rest of `heap_alloc`, for the hole `h` at `loc`: take it out of the index and hand it out, split if worth
     while.
     */
    method Handout(loc: int, newSize: int, ghost h: Block) returns (ptr: int)
      requires Valid() && h in blocks && h.hole && loc == h.addr && TAGS <= newSize <= h.size
      modifies this`mem, this`idxUsed, this`index, this`blocks, idx
      ensures Valid() && State() == Carve(old(State()), h, newSize) && ptr == h.addr + HEADER
      ensures forall b :: b in Live(old(State())) ==> Untouched(old(mem), mem, b)
    {
      hide ReadWord, WriteWord, Tile, Coalesced, Indexes, Live, AllTagged, Insert, Remove;
      ghost var s := State();
      ghost var t := Carve(s, h, newSize);
      HoleEntry(s, mem, h);
      CarveInv(s, h, newSize);
      var footer := loc + ReadWord(mem, loc + 8) - FOOTER;
      MarkUsed(loc, h);
      if ReadWord(mem, loc + 8) > newSize + HEADER + FOOTER {
        SplitTags(loc, newSize, footer, h);
        CarveTags(s, old(mem), mem, h, newSize);
        blocks := t.blocks;
        var nextLoc := loc + newSize;
        ghost var rest := Block(nextLoc, h.size - newSize, true);
        EnterReady(t, Remove(s.index, h), rest, mem);
        IdxInsert(nextLoc, rest);
      } else {
        assert Tagged(mem, Carved(h, newSize));
        CarveTags(s, old(mem), mem, h, newSize);
        blocks := t.blocks;
      }
      ptr := loc + HEADER;
    }

    /**
     `heap_alloc`: carve the first sufficient entry of the index, or expand and start again. The
     kernel's answers to the expansions are given by `grant`; 0 is returned on failure.
     */
    method Alloc(sz: Word, grant: int -> bool) returns (ptr: int)
      requires Valid() && NonWrapping(State(), sz, grant) && RoomToAlloc(State(), sz, grant, idx.Length)
      modifies this`mem, this`idxUsed, this`index, this`blocks, this`endAddr, idx
      ensures Valid()
      ensures State() == HeapRuns.Alloc(old(State()), sz, grant).state
      ensures var got := HeapRuns.Alloc(old(State()), sz, grant).got;
              ptr == if got.Some? then got.value.addr + 12 else 0
      ensures forall b :: b in Live(old(State())) ==> Untouched(old(mem), mem, b)
      decreases Rounds(State(), sz)
    {
      hide ReadWord, Tile, Coalesced, Indexes, Grow, Carve, Live, HeapRuns.Alloc, Rounds, Last, PageUp, Finish,
          NonWrapping, First;
      ghost var s := State();
      IndexMembers(index, blocks);
      TaggedSizes(mem, blocks, index);
      var newSize := Wrap(sz + HEADER + FOOTER);
      var it := FindHole(newSize);
      SearchMeans(s, sz, grant);
      if it == idxUsed {
        WholePages(s, sz, grant);
        var ok := Expand(Wrap(sz - sz % PAGE + PAGE), grant);
        if !ok {
          AllocFails(s, sz, grant);
          return 0;
        }
        GrowRounds(s, sz);
        GrowLast(s, Quantity(sz));
        AllocAgain(s, sz, grant);
        NonWrappingNext(s, sz, grant);
        ghost var m1 := mem;
        ptr := Alloc(sz, grant);
        UntouchedTwice(s, old(mem), m1, mem);
        return;
      }
      AllocHits(s, sz, grant);
      ptr := Handout(idx[it], newSize, index[it]);
    }

    /** The part of `heap_free` that unites the block with a hole before it. */
    method UniteLeft(block: int, footer: int, ghost k: nat) returns (header: int)
      requires Valid() && k < |blocks| && !blocks[k].hole
      requires block == blocks[k].addr && footer == EndOf(blocks[k]) - FOOTER
      requires 16 <= startAddr < SPACE && (k == 0 ==> ReadWord(mem, startAddr - FOOTER) != MAGIC)
      modifies this`mem, this`idxUsed, this`index, idx
      ensures Linked() && index == RemoveAny(old(index), Before(blocks, k))
      ensures var b := LeftMerged(blocks, k);
              && header == b.addr && InSpace(b) && Tagged(mem, b) && EndOf(b) == footer + FOOTER
              && Agree(old(mem), mem, b.addr, EndOf(b))
    {
      hide ReadWord, WriteWord, Tile, Coalesced, Indexes, Remove;
      NeighbourTags(State(), mem, k);
      header := block;
      var prevFooter := header - FOOTER;
      if ReadWord(mem, prevFooter) == MAGIC && ReadWord(mem, ReadWord(mem, prevFooter + 4) + 4) != 0 {
        EntryUnique(State(), blocks[k - 1]);
        header := ReadWord(mem, prevFooter + 4);
        IdxRemove(header, blocks[k - 1]);
        mem := WriteWord(mem, footer + 4, header);
        mem := WriteWord(mem, header + 8, footer - header + FOOTER);
      }
    }

    /** The part of `heap_free` that unites the block, now `b`, with a hole after it. */
    method UniteRight(header: int, ownFooter: int, ghost b: Block, ghost next: Option<Block>) returns (footer: int)
      requires Linked() && InSpace(b) && Tagged(mem, b) && EndOf(b) + HEADER <= SPACE
      requires header == b.addr && ownFooter == EndOf(b) - FOOTER
      requires next.None? ==> ReadWord(mem, EndOf(b)) != MAGIC
      requires next.Some? ==>
                 && InSpace(next.value) && Tagged(mem, next.value) && next.value.addr == EndOf(b) &&
                     EndOf(next.value) < SPACE
                 && forall o :: o in index && o.addr == next.value.addr ==> o == next.value
      modifies this`mem, this`idxUsed, this`index, idx
      ensures Linked()
      ensures var joins := next.Some? && next.value.hole;
              var e := if joins then EndOf(next.value) else EndOf(b);
              var r := Block(b.addr, e - b.addr, b.hole);
              && index == (if joins then Remove(old(index), next.value) else old(index))
              && footer == e - FOOTER && InSpace(r) && Tagged(mem, r) && Agree(old(mem), mem, b.addr, e)
    {
      hide ReadWord, WriteWord, Remove;
      footer := ownFooter;
      var nextHeader := footer + FOOTER;
      if ReadWord(mem, nextHeader) == MAGIC && ReadWord(mem, nextHeader + 4) != 0 {
        IdxRemove(nextHeader, next.value);
        footer := footer + ReadWord(mem, nextHeader + 8);
        mem := WriteWord(mem, footer + 4, header);
        mem := WriteWord(mem, header + 8, footer - header + FOOTER);
      }
    }

    /** Both unifications of `heap_free`, up to marking the result a hole. */
    method UniteTags(block: int, ownFooter: int, ghost k: nat) returns (header: int, footer: int)
      requires Valid() && k < |blocks| && !blocks[k].hole
      requires block == blocks[k].addr && ownFooter == EndOf(blocks[k]) - FOOTER
      requires NoFalseTags(k)
      modifies this`mem, this`idxUsed, this`index, idx
      ensures Linked() && index == RemoveAny(RemoveAny(old(index), Before(blocks, k)), After(blocks, k))
      ensures header == Merged(blocks, k).addr && footer == EndOf(Merged(blocks, k)) - FOOTER
      ensures InSpace(Merged(blocks, k)) && Tagged(mem, Merged(blocks, k))
      ensures Agree(old(mem), mem, Merged(blocks, k).addr, EndOf(Merged(blocks, k)))
    {
      hide ReadWord, WriteWord, Tile, Coalesced, Indexes, AllTagged, Remove, RemoveAny, Merged, LeftMerged, Before,
          After;
      ghost var s, m0 := State(), mem;
      header := UniteLeft(block, ownFooter, k);
      footer := UniteAfter(header, ownFooter, s, m0, k);
      ghost var m1 := mem;
      mem := WriteWord(mem, header + 4, 1);
      MarkedHole(m1, mem, Merged(blocks, k), s, k);
      AgreeTwice(m0, m1, mem, Merged(blocks, k), Merged(blocks, k));
    }

    /** The second of these, the first having been made in state `s` with memory `m0`. */
    method UniteAfter(header: int, ownFooter: int, ghost s: HeapModel.State, ghost m0: Memory,
        ghost k: nat) returns (footer: int)
      requires Linked() && Inv(s) && AllTagged(m0, s.blocks) && k < |s.blocks| && !s.blocks[k].hole
      requires s.end + HEADER <= SPACE
      requires index == RemoveAny(s.index, Before(s.blocks, k)) &&
               (k + 1 == |s.blocks| ==> ReadWord(m0, s.end) != MAGIC)
      requires var b := LeftMerged(s.blocks, k);
               && header == b.addr && InSpace(b) && Tagged(mem, b) && EndOf(b) == ownFooter + FOOTER
               && Agree(m0, mem, b.addr, EndOf(b))
      modifies this`mem, this`idxUsed, this`index, idx
      ensures Linked() && index == RemoveAny(old(index), After(s.blocks, k))
      ensures var m := Merged(s.blocks, k).(hole := LeftMerged(s.blocks, k).hole);
              && header == m.addr && footer == EndOf(m) - FOOTER && InSpace(m) && Tagged(mem, m)
              && Agree(m0, mem, m.addr, EndOf(m))
    {
      hide ReadWord, WriteWord, Tile, Coalesced, Indexes, AllTagged, Remove, Tagged, Before, LeftMerged;
      ghost var left, m := LeftMerged(s.blocks, k), Merged(s.blocks, k);
      ghost var next := if k + 1 < |s.blocks| then Some(s.blocks[k + 1]) else None;
      NeighbourTags(s, m0, k);
      MergedEnds(s, k);
      NextReady(s, m0, mem, k, index);
      ghost var m1 := mem;
      footer := UniteRight(header, ownFooter, left, next);
      AgreeTwice(m0, m1, mem, left, m);
    }

    /** The coalescing part of `heap_free`, for the live block at position `k`. */
    method Unite(block: int, ownFooter: int, ghost k: nat) returns (header: int, footer: int)
      requires Valid() && k < |blocks| && !blocks[k].hole
      requires block == blocks[k].addr && ownFooter == EndOf(blocks[k]) - FOOTER
      requires RoomToFree(State(), k, idx.Length) && NoFalseTags(k)
      modifies this`mem, this`idxUsed, this`index, this`blocks, idx
      ensures Valid() && State() == Release(old(State()), k)
      ensures header == Merged(old(blocks), k).addr && footer == EndOf(Merged(old(blocks), k)) - FOOTER
      ensures InSpace(Merged(old(blocks), k)) && ReadWord(mem, header + 8) == Merged(old(blocks), k).size
      ensures forall b :: b in Live(State()) ==> Untouched(old(mem), mem, b)
    {
      hide ReadWord, WriteWord, Tile, Coalesced, Indexes, AllTagged, RemoveAny, Insert, Live, Merged, Before, After;
      ghost var s, t, m := State(), Release(State(), k), Merged(blocks, k);
      header, footer := UniteTags(block, ownFooter, k);
      ReleaseInv(s, k);
      ReleaseTags(s, old(mem), mem, k);
      blocks := t.blocks;
      ReleaseSorted(s, k);
      EnterReady(t, index, m, mem);
      IdxInsert(header, m);
    }

    /** What `heap_free` returns from at once: null, a pointer outside the heap, one without a header in front of it. */
    predicate Ignored(ptr: int)
      requires 16 <= startAddr && endAddr <= SPACE
      reads this
    {
      ptr == 0 || ptr < startAddr || ptr > endAddr || ReadWord(mem, ptr - HEADER) != MAGIC
    }

    /** A live block is not ignored. */
    lemma NotIgnored(k: nat)
      requires Valid() && k < |blocks| && !blocks[k].hole
      ensures !Ignored(blocks[k].addr + HEADER)
    {
      hide ReadWord, Tile, Coalesced, Indexes;
      NeighbourTags(State(), mem, k);
    }

    /**
     `heap_free`: the pointer is one that is ignored, or that of the live block at position `k`,
     which becomes a hole united with its neighbours; a large last hole is then contracted.
     */
    method Free(ptr: int, grant: int -> bool, ghost k: nat)
      requires Valid()
      requires Ignored(ptr) || (k < |blocks| && !blocks[k].hole && ptr == blocks[k].addr + HEADER)
      requires !Ignored(ptr) ==> NoFalseTags(k) && SafeToFree(State(), k, grant) && RoomToFree(State(), k, idx.Length)
      modifies this`mem, this`idxUsed, this`index, this`blocks, this`endAddr, idx
      ensures Valid()
      ensures State() == if old(Ignored(ptr)) then old(State()) else HeapRuns.FreeBlock(old(State()), k, grant)
      ensures old(Ignored(ptr)) ==> mem == old(mem)
      ensures forall b :: b in Live(old(State())) && b in Live(State()) ==> Untouched(old(mem), mem, b)
    {
      hide ReadWord, Tile, Coalesced, Indexes, Release, Live, HeapRuns.Contract;
      if ptr == 0 {
        return;
      }
      if ptr < startAddr || ptr > endAddr {
        return;
      }
      var header := ptr - HEADER;
      if ReadWord(mem, header) != MAGIC {
        return;
      }
      ghost var s := State();
      NeighbourTags(s, mem, k);
      var footer := header + ReadWord(mem, header + 8) - FOOTER;
      if ReadWord(mem, footer) != MAGIC {
        assert false;
      }
      header, footer := Unite(header, footer, k);
      ghost var m1, r := mem, State();
      ReleaseLast(s, k);
      if footer == endAddr - FOOTER && ReadWord(mem, header + 8) >= CONTRACT_AT && endAddr - startAddr > MIN_SPAN {
        Contract(grant);
        ContractLive(r, s, k, grant);
        UntouchedTwice(r, old(mem), m1, mem);
      }
    }
  }

  /** `heap_create`: no heap when the kernel refuses the segment. */
  method HeapCreate(m: Memory, start: int, idxSize: int, dataSize: int, maxDataSize: int, grant: int -> bool)
    returns (h: Heap?, r: int)
    requires 0 <= start && 16 <= idxSize && TAGS <= dataSize <= maxDataSize
    requires PageUp(start) + idxSize + maxDataSize + HEADER <= SPACE
    ensures r == if grant(PageUp(start) + idxSize + dataSize) then 0 else -1
    ensures h == null <==> r == -1
    ensures h != null ==>
              && fresh(h) && fresh(h.idx) && h.Valid() && h.idx.Length == idxSize / 4
              && var base := PageUp(start) + idxSize;
                 h.State() == HeapModel.Create(base, base + dataSize, base + maxDataSize)
  {
    hide Inv, AllTagged, HeapModel.Create;
    if !grant(PageUp(start) + idxSize + dataSize) {
      return null, -1;
    }
    h := new Heap.Create(m, start, idxSize, dataSize, maxDataSize);
    return h, 0;
  }

  /**
   A call of the program on the heap in memory: where the run model enables it, it makes that step, hands out the piece
   entered into the ledger, and leaves every byte of every piece that stays in the ledger.
   */
  method Perform(h: Heap, op: Op, ghost p: Program) returns (ptr: int)
    requires h.Valid() && h.State() == p.heap && h.idx.Length == p.capacity && Sound(p) && Enabled(p, op)
    requires op.Free? ==> h.NoFalseTags(Position(h.blocks, op.piece))
    modifies h`mem, h`idxUsed, h`index, h`blocks, h`endAddr, h.idx
    ensures h.Valid() && h.State() == Step(p, op).heap && h.idx.Length == Step(p, op).capacity
    ensures op.Malloc? ==>
              var got := HeapRuns.Alloc(p.heap, op.sz, op.grant).got;
              ptr == if got.Some? then got.value.addr + 12 else 0
    ensures forall b :: b in p.ledger && b in Step(p, op).ledger ==> Untouched(old(h.mem), h.mem, b)
  {
    hide Inv, AllTagged, HeapRuns.Alloc, FreeBlock, NonWrapping, RoomToAlloc, RoomToFree, SafeToFree;
    StepSound(p, op);
    ghost var s := h.State();
    ptr := 0;
    match op
    case Malloc(sz, grant) => ptr := h.Alloc(sz, grant);
    case Free(b, grant) =>
      ghost var k := Position(h.blocks, b);
      assert b in Live(s);
      h.NotIgnored(k);
      h.Free(b.addr + HEADER, grant, k);
    case FreeNull =>
      h.Free(0, _ => true, 0);
  }
}
