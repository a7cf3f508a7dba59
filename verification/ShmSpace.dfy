/**
 The allocator of addresses for shared memory: a list of blocks over [0x80000000, 0xD0000000),
 described here by what each operation does to the sequence of blocks. `Block` and `Tile` are
 those of the heap; a block of whole pages is always longer than the least block of a tiling.
 */
module ShmSpace {
  import opened Common
  import opened Words
  import opened HeapBlocks
  import opened HeapModel

  const LOW: int := 0x8000_0000
  const HIGH: int := 0xD000_0000

  ghost predicate Paged(bs: seq<Block>)
  {
    forall b :: b in bs ==> b.size % PAGE == 0
  }

  ghost predicate Sound(bs: seq<Block>)
  {
    bs != [] && Tile(bs, LOW, HIGH) && Coalesced(bs) && Paged(bs)
  }

  const INITIAL: seq<Block> := [Block(LOW, HIGH - LOW, true)]

  lemma InitialSound()
    ensures Sound(INITIAL)
  {
    assert Tile(INITIAL[1..], HIGH, HIGH);
  }

  /** The size actually reserved; both the sum and the request are 32-bit. */
  function Rounded(size: Word): Word
  {
    if size % PAGE != 0 then Wrap(size - size % PAGE + PAGE) else size
  }

  /** Exactly the sizes 1 .. 0xFFFFF000 round to a positive number of pages that holds them. */
  lemma RoundedPositive(size: Word)
    ensures Rounded(size) % PAGE == 0
    ensures Rounded(size) > 0 <==> 0 < size <= 0xFFFF_F000
    ensures Rounded(size) > 0 ==> size <= Rounded(size) < size + PAGE
  {
  }

  predicate Fits(b: Block, size: int) { b.hole && b.size >= size }

  /**
   The block chosen among the first `n`: a smallest hole that fits, the first of these; `n` itself stands for none.
   */
  function Chosen(bs: seq<Block>, n: nat, size: int): (k: nat)
    requires n <= |bs|
    ensures k < n ==> Fits(bs[k], size)
    ensures k < n ==> forall i :: 0 <= i < n && Fits(bs[i], size) ==>
            bs[k].size <= bs[i].size && (i < k ==> bs[k].size < bs[i].size)
    ensures k >= n ==> k == n && forall i :: 0 <= i < n ==> !Fits(bs[i], size)
  {
    if n == 0 then 0
    else
      var k := Chosen(bs, n - 1, size);
      if Fits(bs[n - 1], size) && (k == n - 1 || bs[n - 1].size < bs[k].size) then n - 1
      else if k == n - 1 then n else k
  }

  /** Block `k` with its first `size` bytes taken into use, the rest staying a hole. */
  function Take(bs: seq<Block>, k: nat, size: int): seq<Block>
    requires k < |bs|
  {
    var b := bs[k];
    if b.size > size then
      bs[..k] + [Block(b.addr, size, false), Block(b.addr + size, b.size - size, true)] + bs[k + 1..]
    else
      bs[..k] + [b.(hole := false)] + bs[k + 1..]
  }

  datatype Taken = Taken(blocks: seq<Block>, ptr: int)

  function Alloc(bs: seq<Block>, size: Word): Taken
  {
    var k := Chosen(bs, |bs|, Rounded(size));
    if k == |bs| then Taken(bs, 0) else Taken(Take(bs, k, Rounded(size)), bs[k].addr)
  }

  /** The position of the first block that starts at `p`, or the number of blocks. */
  function Find(bs: seq<Block>, p: int): (k: nat)
    ensures k <= |bs| && (k < |bs| ==> bs[k].addr == p) && forall i :: 0 <= i < k ==> bs[i].addr != p
  {
    if bs == [] || bs[0].addr == p then 0 else 1 + Find(bs[1..], p)
  }

  lemma FindIs(bs: seq<Block>, p: int, k: nat)
    requires k <= |bs| && (k < |bs| ==> bs[k].addr == p) && forall i :: 0 <= i < k ==> bs[i].addr != p
    ensures Find(bs, p) == k
  {
  }

  /** The hole that block `k` becomes, its size being the sum of the sizes. */
  function United(bs: seq<Block>, k: nat): Block
    requires k < |bs|
  {
    Block(if HoleBefore(bs, k) then bs[k - 1].addr else bs[k].addr,
          (if HoleBefore(bs, k) then bs[k - 1].size else 0) + bs[k].size +
              (if HoleAfter(bs, k) then bs[k + 1].size else 0),
          true)
  }

  /** Block `k` becomes a hole, united with the holes on either side. */
  function GiveBack(bs: seq<Block>, k: nat): seq<Block>
    requires k < |bs|
  {
    bs[..k - |Before(bs, k)|] + [United(bs, k)] + bs[k + 1 + |After(bs, k)|..]
  }

  /** `unify` of the block at `k` with the next one. */
  function UnifyAt(bs: seq<Block>, k: nat): seq<Block>
    requires k < |bs|
  {
    if k + 1 < |bs| && bs[k].hole && bs[k + 1].hole
    then bs[..k] + [bs[k].(size := bs[k].size + bs[k + 1].size)] + bs[k + 2..]
    else bs
  }

  /** Marking a block a hole, then uniting it with the next one and the one before with it, gives it back. */
  lemma UnifyTwice(bs: seq<Block>, k: nat)
    requires k < |bs|
    ensures var v := UnifyAt(bs[k := bs[k].(hole := true)], k);
            GiveBack(bs, k) == if k > 0 then UnifyAt(v, k - 1) else v
  {
    var m := bs[k := bs[k].(hole := true)];
    var v := UnifyAt(m, k);
    assert v[..k] == bs[..k] && v[k + 1..] == bs[k + 1 + |After(bs, k)|..];
    if HoleBefore(bs, k) {
      assert v[k - 1] == bs[k - 1];
      assert UnifyAt(v, k - 1) == v[..k - 1] + [United(bs, k)] + v[k + 1..];
      assert v[..k - 1] == bs[..k - 1];
    } else {
      assert v == v[..k] + [v[k]] + v[k + 1..];
      assert k > 0 ==> v[k - 1] == bs[k - 1];
    }
  }

  function Free(bs: seq<Block>, p: int): seq<Block>
  {
    var k := Find(bs, p);
    if k == |bs| then bs else GiveBack(bs, k)
  }

  lemma FreeInitial(p: int)
    ensures Free(INITIAL, p) == INITIAL
  {
    if p == LOW {
      FindIs(INITIAL, p, 0);
    } else {
      FindIs(INITIAL, p, 1);
    }
  }

  // ---------------------------------------------------------------- what every operation keeps

  lemma TakeSound(bs: seq<Block>, k: nat, size: int)
    requires Sound(bs) && k < |bs| && bs[k].hole && 0 < size <= bs[k].size && size % PAGE == 0
    ensures Sound(Take(bs, k, size))
  {
    var b := bs[k];
    var mid := if b.size > size then [Block(b.addr, size, false), Block(b.addr + size, b.size - size, true)]
        else [b.(hole := false)];
    var t := Take(bs, k, size);
    assert t == bs[..k] + mid + bs[k + 1..];
    TileCut(bs, k, LOW, HIGH);
    assert b in bs;
    TakenTile(b, size, mid);
    TileSplice(bs, k, k + 1, mid, LOW, HIGH);
    CoalescedNeighbours(bs, k);
    CoalescedSplice(bs, k, k + 1, mid);
  }

  lemma TakenTile(b: Block, size: int, mid: seq<Block>)
    requires 0 < size <= b.size && size % PAGE == 0 && b.size % PAGE == 0
    requires mid == if b.size > size then [Block(b.addr, size, false), Block(b.addr + size, b.size - size, true)]
             else [b.(hole := false)]
    ensures Tile(mid, b.addr, EndOf(b)) && Paged(mid)
  {
    if b.size > size {
      assert mid[1..] == [mid[1]];
      assert Tile([mid[1]][1..], EndOf(b), EndOf(b));
    } else {
      assert Tile(mid[1..], EndOf(b), EndOf(b));
    }
  }

  /**
   A failed request, or a size that rounds to whole pages, keeps the list sound; a size of 0, given or rounded, leaves
   two blocks with one start.
   */
  lemma AllocSoundIff(bs: seq<Block>, size: Word)
    requires Sound(bs)
    ensures Sound(Alloc(bs, size).blocks) <==> 0 < size <= 0xFFFF_F000 || Chosen(bs, |bs|, Rounded(size)) == |bs|
    ensures !Sound(Alloc(bs, size).blocks) ==> TwoAt(Alloc(bs, size).blocks, Alloc(bs, size).ptr)
  {
    hide Sound, Take, Chosen, Rounded, TwoAt;
    RoundedPositive(size);
    var k, n := Chosen(bs, |bs|, Rounded(size)), Rounded(size);
    if k < |bs| {
      if n > 0 {
        TakeSound(bs, k, n);
      } else {
        ZeroTaken(bs, k);
      }
    }
  }

  /** A block in use and a hole both start at `p`. */
  ghost predicate TwoAt(bs: seq<Block>, p: int)
  {
    exists k :: 0 <= k < |bs| - 1 && bs[k].addr == p && !bs[k].hole && bs[k + 1].addr == p && bs[k + 1].hole
  }

  lemma ZeroTaken(bs: seq<Block>, k: nat)
    requires Sound(bs) && k < |bs|
    ensures !Sound(Take(bs, k, 0)) && TwoAt(Take(bs, k, 0), bs[k].addr)
  {
    hide Coalesced, Paged;
    var t := Take(bs, k, 0);
    TileCut(bs, k, LOW, HIGH);
    assert t[k] == Block(bs[k].addr, 0, false) && t[k + 1] == Block(bs[k].addr, bs[k].size, true);
    if Tile(t, LOW, HIGH) {
      TileCut(t, k, LOW, HIGH);
    }
  }

  lemma GiveBackHole(bs: seq<Block>, k: nat)
    requires k < |bs| && bs[k].hole && (k > 0 ==> !bs[k - 1].hole) && (k + 1 < |bs| ==> !bs[k + 1].hole)
    ensures GiveBack(bs, k) == bs
  {
    assert United(bs, k) == bs[k];
    assert bs == bs[..k] + [bs[k]] + bs[k + 1..];
  }

  lemma GiveBackPaged(bs: seq<Block>, k: nat)
    requires Paged(bs) && k < |bs|
    ensures Paged(GiveBack(bs, k))
  {
    var u := United(bs, k);
    assert u.size % PAGE == 0 by {
      assert bs[k] in bs && (HoleBefore(bs, k) ==> bs[k - 1] in bs) && (HoleAfter(bs, k) ==> bs[k + 1] in bs);
      PagedSum(if HoleBefore(bs, k) then bs[k - 1].size else 0, bs[k].size, if HoleAfter(bs, k) then bs[k + 1].size
          else 0);
    }
    hide United;
    forall b | b in GiveBack(bs, k)
      ensures b == u || b in bs
    {
    }
  }

  lemma PagedSum(a: int, b: int, c: int)
    requires a % PAGE == 0 && b % PAGE == 0 && c % PAGE == 0
    ensures (a + b + c) % PAGE == 0
  {
  }

  lemma GiveBackSound(bs: seq<Block>, k: nat)
    requires Sound(bs) && k < |bs|
    ensures Sound(GiveBack(bs, k))
  {
    hide Tile, Coalesced, Paged;
    if bs[k].hole {
      CoalescedNeighbours(bs, k);
      GiveBackHole(bs, k);
    } else {
      var i, j := k - |Before(bs, k)|, k + 1 + |After(bs, k)|;
      var s := State(bs, [], LOW, HIGH, HIGH);
      ReleaseTile(s, k, i, j);
      ReleaseCoalesced(bs, k, i, j);
      MergedSize(s, k);
      assert Merged(bs, k) == United(bs, k);
      GiveBackPaged(bs, k);
    }
  }

  lemma FreeSound(bs: seq<Block>, p: int)
    requires Sound(bs)
    ensures Sound(Free(bs, p))
  {
    hide GiveBack, Sound;
    if Find(bs, p) < |bs| {
      GiveBackSound(bs, Find(bs, p));
    }
  }

  // ---------------------------------------------------------------- inverse and conservation

  /** Freeing what was just allocated restores the list exactly. */
  lemma FreeUndoesAlloc(bs: seq<Block>, size: Word)
    requires Sound(bs) && 0 < size <= 0xFFFF_F000 && Alloc(bs, size).ptr != 0
    ensures Free(Alloc(bs, size).blocks, Alloc(bs, size).ptr) == bs
  {
    hide Tile, Paged, Chosen, Rounded;
    var k, n := Chosen(bs, |bs|, Rounded(size)), Rounded(size);
    RoundedPositive(size);
    TileBounds(bs, LOW, HIGH);
    var b, t := bs[k], Take(bs, k, n);
    CoalescedNeighbours(bs, k);
    forall i | 0 <= i < k
      ensures t[i].addr != b.addr
    {
      TileApart(bs, i, k, LOW, HIGH);
      TileCut(bs, i, LOW, HIGH);
    }
    FindIs(t, b.addr, k);
    GiveBackTaken(bs, k, n);
  }

  lemma GiveBackTaken(bs: seq<Block>, k: nat, size: int)
    requires k < |bs| && bs[k].hole && 0 < size <= bs[k].size
    requires (k > 0 ==> !bs[k - 1].hole) && (k + 1 < |bs| ==> !bs[k + 1].hole)
    ensures GiveBack(Take(bs, k, size), k) == bs
  {
    var b, t := bs[k], Take(bs, k, size);
    assert k > 0 ==> t[k - 1] == bs[k - 1];
    assert Before(t, k) == [];
    if b.size > size {
      assert t[k + 1] == Block(b.addr + size, b.size - size, true);
      assert United(t, k) == b;
      assert t[..k] == bs[..k] && t[k + 2..] == bs[k + 1..];
    } else {
      assert k + 1 < |bs| ==> t[k + 1] == bs[k + 1];
      assert United(t, k) == b;
      assert t[..k] == bs[..k] && t[k + 1..] == bs[k + 1..];
    }
    assert bs == bs[..k] + [b] + bs[k + 1..];
  }

  ghost function InUse(bs: seq<Block>): set<Block> { set b | b in bs && !b.hole }

  /** A smallest hole that `size` bytes fit into starts at `p`. */
  ghost predicate BestAt(bs: seq<Block>, p: int, size: int)
  {
    exists h :: h in bs && h.addr == p && Fits(h, size) && forall b :: b in bs && Fits(b, size) ==> h.size <= b.size
  }

  /**
   An allocation adds one block of the rounded size to those in use, at the start of a smallest hole that fits; it is
   refused only when no hole does.
   */
  lemma AllocInUse(bs: seq<Block>, size: Word)
    requires Sound(bs) && 0 < size <= 0xFFFF_F000
    ensures var r := Alloc(bs, size);
            if r.ptr == 0 then r.blocks == bs && (forall b :: b in bs && b.hole ==> b.size < Rounded(size))
            else
              && InUse(r.blocks) == InUse(bs) + {Block(r.ptr, Rounded(size), false)} && BestAt(bs, r.ptr, Rounded(size))
              && LOW <= r.ptr && r.ptr + Rounded(size) <= HIGH
  {
    hide Tile, Coalesced, Chosen, Rounded, Live;
    var k, n := Chosen(bs, |bs|, Rounded(size)), Rounded(size);
    RoundedPositive(size);
    TileBounds(bs, LOW, HIGH);
    if k < |bs| {
      assert bs[k] in bs;
      TakeInUse(bs, k, n);
      forall b | b in bs && Fits(b, n)
        ensures bs[k].size <= b.size
      {
        var i :| 0 <= i < |bs| && bs[i] == b;
      }
      assert BestAt(bs, bs[k].addr, n);
    } else {
      forall b | b in bs && b.hole
        ensures b.size < n
      {
        var i :| 0 <= i < |bs| && bs[i] == b;
        assert !Fits(bs[i], n);
      }
    }
  }

  lemma TakeInUse(bs: seq<Block>, k: nat, size: int)
    requires Sound(bs) && k < |bs| && bs[k].hole && size <= bs[k].size
    ensures InUse(Take(bs, k, size)) == InUse(bs) + {Block(bs[k].addr, size, false)}
  {
    var b := bs[k];
    assert bs == bs[..k] + [b] + bs[k + 1..];
    assert b.size <= size ==> Block(b.addr, size, false) == b.(hole := false);
  }

  lemma GiveBackInUse(bs: seq<Block>, k: nat)
    requires Tile(bs, LOW, HIGH) && k < |bs| && !bs[k].hole
    ensures InUse(GiveBack(bs, k)) == InUse(bs) - {bs[k]}
  {
    hide Tile, Insert, RemoveAny;
    var s := State(bs, [], LOW, HIGH, HIGH);
    ReleaseLive(s, k);
    MergedSize(s, k);
    assert Release(s, k).blocks == GiveBack(bs, k);
    assert Live(Release(s, k)) == InUse(GiveBack(bs, k)) && Live(s) == InUse(bs);
  }

  /** Freeing a block in use takes exactly that one out of use; any other argument changes nothing. */
  lemma FreeInUse(bs: seq<Block>, p: int)
    requires Sound(bs)
    ensures var k := Find(bs, p);
            if k < |bs| && !bs[k].hole then InUse(Free(bs, p)) == InUse(bs) - {bs[k]} else Free(bs, p) == bs
  {
    hide Tile, Coalesced, Paged;
    var k := Find(bs, p);
    if k < |bs| {
      if bs[k].hole {
        CoalescedNeighbours(bs, k);
        GiveBackHole(bs, k);
      } else {
        GiveBackInUse(bs, k);
      }
    }
  }

  /** With nothing in use the list is one hole again. */
  lemma NothingInUse(bs: seq<Block>)
    requires Sound(bs) && InUse(bs) == {}
    ensures bs == INITIAL
  {
    hide Tile;
    forall i | 0 <= i < |bs|
      ensures bs[i].hole
    {
      assert bs[i] !in InUse(bs);
    }
    assert bs == [bs[0]] by {
      CoalescedNeighbours(bs, 0);
    }
    TileLast(bs, LOW, HIGH);
    TileFirst(bs, LOW, HIGH);
  }

  lemma TileFirst(bs: seq<Block>, lo: int, hi: int)
    requires Tile(bs, lo, hi) && bs != []
    ensures bs[0].addr == lo
  {
  }

  // ---------------------------------------------------------------- runs

  datatype Call = DoAlloc(size: Word) | DoFree(p: int)

  /** What the program holds after each call, as it can tell from the answers. */
  ghost function After1(bs: seq<Block>, held: set<Block>, c: Call): (seq<Block>, set<Block>)
  {
    match c
    case DoAlloc(size) =>
      var r := Alloc(bs, size);
      (r.blocks, if r.ptr == 0 then held else held + {Block(r.ptr, Rounded(size), false)})
    case DoFree(p) => (Free(bs, p), set b | b in held && b.addr != p)
  }

  ghost function RunCalls(bs: seq<Block>, held: set<Block>, cs: seq<Call>): (seq<Block>, set<Block>)
    decreases |cs|
  {
    if cs == [] then (bs, held)
    else var r := After1(bs, held, cs[0]); RunCalls(r.0, r.1, cs[1..])
  }

  /**
   Over every run of calls with sizes 1 .. 0xFFFFF000 and any pointers to free: the list stays
   sound and the blocks in use are exactly those the program holds.
   */
  lemma {:induction false} EveryRun(bs: seq<Block>, held: set<Block>, cs: seq<Call>)
    requires Sound(bs) && held == InUse(bs)
    requires forall c :: c in cs && c.DoAlloc? ==> 0 < c.size <= 0xFFFF_F000
    ensures var r := RunCalls(bs, held, cs);
            Sound(r.0) && r.1 == InUse(r.0) && (r.1 == {} ==> r.0 == INITIAL)
    decreases |cs|
  {
    hide Sound, Alloc, Free, InUse, Rounded;
    if cs == [] {
      if held == {} {
        NothingInUse(bs);
      }
    } else {
      assert cs[0] in cs;
      var r := After1(bs, held, cs[0]);
      match cs[0] {
        case DoAlloc(size) =>
          AllocSoundIff(bs, size);
          AllocInUse(bs, size);
        case DoFree(p) =>
          FreeSound(bs, p);
          FreeInUse(bs, p);
          FreeHeld(bs, p);
      }
      EveryRun(r.0, r.1, cs[1..]);
    }
  }

  /** In particular from the first call on, when the list is one hole. */
  lemma FromTheStart(cs: seq<Call>)
    requires forall c :: c in cs && c.DoAlloc? ==> 0 < c.size <= 0xFFFF_F000
    ensures var r := RunCalls(INITIAL, {}, cs);
            Sound(r.0) && r.1 == InUse(r.0) && (r.1 == {} ==> r.0 == [Block(0x8000_0000, 0x5000_0000, true)])
    ensures var held := RunCalls(INITIAL, {}, cs).1;
            && (forall b :: b in held ==> 0x8000_0000 <= b.addr && b.addr + b.size <= 0xD000_0000 && b.size > 0)
            && (forall b, c :: b in held && c in held && b != c ==>
                  b.addr + b.size <= c.addr || c.addr + c.size <= b.addr)
  {
    InitialSound();
    assert InUse(INITIAL) == {};
    EveryRun(INITIAL, {}, cs);
    hide Sound, RunCalls;
    InUseApart(RunCalls(INITIAL, {}, cs).0);
  }

  /** What is in use lies in the range, and apart. */
  lemma InUseApart(bs: seq<Block>)
    requires Sound(bs)
    ensures forall b :: b in InUse(bs) ==>
              0x8000_0000 <= b.addr && b.addr + b.size <= 0xD000_0000 && b.size > 0
    ensures forall b, c :: b in InUse(bs) && c in InUse(bs) && b != c ==>
              b.addr + b.size <= c.addr || c.addr + c.size <= b.addr
  {
    TileBounds(bs, LOW, HIGH);
    hide Coalesced, Paged, Tile;
    forall b, c | b in InUse(bs) && c in InUse(bs) && b != c
      ensures b.addr + b.size <= c.addr || c.addr + c.size <= b.addr
    {
      var i :| 0 <= i < |bs| && bs[i] == b;
      var j :| 0 <= j < |bs| && bs[j] == c;
      if i < j {
        TileApart(bs, i, j, LOW, HIGH);
      } else {
        TileApart(bs, j, i, LOW, HIGH);
      }
    }
  }

  lemma FreeHeld(bs: seq<Block>, p: int)
    requires Sound(bs)
    ensures InUse(Free(bs, p)) == set b | b in InUse(bs) && b.addr != p
  {
    hide Tile, Coalesced, Paged, Free;
    FreeInUse(bs, p);
    TileBounds(bs, LOW, HIGH);
    var k := Find(bs, p);
    forall b | b in InUse(bs) && b.addr == p
      ensures k < |bs| && b == bs[k]
    {
      var i :| 0 <= i < |bs| && bs[i] == b;
      assert k <= i;
      TileCut(bs, k, LOW, HIGH);
      if k < i {
        TileApart(bs, k, i, LOW, HIGH);
      }
    }
  }
}
