/**
 The heap of the user library as a state of blocks and index: what each operation
 does to them, and what every operation keeps. The byte-level heap in `Heap` is
 proved to refine these functions.
 */
module HeapModel {
  import opened Common
  import opened Words
  import opened HeapBlocks

  const MIN_SPAN: int := 0x4000
  const CONTRACT_AT: int := 0x2000

  datatype State = State(blocks: seq<Block>, index: seq<Block>, start: int, end: int, maxEnd: int)

  ghost predicate Inv(s: State)
  {
    && 0 <= s.start <= s.end <= s.maxEnd < SPACE
    && s.blocks != []
    && Tile(s.blocks, s.start, s.end)
    && Coalesced(s.blocks)
    && Indexes(s.index, s.blocks)
  }

  /** The blocks in the hands of the program. */
  ghost function Live(s: State): set<Block> { set b | b in s.blocks && !b.hole }

  function Last(s: State): Block
    requires s.blocks != []
  {
    s.blocks[|s.blocks| - 1]
  }

  // ---------------------------------------------------------------- create

  function Create(start: int, end: int, maxEnd: int): State
  {
    var hole := Block(start, end - start, true);
    State([hole], [hole], start, end, maxEnd)
  }

  lemma CreateInv(start: int, end: int, maxEnd: int)
    requires 0 <= start && start + TAGS <= end <= maxEnd < SPACE
    ensures Inv(Create(start, end, maxEnd)) && Live(Create(start, end, maxEnd)) == {}
  {
    var hole := Block(start, end - start, true);
    assert Tile([hole][1..], end, end);
    HolesOne(hole);
  }

  // ---------------------------------------------------------------- expand

  /** Whole pages, rounded up. */
  function PageUp(x: int): (r: int)
    requires 0 <= x
    ensures r % PAGE == 0 && x <= r < x + PAGE
  {
    if x % PAGE != 0 then x - x % PAGE + PAGE else x
  }

  function Grow(s: State, q: int): State
    requires s.blocks != []
  {
    if Last(s).hole then
      ResizeLast(s, Last(s).size + q)
    else
      var tail := Block(s.end, q, true);
      s.(blocks := s.blocks + [tail], index := Insert(s.index, tail), end := s.end + q)
  }

  lemma GrowInv(s: State, q: int)
    requires Inv(s) && TAGS <= q && s.end + q <= s.maxEnd
    ensures Inv(Grow(s, q))
    ensures Live(Grow(s, q)) == Live(s)
    ensures Last(Grow(s, q)).hole && Last(Grow(s, q)).size >= q
    ensures Last(s).hole ==> Last(Grow(s, q)).size == Last(s).size + q
    ensures |Grow(s, q).index| == |s.index| + if Last(s).hole then 0 else 1
  {
    var n := |s.blocks|;
    var last := Last(s);
    TileLast(s.blocks, s.start, s.end);
    if last.hole {
      ResizeLastInv(s, last.size + q);
    } else {
      var tail := Block(s.end, q, true);
      var t := Grow(s, q);
      assert Tile([tail][1..], s.end + q, s.end + q);
      TileAppend(s.blocks, [tail], s.start, s.end, s.end + q);
      HolesAppend(s.blocks, [tail]);
      HolesOne(tail);
      InsertProperties(s.index, tail);
      assert forall b :: b in t.blocks <==> b in s.blocks || b == tail;
    }
  }

  /** Changing the size of a last hole: common part of expanding and contracting. */
  function ResizeLast(s: State, size: int): State
    requires s.blocks != []
  {
    var last := Last(s);
    var e := last.(size := size);
    s.(blocks := s.blocks[..|s.blocks| - 1] + [e], index := Insert(Remove(s.index, last), e),
        end := s.end - last.size + size)
  }

  lemma ResizeLastInv(s: State, size: int)
    requires Inv(s) && Last(s).hole && TAGS <= size && s.end - Last(s).size + size <= s.maxEnd
    ensures Inv(ResizeLast(s, size))
    ensures Live(ResizeLast(s, size)) == Live(s)
    ensures |ResizeLast(s, size).index| == |s.index|
  {
    hide Tile, Coalesced, Sorted, Insert, Remove, Holes;
    var n, last, t := |s.blocks|, Last(s), ResizeLast(s, size);
    var e := last.(size := size);
    assert t.blocks == s.blocks[..n - 1] + [e];
    ResizeLastTile(s, size);
    CoalescedNeighbours(s.blocks, n - 1);
    CoalescedOne(e);
    CoalescedSplice(s.blocks, n - 1, n, [e]);
    assert s.blocks[..n - 1] + [e] + s.blocks[n..] == t.blocks;
    assert s.blocks[n - 1..n] == [last];
    HolesOne(last);
    HolesOne(e);
    ReindexOne(s, n - 1, n, [e], last, e);
    assert s.blocks == s.blocks[..n - 1] + [last];
  }

  lemma CoalescedOne(b: Block)
    ensures Coalesced([b])
  {
  }

  lemma ResizeLastTile(s: State, size: int)
    requires Inv(s) && TAGS <= size
    ensures Tile(s.blocks[..|s.blocks| - 1] + [Last(s).(size := size)], s.start, s.end - Last(s).size + size)
    ensures s.start <= s.end - Last(s).size + size
  {
    hide Coalesced, Indexes;
    var e := Last(s).(size := size);
    TileLast(s.blocks, s.start, s.end);
    assert Tile([e][1..], EndOf(e), EndOf(e));
    TileAppend(s.blocks[..|s.blocks| - 1], [e], s.start, e.addr, EndOf(e));
    TileBounds(s.blocks[..|s.blocks| - 1], s.start, e.addr);
  }

  /** One hole `h` of the run [i, j) is replaced by one hole `e` of the run `mid`. */
  lemma ReindexOne(s: State, i: nat, j: nat, mid: seq<Block>, h: Block, e: Block)
    requires Indexes(s.index, s.blocks) && i <= j <= |s.blocks|
    requires Holes(s.blocks[i..j]) == [h] && Holes(mid) == [e]
    ensures Indexes(Insert(Remove(s.index, h), e), s.blocks[..i] + mid + s.blocks[j..])
    ensures |Insert(Remove(s.index, h), e)| == |s.index|
  {
    HolesSplice(s.blocks, i, j, mid);
    assert h in multiset(Holes(s.blocks));
    RemoveProperties(s.index, h);
    InsertProperties(Remove(s.index, h), e);
  }

  // ---------------------------------------------------------------- alloc, once a hole is found

  /** The block handed out of hole `h` for a total size `n`. */
  function Carved(h: Block, n: int): Block
  {
    Block(h.addr, if h.size > n + TAGS then n else h.size, false)
  }

  /** Split the hole when the rest can hold more than its own tags, else hand it out whole. */
  function Carve(s: State, h: Block, n: int): State
    requires h in s.blocks
  {
    var k := Position(s.blocks, h);
    if h.size > n + TAGS then
      var rest := Block(h.addr + n, h.size - n, true);
      s.(blocks := s.blocks[..k] + [Carved(h, n), rest] + s.blocks[k + 1..], index := Insert(Remove(s.index, h), rest))
    else
      s.(blocks := s.blocks[..k] + [Carved(h, n)] + s.blocks[k + 1..], index := Remove(s.index, h))
  }

  lemma CarveInv(s: State, h: Block, n: int)
    requires Inv(s) && h in s.blocks && h.hole && TAGS <= n <= h.size
    ensures Inv(Carve(s, h, n))
    ensures Live(Carve(s, h, n)) == Live(s) + {Carved(h, n)} && Carved(h, n) !in Live(s)
    ensures |Carve(s, h, n).index| <= |s.index|
  {
    hide Tile, Coalesced, Indexes;
    CarveLayout(s, h, n);
    CarveIndex(s, h, n);
    var k := Position(s.blocks, h);
    var mid := CarvedRun(h, n);
    LiveSplice(s, k, k + 1, mid, Carve(s, h, n));
    assert s.blocks[k..k + 1] == [h];
    assert (set b | b in mid && !b.hole) == {Carved(h, n)} by {
      assert mid[0] in mid;
    }
    if Carved(h, n) in s.blocks {
      TileCut(s.blocks, k, s.start, s.end);
      AddressesUnique(s, Carved(h, n), h);
    }
  }

  function CarvedRun(h: Block, n: int): seq<Block>
  {
    if h.size > n + TAGS then [Carved(h, n), Block(h.addr + n, h.size - n, true)] else [Carved(h, n)]
  }

  lemma CarveLayout(s: State, h: Block, n: int)
    requires Inv(s) && h in s.blocks && h.hole && TAGS <= n <= h.size
    ensures Tile(Carve(s, h, n).blocks, s.start, s.end) && Coalesced(Carve(s, h, n).blocks)
  {
    var k := Position(s.blocks, h);
    CarvedTile(h, n);
    TileSplice(s.blocks, k, k + 1, CarvedRun(h, n), s.start, s.end);
    CoalescedNeighbours(s.blocks, k);
    CoalescedSplice(s.blocks, k, k + 1, CarvedRun(h, n));
  }

  lemma CarveIndex(s: State, h: Block, n: int)
    requires Indexes(s.index, s.blocks) && h in s.blocks && h.hole
    ensures Indexes(Carve(s, h, n).index, Carve(s, h, n).blocks)
    ensures |Carve(s, h, n).index| <= |s.index|
  {
    hide Indexes, Insert, Remove;
    var k := Position(s.blocks, h);
    if h.size > n + TAGS {
      CarveIndexSplit(s, k, Carved(h, n), Block(h.addr + n, h.size - n, true));
    } else {
      CarveIndexWhole(s, k, Carved(h, n));
    }
  }

  lemma CarveIndexSplit(s: State, k: nat, got: Block, rest: Block)
    requires Indexes(s.index, s.blocks) && k < |s.blocks| && s.blocks[k].hole && !got.hole && rest.hole
    ensures Indexes(Insert(Remove(s.index, s.blocks[k]), rest), s.blocks[..k] + [got, rest] + s.blocks[k + 1..])
    ensures |Insert(Remove(s.index, s.blocks[k]), rest)| == |s.index|
  {
    var h := s.blocks[k];
    assert s.blocks[k..k + 1] == [h];
    HolesOne(h);
    HolesOne(got);
    HolesOne(rest);
    HolesAppend([got], [rest]);
    assert [got] + [rest] == [got, rest];
    ReindexOne(s, k, k + 1, [got, rest], h, rest);
  }

  lemma CarveIndexWhole(s: State, k: nat, got: Block)
    requires Indexes(s.index, s.blocks) && k < |s.blocks| && s.blocks[k].hole && !got.hole
    ensures Indexes(Remove(s.index, s.blocks[k]), s.blocks[..k] + [got] + s.blocks[k + 1..])
    ensures |Remove(s.index, s.blocks[k])| == |s.index| - 1
  {
    var h := s.blocks[k];
    assert s.blocks[k..k + 1] == [h];
    HolesOne(h);
    HolesOne(got);
    HolesSplice(s.blocks, k, k + 1, [got]);
    assert h in multiset(Holes(s.blocks));
    RemoveProperties(s.index, h);
  }

  lemma CarvedTile(h: Block, n: int)
    requires TAGS <= n <= h.size
    ensures Tile(CarvedRun(h, n), h.addr, EndOf(h))
  {
    var rest := Block(h.addr + n, h.size - n, true);
    assert Tile([rest][1..], EndOf(h), EndOf(h));
    assert [Carved(h, n), rest][1..] == [rest];
    assert [Carved(h, n)][1..] == [];
  }

  lemma CoalescedNeighbours(bs: seq<Block>, k: nat)
    requires Coalesced(bs) && k < |bs| && bs[k].hole
    ensures k > 0 ==> !bs[k - 1].hole
    ensures k + 1 < |bs| ==> !bs[k + 1].hole
  {
  }

  /** A block of a tiling is known by its address. */
  lemma AddressesUnique(s: State, a: Block, b: Block)
    requires Tile(s.blocks, s.start, s.end) && a in s.blocks && b in s.blocks
    requires a.addr < EndOf(b) && b.addr < EndOf(a)
    ensures a == b
  {
    var i := Position(s.blocks, a);
    var j := Position(s.blocks, b);
    if i < j {
      TileApart(s.blocks, i, j, s.start, s.end);
    } else if j < i {
      TileApart(s.blocks, j, i, s.start, s.end);
    }
  }

  lemma LiveSplice(s: State, i: nat, j: nat, mid: seq<Block>, t: State)
    requires i <= j <= |s.blocks| && t.blocks == s.blocks[..i] + mid + s.blocks[j..]
    requires Tile(s.blocks, s.start, s.end)
    ensures Live(t) == Live(s) - (set b | b in s.blocks[i..j] && !b.hole) + set b | b in mid && !b.hole
  {
    assert s.blocks == s.blocks[..i] + s.blocks[i..j] + s.blocks[j..];
    forall b | b in s.blocks[i..j]
      ensures b !in s.blocks[..i] && b !in s.blocks[j..]
    {
      var p :| i <= p < j && s.blocks[p] == b;
      forall q | (0 <= q < i || j <= q < |s.blocks|)
        ensures s.blocks[q] != b
      {
        TileCut(s.blocks, p, s.start, s.end);
        TileApart(s.blocks, if p < q then p else q, if p < q then q else p, s.start, s.end);
        TileCut(s.blocks, q, s.start, s.end);
      }
    }
  }

  /** Splitting off less than the size of the tags breaks the tiling. */
  lemma CarveTooSmall(s: State, h: Block, n: int)
    requires Inv(s) && h in s.blocks && h.hole && n < TAGS && h.size > n + TAGS
    ensures !Tile(Carve(s, h, n).blocks, s.start, s.end)
  {
    hide Coalesced, Indexes, Insert, Remove;
    var k, t := Position(s.blocks, h), Carve(s, h, n);
    assert t.blocks[k] == Carved(h, n);
    if Tile(t.blocks, s.start, s.end) {
      TileCut(t.blocks, k, s.start, s.end);
    }
  }

  // ---------------------------------------------------------------- free

  predicate HoleBefore(bs: seq<Block>, k: nat) { 0 < k <= |bs| && bs[k - 1].hole }

  predicate HoleAfter(bs: seq<Block>, k: nat) { k + 1 < |bs| && bs[k + 1].hole }

  /** The hole that block `k` becomes, united with the holes on either side. */
  function Merged(bs: seq<Block>, k: nat): Block
    requires k < |bs|
  {
    var first := if HoleBefore(bs, k) then bs[k - 1] else bs[k];
    var last := if HoleAfter(bs, k) then bs[k + 1] else bs[k];
    Block(first.addr, EndOf(last) - first.addr, true)
  }

  /** The holes that a freed block is united with. */
  function Before(bs: seq<Block>, k: nat): seq<Block> { if HoleBefore(bs, k) then [bs[k - 1]] else [] }

  function After(bs: seq<Block>, k: nat): seq<Block> { if HoleAfter(bs, k) then [bs[k + 1]] else [] }

  function Release(s: State, k: nat): State
    requires k < |s.blocks|
  {
    var l, r := Before(s.blocks, k), After(s.blocks, k);
    s.(blocks := s.blocks[..k - |l|] + [Merged(s.blocks, k)] + s.blocks[k + 1 + |r|..],
       index := Insert(RemoveAny(RemoveAny(s.index, l), r), Merged(s.blocks, k)))
  }

  function RemoveAny(ix: seq<Block>, hs: seq<Block>): seq<Block>
  {
    if hs == [] then ix else Remove(ix, hs[0])
  }

  /** Half way through `free`: united with the hole before it, if any. */
  function LeftMerged(bs: seq<Block>, k: nat): Block
    requires k < |bs|
  {
    if HoleBefore(bs, k) then Block(bs[k - 1].addr, bs[k - 1].size + bs[k].size, true) else bs[k]
  }

  lemma ReleaseInv(s: State, k: nat)
    requires Inv(s) && k < |s.blocks| && !s.blocks[k].hole
    ensures Inv(Release(s, k))
    ensures Live(Release(s, k)) == Live(s) - {s.blocks[k]}
    ensures |Release(s, k).index| == |s.index| - |Before(s.blocks, k)| - |After(s.blocks, k)| + 1
  {
    ReleaseLayout(s, k);
    ReleaseIndex(s, k);
    ReleaseLive(s, k);
  }

  lemma ReleaseLive(s: State, k: nat)
    requires Tile(s.blocks, s.start, s.end) && k < |s.blocks| && !s.blocks[k].hole
    ensures Live(Release(s, k)) == Live(s) - {s.blocks[k]}
  {
    var i, j := k - |Before(s.blocks, k)|, k + 1 + |After(s.blocks, k)|;
    var t := Release(s, k);
    assert t.blocks == s.blocks[..i] + [Merged(s.blocks, k)] + s.blocks[j..];
    RunLive(s.blocks, k, i, j);
    hide Release, Merged, Before, After;
    LiveSplice(s, i, j, [Merged(s.blocks, k)], t);
  }

  lemma RunLive(bs: seq<Block>, k: nat, i: nat, j: nat)
    requires k < |bs| && !bs[k].hole && i == k - |Before(bs, k)| && j == k + 1 + |After(bs, k)|
    ensures (set b | b in bs[i..j] && !b.hole) == {bs[k]}
    ensures Merged(bs, k).hole
  {
    assert bs[i..j] == Before(bs, k) + [bs[k]] + After(bs, k);
  }

  /** A freed block that reaches the end of the heap has become its last block. */
  lemma ReleaseLast(s: State, k: nat)
    requires Inv(s) && k < |s.blocks| && !s.blocks[k].hole
    ensures Merged(s.blocks, k) in Release(s, k).blocks
    ensures EndOf(Merged(s.blocks, k)) == s.end <==> Last(Release(s, k)) == Merged(s.blocks, k)
    ensures Release(s, k).start == s.start && Release(s, k).end == s.end
    ensures Release(s, k).maxEnd == s.maxEnd
  {
    var i, j := k - |Before(s.blocks, k)|, k + 1 + |After(s.blocks, k)|;
    var t := Release(s, k);
    ReleaseLayout(s, k);
    assert t.blocks[i] == Merged(s.blocks, k);
    TileLast(t.blocks, s.start, s.end);
    if i + 1 < |t.blocks| {
      TileApart(t.blocks, i, |t.blocks| - 1, s.start, s.end);
      TileCut(t.blocks, i, s.start, s.end);
    }
  }

  lemma ReleaseLayout(s: State, k: nat)
    requires Inv(s) && k < |s.blocks| && !s.blocks[k].hole
    ensures Tile(Release(s, k).blocks, s.start, s.end) && Coalesced(Release(s, k).blocks)
  {
    var i, j := k - |Before(s.blocks, k)|, k + 1 + |After(s.blocks, k)|;
    var t := Release(s, k);
    assert t.blocks == s.blocks[..i] + [Merged(s.blocks, k)] + s.blocks[j..];
    ReleaseTile(s, k, i, j);
    ReleaseCoalesced(s.blocks, k, i, j);
  }

  lemma ReleaseTile(s: State, k: nat, i: nat, j: nat)
    requires Tile(s.blocks, s.start, s.end) && k < |s.blocks| && !s.blocks[k].hole
    requires i == k - |Before(s.blocks, k)| && j == k + 1 + |After(s.blocks, k)|
    ensures Tile(s.blocks[..i] + [Merged(s.blocks, k)] + s.blocks[j..], s.start, s.end)
  {
    var m := Merged(s.blocks, k);
    MergedSize(s, k);
    TileBounds(s.blocks, s.start, s.end);
    assert s.blocks[k] in s.blocks && s.blocks[i] in s.blocks && s.blocks[j - 1] in s.blocks;
    assert Tile([m], m.addr, EndOf(m)) by {
      assert Tile([m][1..], EndOf(m), EndOf(m));
    }
    TileSplice(s.blocks, i, j, [m], s.start, s.end);
  }

  lemma ReleaseCoalesced(bs: seq<Block>, k: nat, i: nat, j: nat)
    requires Coalesced(bs) && k < |bs| && !bs[k].hole
    requires i == k - |Before(bs, k)| && j == k + 1 + |After(bs, k)|
    ensures Coalesced(bs[..i] + [Merged(bs, k)] + bs[j..])
  {
    if HoleBefore(bs, k) {
      CoalescedNeighbours(bs, k - 1);
    }
    if HoleAfter(bs, k) {
      CoalescedNeighbours(bs, k + 1);
    }
    CoalescedSplice(bs, i, j, [Merged(bs, k)]);
  }

  lemma MergedSize(s: State, k: nat)
    requires Tile(s.blocks, s.start, s.end) && k < |s.blocks| && !s.blocks[k].hole
    ensures Merged(s.blocks, k).size == s.blocks[k].size
                                      + (if HoleBefore(s.blocks, k) then s.blocks[k - 1].size else 0)
                                      + (if HoleAfter(s.blocks, k) then s.blocks[k + 1].size else 0)
  {
    if HoleBefore(s.blocks, k) {
      TileNext(s.blocks, k - 1, s.start, s.end);
    }
    if HoleAfter(s.blocks, k) {
      TileNext(s.blocks, k, s.start, s.end);
    }
  }

  lemma TileNext(bs: seq<Block>, k: nat, lo: int, hi: int)
    requires Tile(bs, lo, hi) && k + 1 < |bs|
    ensures bs[k + 1].addr == EndOf(bs[k])
  {
    TileCut(bs, k, lo, hi);
    assert bs[k + 1..][0] == bs[k + 1];
  }

  lemma ReleaseIndex(s: State, k: nat)
    requires Indexes(s.index, s.blocks) && k < |s.blocks| && !s.blocks[k].hole
    ensures Indexes(Release(s, k).index, Release(s, k).blocks)
    ensures |Release(s, k).index| == |s.index| - |Before(s.blocks, k)| - |After(s.blocks, k)| + 1
  {
    hide Holes, Sorted, Insert, RemoveAny;
    var l, r, m := Before(s.blocks, k), After(s.blocks, k), Merged(s.blocks, k);
    var pre, post := UniteHoles(s.blocks, k, l, r, m);
    UniteIndex(s.index, l, r, m, pre, post);
  }

  lemma UniteHoles(bs: seq<Block>, k: nat, l: seq<Block>, r: seq<Block>, m: Block)
    returns (pre: multiset<Block>, post: multiset<Block>)
    requires |l| <= k && k + |r| < |bs| && !bs[k].hole && m.hole
    requires l == bs[k - |l|..k] && r == bs[k + 1..k + 1 + |r|] && |l| <= 1 && |r| <= 1
    requires (forall b :: b in l ==> b.hole) && (forall b :: b in r ==> b.hole)
    ensures multiset(Holes(bs)) == pre + multiset(l + r) + post
    ensures multiset(Holes(bs[..k - |l|] + [m] + bs[k + 1 + |r|..])) == pre + multiset{m} + post
  {
    hide Holes;
    var i, j := k - |l|, k + 1 + |r|;
    HolesSplice(bs, i, j, [m]);
    HolesOne(m);
    HolesOfRun(bs, i, j, k, l, r);
    pre, post := multiset(Holes(bs[..i])), multiset(Holes(bs[j..]));
  }

  lemma UniteIndex(ix: seq<Block>, l: seq<Block>, r: seq<Block>, m: Block, pre: multiset<Block>, post: multiset<Block>)
    requires Sorted(ix) && multiset(ix) == pre + multiset(l + r) + post && |l| <= 1 && |r| <= 1
    ensures var ix' := Insert(RemoveAny(RemoveAny(ix, l), r), m);
            Sorted(ix') && multiset(ix') == pre + multiset{m} + post && |ix'| == |ix| - |l| - |r| + 1
  {
    assert multiset(l + r) == multiset(l) + multiset(r);
    RemoveAnyProperties(ix, l);
    RemoveAnyProperties(RemoveAny(ix, l), r);
    InsertProperties(RemoveAny(RemoveAny(ix, l), r), m);
  }

  lemma RemoveAnyProperties(ix: seq<Block>, hs: seq<Block>)
    requires Sorted(ix) && |hs| <= 1 && multiset(hs) <= multiset(ix)
    ensures Sorted(RemoveAny(ix, hs)) && multiset(RemoveAny(ix, hs)) == multiset(ix) - multiset(hs)
    ensures |RemoveAny(ix, hs)| == |ix| - |hs|
  {
    if hs != [] {
      assert hs == [hs[0]];
      assert hs[0] in multiset(hs);
      RemoveProperties(ix, hs[0]);
    }
  }

  lemma HolesOfRun(bs: seq<Block>, i: nat, j: nat, k: nat, l: seq<Block>, r: seq<Block>)
    requires i <= k < j <= |bs| && !bs[k].hole
    requires l == bs[i..k] && r == bs[k + 1..j] && |l| <= 1 && |r| <= 1
    requires (forall b :: b in l ==> b.hole) && (forall b :: b in r ==> b.hole)
    ensures Holes(bs[i..j]) == l + r
  {
    assert bs[i..j] == l + ([bs[k]] + r);
    HolesAppend(l, [bs[k]] + r);
    HolesAppend([bs[k]], r);
    HolesOne(bs[k]);
    if l != [] {
      assert l == [l[0]];
      HolesOne(l[0]);
    }
    if r != [] {
      assert r == [r[0]];
      HolesOne(r[0]);
    }
  }

  // ---------------------------------------------------------------- no entry twice

  lemma {:induction false} HolesOnce(bs: seq<Block>, lo: int, hi: int, h: Block)
    requires Tile(bs, lo, hi)
    ensures multiset(Holes(bs))[h] <= 1
  {
    if bs != [] {
      HolesOnce(bs[1..], lo + bs[0].size, hi, h);
      if h == bs[0] {
        TileBounds(bs[1..], lo + bs[0].size, hi);
        HolesMember(bs[1..], h);
      }
      assert multiset([bs[0]] + Holes(bs[1..])) == multiset{bs[0]} + multiset(Holes(bs[1..]));
    }
  }

  /** When `m` enters an index that thereby becomes exact, all other entries are other holes. */
  lemma OthersDiffer(s: State, ix: seq<Block>, m: Block)
    requires Tile(s.blocks, s.start, s.end) && Indexes(s.index, s.blocks)
    requires Sorted(ix) && s.index == Insert(ix, m)
    ensures m in s.blocks
    ensures forall h :: h in ix ==> h in s.blocks && h.hole && h.addr != m.addr
  {
    InsertProperties(ix, m);
    IndexMembers(s.index, s.blocks);
    TileBounds(s.blocks, s.start, s.end);
    assert m in multiset(s.index);
    forall h | h in ix
      ensures h in s.blocks && h.hole && h.addr != m.addr
    {
      assert h in multiset(s.index);
      HolesOnce(s.blocks, s.start, s.end, m);
      assert multiset(ix)[m] == 0;
      if h.addr == m.addr {
        AddressesUnique(s, h, m);
      }
    }
  }
}
