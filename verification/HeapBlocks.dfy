/**
 Sequences of boundary-tagged blocks, and the index of holes sorted by size.
 This is the vocabulary in which the heap of the user library is specified.
 */
module HeapBlocks {
  const HEADER: int := 12
  const FOOTER: int := 8
  const TAGS: int := HEADER + FOOTER

  /** `addr` is the address of the header; `size` counts header, payload and footer. */
  datatype Block = Block(addr: int, size: int, hole: bool)

  /** The blocks lie one after the other, without gap or overlap, from `lo` to `hi`. */
  predicate Tile(bs: seq<Block>, lo: int, hi: int)
  {
    if bs == [] then lo == hi
    else bs[0].addr == lo && bs[0].size >= TAGS && Tile(bs[1..], lo + bs[0].size, hi)
  }

  function EndOf(b: Block): int { b.addr + b.size }

  lemma {:induction false} TileAppend(a: seq<Block>, b: seq<Block>, lo: int, mid: int, hi: int)
    requires Tile(a, lo, mid) && Tile(b, mid, hi)
    ensures Tile(a + b, lo, hi)
  {
    if a == [] {
      assert a + b == b;
    } else {
      TileAppend(a[1..], b, lo + a[0].size, mid, hi);
      assert (a + b)[1..] == a[1..] + b;
    }
  }

  /** Cutting a tiling before its k-th block. */
  lemma {:induction false} TileCut(bs: seq<Block>, k: nat, lo: int, hi: int)
    requires Tile(bs, lo, hi) && k < |bs|
    ensures Tile(bs[..k], lo, bs[k].addr) && Tile(bs[k..], bs[k].addr, hi)
    ensures bs[k].size >= TAGS
    ensures Tile(bs[k + 1..], EndOf(bs[k]), hi)
  {
    if k == 0 {
      assert bs[..0] == [] && bs[0..] == bs;
    } else {
      TileCut(bs[1..], k - 1, lo + bs[0].size, hi);
      assert bs[..k][1..] == bs[1..][..k - 1];
      assert bs[1..][k - 1..] == bs[k..];
      assert bs[1..][k..] == bs[k + 1..];
    }
  }

  lemma {:induction false} TileBounds(bs: seq<Block>, lo: int, hi: int)
    requires Tile(bs, lo, hi)
    ensures lo <= hi
    ensures forall b :: b in bs ==> lo <= b.addr && b.size >= TAGS && EndOf(b) <= hi
  {
    if bs != [] {
      TileBounds(bs[1..], lo + bs[0].size, hi);
      forall b | b in bs
        ensures lo <= b.addr && b.size >= TAGS && EndOf(b) <= hi
      {
        if b != bs[0] {
          assert b in bs[1..];
        }
      }
    }
  }

  /** Two blocks of a tiling are the same position or do not overlap. */
  lemma TileApart(bs: seq<Block>, i: nat, j: nat, lo: int, hi: int)
    requires Tile(bs, lo, hi) && i < j < |bs|
    ensures EndOf(bs[i]) <= bs[j].addr
  {
    TileCut(bs, j, lo, hi);
    TileBounds(bs[..j], lo, bs[j].addr);
    assert bs[i] in bs[..j];
  }

  lemma TileLast(bs: seq<Block>, lo: int, hi: int)
    requires Tile(bs, lo, hi) && bs != []
    ensures EndOf(bs[|bs| - 1]) == hi && bs[|bs| - 1].size >= TAGS
    ensures Tile(bs[..|bs| - 1], lo, bs[|bs| - 1].addr)
  {
    TileCut(bs, |bs| - 1, lo, hi);
    assert bs[|bs| - 1..][1..] == [];
  }

  /** Replacing a run of blocks by another run over the same addresses. */
  lemma TileSplice(bs: seq<Block>, i: nat, j: nat, mid: seq<Block>, lo: int, hi: int)
    requires Tile(bs, lo, hi) && i < j <= |bs|
    requires Tile(mid, bs[i].addr, EndOf(bs[j - 1]))
    ensures Tile(bs[..i] + mid + bs[j..], lo, hi)
  {
    TileCut(bs, i, lo, hi);
    TileCut(bs, j - 1, lo, hi);
    TileAppend(bs[..i], mid, lo, bs[i].addr, EndOf(bs[j - 1]));
    TileAppend(bs[..i] + mid, bs[j..], lo, EndOf(bs[j - 1]), hi);
  }

  /** The holes of a block sequence, in address order. */
  function Holes(bs: seq<Block>): seq<Block>
  {
    if bs == [] then []
    else if bs[0].hole then [bs[0]] + Holes(bs[1..])
    else Holes(bs[1..])
  }

  lemma {:induction false} HolesMember(bs: seq<Block>, h: Block)
    ensures h in Holes(bs) <==> h in bs && h.hole
  {
    if bs != [] {
      HolesMember(bs[1..], h);
      assert bs == [bs[0]] + bs[1..];
    }
  }

  lemma {:induction false} HolesAppend(a: seq<Block>, b: seq<Block>)
    ensures Holes(a + b) == Holes(a) + Holes(b)
  {
    if a == [] {
      assert a + b == b;
    } else {
      HolesAppend(a[1..], b);
      assert (a + b)[1..] == a[1..] + b;
    }
  }

  lemma HolesOne(b: Block)
    ensures Holes([b]) == if b.hole then [b] else []
  {
    assert [b][1..] == [];
  }

  lemma HolesSplice(bs: seq<Block>, i: nat, j: nat, mid: seq<Block>)
    requires i <= j <= |bs|
    ensures multiset(Holes(bs[..i] + mid + bs[j..])) ==
            multiset(Holes(bs[..i])) + multiset(Holes(mid)) + multiset(Holes(bs[j..]))
    ensures multiset(Holes(bs)) == multiset(Holes(bs[..i])) + multiset(Holes(bs[i..j])) + multiset(Holes(bs[j..]))
  {
    HolesAppend(bs[..i], mid);
    HolesAppend(bs[..i] + mid, bs[j..]);
    assert bs == bs[..i] + bs[i..j] + bs[j..];
    HolesAppend(bs[..i], bs[i..j]);
    HolesAppend(bs[..i] + bs[i..j], bs[j..]);
  }

  /** No two neighbouring blocks are both holes. */
  ghost predicate Coalesced(bs: seq<Block>)
  {
    forall i, j :: 0 <= i && j == i + 1 && j < |bs| ==> !(bs[i].hole && bs[j].hole)
  }

  lemma CoalescedSplice(bs: seq<Block>, i: nat, j: nat, mid: seq<Block>)
    requires Coalesced(bs) && i <= j <= |bs| && Coalesced(mid) && mid != []
    requires i > 0 ==> !(bs[i - 1].hole && mid[0].hole)
    requires j < |bs| ==> !(bs[j].hole && mid[|mid| - 1].hole)
    ensures Coalesced(bs[..i] + mid + bs[j..])
  {
    var r := bs[..i] + mid + bs[j..];
    forall p, q | 0 <= p && q == p + 1 && q < |r|
      ensures !(r[p].hole && r[q].hole)
    {
      if q < i {
        assert r[p] == bs[p] && r[q] == bs[q];
      } else if i <= p && q < i + |mid| {
        assert r[p] == mid[p - i] && r[q] == mid[q - i];
      } else if p >= i + |mid| {
        var d := j - i - |mid|;
        assert r[p] == bs[p + d] && r[q] == bs[q + d];
      }
    }
  }

  // ---------------------------------------------------------------- the hole index

  ghost predicate Sorted(ix: seq<Block>)
  {
    forall i, j :: 0 <= i < j < |ix| ==> ix[i].size <= ix[j].size
  }

  /** The position at which a block of size `n` enters the index: before the first entry not smaller. */
  function First(ix: seq<Block>, n: int): (k: nat)
    ensures k <= |ix|
    ensures forall i :: 0 <= i < k ==> ix[i].size < n
    ensures k < |ix| ==> ix[k].size >= n
  {
    if ix == [] || ix[0].size >= n then 0 else 1 + First(ix[1..], n)
  }

  lemma FirstUnique(ix: seq<Block>, n: int, k: nat)
    requires k <= |ix|
    requires forall i :: 0 <= i < k ==> ix[i].size < n
    requires k < |ix| ==> ix[k].size >= n
    ensures k == First(ix, n)
  {
  }

  function Insert(ix: seq<Block>, h: Block): seq<Block>
  {
    var k := First(ix, h.size);
    ix[..k] + [h] + ix[k..]
  }

  lemma InsertAt(ix: seq<Block>, h: Block, r: seq<Block>)
    requires r == Insert(ix, h)
    ensures var k := First(ix, h.size);
            |r| == |ix| + 1 && r[k] == h && (forall i :: 0 <= i < k ==> r[i] == ix[i]) && forall i :: k < i < |r| ==>
                r[i] == ix[i - 1]
  {
  }

  function Position(bs: seq<Block>, b: Block): (k: nat)
    requires b in bs
    ensures k < |bs| && bs[k] == b
    ensures forall i :: 0 <= i < k ==> bs[i] != b
  {
    if bs[0] == b then 0 else 1 + Position(bs[1..], b)
  }

  function Remove(ix: seq<Block>, h: Block): seq<Block>
  {
    if h in ix then var k := Position(ix, h); ix[..k] + ix[k + 1..] else ix
  }

  lemma InsertProperties(ix: seq<Block>, h: Block)
    requires Sorted(ix)
    ensures Sorted(Insert(ix, h))
    ensures multiset(Insert(ix, h)) == multiset(ix) + multiset{h}
    ensures |Insert(ix, h)| == |ix| + 1
  {
    var k := First(ix, h.size);
    assert ix == ix[..k] + ix[k..];
  }

  lemma RemoveProperties(ix: seq<Block>, h: Block)
    requires Sorted(ix)
    ensures Sorted(Remove(ix, h))
    ensures multiset(Remove(ix, h)) == multiset(ix) - multiset{h}
    ensures h in ix ==> |Remove(ix, h)| == |ix| - 1
  {
    if h in ix {
      CutSorted(ix, Position(ix, h));
      CutContents(ix, Position(ix, h));
    }
  }

  lemma CutSorted(ix: seq<Block>, k: nat)
    requires Sorted(ix) && k < |ix|
    ensures Sorted(ix[..k] + ix[k + 1..])
  {
    var r := ix[..k] + ix[k + 1..];
    forall i, j | 0 <= i < j < |r|
      ensures r[i].size <= r[j].size
    {
      assert r[i] == ix[if i < k then i else i + 1] && r[j] == ix[if j < k then j else j + 1];
    }
  }

  lemma CutContents(ix: seq<Block>, k: nat)
    requires k < |ix|
    ensures multiset(ix[..k] + ix[k + 1..]) == multiset(ix) - multiset{ix[k]}
  {
    assert ix == ix[..k] + ([ix[k]] + ix[k + 1..]);
  }

  /** The index holds exactly the holes, each as often as it occurs, in nondecreasing size order. */
  ghost predicate Indexes(ix: seq<Block>, bs: seq<Block>)
  {
    Sorted(ix) && multiset(ix) == multiset(Holes(bs))
  }

  lemma IndexMembers(ix: seq<Block>, bs: seq<Block>)
    requires Indexes(ix, bs)
    ensures forall h :: h in ix <==> h in bs && h.hole
  {
    forall h ensures h in ix <==> h in bs && h.hole {
      assert h in ix <==> h in multiset(ix);
      assert h in Holes(bs) <==> h in multiset(Holes(bs));
      HolesMember(bs, h);
    }
  }

  /** The first sufficient entry of the index is a smallest sufficient hole of the heap. */
  lemma FirstIsBestFit(ix: seq<Block>, bs: seq<Block>, n: int)
    requires Indexes(ix, bs)
    ensures First(ix, n) == |ix| <==> forall b :: b in bs && b.hole ==> b.size < n
    ensures First(ix, n) < |ix| ==>
              var h := ix[First(ix, n)];
              h in bs && h.hole && h.size >= n && forall b :: b in bs && b.hole && b.size >= n ==> h.size <= b.size
  {
    IndexMembers(ix, bs);
    var k := First(ix, n);
    forall b | b in bs && b.hole && b.size >= n
      ensures k < |ix| && ix[k].size <= b.size
    {
      assert b in ix;
      var i :| 0 <= i < |ix| && ix[i] == b;
    }
    if k < |ix| {
      assert ix[k] in ix;
    }
  }
}
