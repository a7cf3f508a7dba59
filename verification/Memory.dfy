/**
 The frame bitset, page entries and segments as the kernel keeps them, updated in place: the loops of
 `seg.c`, `shm.c` and `paging.c`, each proved against `FrameModel`.
 */
module Memory {
  import opened Common
  import opened FrameModel
  import opened FrameInv
  import opened FrameRequests
  import opened FrameRuns
  import opened FrameTheorems
  import opened Lists
  import opened Bitsets

  type PageTable = map<(Pd, int), Page>

  // ---------------------------------------------------------------- ranges, one page at a time

  lemma ClearedNone(p: PageTable, pd: Pd, lo: int)
    ensures Cleared(p, pd, lo, lo) == p && Shown(p, pd, lo, lo) == {}
  {
  }

  lemma ClearedOne(p: PageTable, pd: Pd, lo: int, v: int)
    requires lo <= v
    ensures Cleared(p, pd, lo, v + 1) == Cleared(p, pd, lo, v) - {(pd, v)}
    ensures Shown(p, pd, lo, v + 1) == Shown(p, pd, lo, v) + if (pd, v) in p then {p[(pd, v)].frame} else {}
    ensures (pd, v) in Cleared(p, pd, lo, v) <==> (pd, v) in p
    ensures (pd, v) in p ==> Cleared(p, pd, lo, v)[(pd, v)] == p[(pd, v)]
  {
    assert Cleared(p, pd, lo, v + 1).Keys == (Cleared(p, pd, lo, v) - {(pd, v)}).Keys;
    ShownOne(p, pd, lo, v);
  }

  lemma ShownOne(p: PageTable, pd: Pd, lo: int, v: int)
    requires lo <= v
    ensures Shown(p, pd, lo, v + 1) == Shown(p, pd, lo, v) + if (pd, v) in p then {p[(pd, v)].frame} else {}
  {
    forall k: (Pd, int)
      ensures InRange(k, pd, lo, v + 1) <==> k == (pd, v) || InRange(k, pd, lo, v)
    {
      assert k == (k.0, k.1);
    }
  }

  lemma NonzeroOne(frames: seq<nat>, i: nat)
    requires i < |frames|
    ensures Nonzero(frames[..i + 1]) == Nonzero(frames[..i]) + if frames[i] != 0 then {frames[i]} else {}
  {
    var l, r := frames[..i], frames[..i + 1];
    forall f | f in Nonzero(r)
      ensures f in Nonzero(l) + if frames[i] != 0 then {frames[i]} else {}
    {
      var j :| 0 <= j < |r| && r[j] != 0 && r[j] == f;
      assert j < i ==> l[j] == f;
    }
    forall f | f in Nonzero(l)
      ensures f in Nonzero(r)
    {
      var j :| 0 <= j < |l| && l[j] != 0 && l[j] == f;
      assert r[j] == f;
    }
    assert r[i] == frames[i];
  }

  /** The page steps from `from` up to `to` are as many as the pages of the bytes between them. */
  lemma StepsArePages(from: int, to: int, c: nat)
    requires from <= to
    ensures from + PAGE * c < to ==> c < Pages(to - from)
    ensures from + PAGE * c >= to && (c == 0 || from + PAGE * (c - 1) < to) ==> c == Pages(to - from)
  {
  }

  lemma {:induction false} HitFrom(s: State, l: seq<Mid>, k: nat, addr: int)
    requires k <= |l|
    requires forall i :: 0 <= i < k ==>
             l[i] in s.maps && !(s.maps[l[i]].start <= addr < s.maps[l[i]].start + s.maps[l[i]].len)
    ensures Hit(s, l, addr) == Hit(s, l[k..], addr)
  {
    if k > 0 {
      HitFrom(s, l[1..], k - 1, addr);
      assert l[1..][k - 1..] == l[k..];
    }
  }

  lemma {:induction false} UnlistedAt(l: seq<Mid>, k: nat, a: Mid)
    requires k < |l| && l[k] == a && forall i :: 0 <= i < k ==> l[i] != a
    ensures Unlisted(l, a) == l[..k] + l[k + 1..]
  {
    if k > 0 {
      UnlistedAt(l[1..], k - 1, a);
      assert l[..k] == [l[0]] + l[1..][..k - 1] && l[1..][k..] == l[k + 1..];
    }
  }

  /** Every frame on a page or in a table can be named in the bitset, and no page shows frame 0. */
  ghost predicate Fits(pages: PageTable, bound: int)
  {
    forall k :: k in pages ==> 0 < pages[k].frame < bound
  }

  ghost predicate TableFits(frames: seq<nat>, bound: int)
  {
    forall i :: 0 <= i < |frames| ==> frames[i] < bound
  }

  lemma InvFits(s: State, bound: int)
    requires Inv(s) && forall f :: f in s.used ==> f < bound
    ensures Fits(s.pages, bound)
    ensures forall sid :: sid in s.segs && s.segs[sid].Shared? ==> TableFits(s.segs[sid].frames, bound)
  {
    PagesFit(s, bound);
    TablesFit(s, bound);
  }

  lemma PagesFit(s: State, bound: int)
    requires Inv(s) && forall f :: f in s.used ==> f < bound
    ensures Fits(s.pages, bound)
  {
    hide MapsOk, CountsOk, Holds, PagesOk;
    forall k | k in s.pages
      ensures 0 < s.pages[k].frame < bound
    {
      var h := PageHolder(s, k);
      HeldNonzero(s, h, s.pages[k].frame);
    }
  }

  lemma HeldNonzero(s: State, h: Holder, f: nat)
    requires Holds(s, h, f)
    ensures f != 0
  {
  }

  lemma TablesFit(s: State, bound: int)
    requires Exact(s) && forall f :: f in s.used ==> f < bound
    ensures forall sid :: sid in s.segs && s.segs[sid].Shared? ==> TableFits(s.segs[sid].frames, bound)
  {
    forall sid | sid in s.segs && s.segs[sid].Shared?
      ensures TableFits(s.segs[sid].frames, bound)
    {
      forall i | 0 <= i < |s.segs[sid].frames|
        ensures s.segs[sid].frames[i] < bound
      {
        var f := s.segs[sid].frames[i];
        assert f != 0 ==> Holds(s, OfTable(sid, i), f);
      }
    }
  }

  /** The numbers below `n`. */
  ghost function Below(n: int): set<nat> { if n <= 0 then {} else Below(n - 1) + {n - 1} }

  lemma {:induction false} BelowMembers(n: int)
    ensures forall k: nat :: k in Below(n) <==> k < n
  {
    if n > 0 {
      BelowMembers(n - 1);
    }
  }

  /**
   What is sent for a parameter: the newest shared map of the sender at the offset, if the parameter carries memory.
   */
  ghost predicate SentAs(s: State, from: Pd, to: Pd, offset: Option<int>, found: Option<Mid>)
  {
    if from == to || offset.None? then found.None?
    else
      from in s.mapped && found.Some? &&
      exists i :: 0 <= i < |s.mapped[from]| && s.mapped[from][i] == found.value &&
          StartsAt(s, found.value, offset.value) &&
                  forall j :: 0 <= j < i ==> !StartsAt(s, s.mapped[from][j], offset.value)
  }

  lemma AddParamIs(s: State, r: Rid, f: Option<Mid>, t: State)
    requires r in s.requests && Findable(s, f)
    requires f.None? ==>
             t == s.(requests := s.requests[r := s.requests[r].(params := s.requests[r].params + [Nothing])])
    requires f.Some? ==>
               var sid := s.maps[f.value].seg;
               t == s.(requests := s.requests[r := s.requests[r].(params := s.requests[r].params +
                   [Shm(f.value, sid, None)])],
                       mappings := s.mappings[sid := s.mappings[sid] + 1])
    ensures t == AddParam(s, r, f)
  {
  }

  lemma {:induction false} AddParamsSnoc(s: State, r: Rid, fs: seq<Option<Mid>>, f: Option<Mid>)
    requires r in s.requests && (forall i :: 0 <= i < |fs| ==> Findable(s, fs[i])) && Findable(s, f)
    ensures r in AddParams(s, r, fs).requests && Findable(AddParams(s, r, fs), f)
    ensures (forall i :: 0 <= i < |fs + [f]| ==> Findable(s, (fs + [f])[i])) &&
            AddParams(s, r, fs + [f]) == AddParam(AddParams(s, r, fs), r, f)
    decreases |fs|
  {
    hide AddParam, Findable;
    if fs == [] {
      assert fs + [f] == [f] && [f][1..] == [];
    } else {
      assert forall i :: 0 <= i < |fs[1..]| ==> Findable(s, fs[i + 1]) && fs[1..][i] == fs[i + 1];
      AddParamsSnoc(AddParam(s, r, fs[0]), r, fs[1..], f);
      assert (fs + [f])[0] == fs[0] && (fs + [f])[1..] == fs[1..] + [f];
    }
  }

  lemma MapsTo(s: State, sid: Sid, a: Mid, pd: Pd, pos: int)
    requires MayMap(s, sid, a, pd, pos)
    ensures sid in s.segs && sid in s.mappings && pd in s.mapped
  {
  }

  lemma SenderSegOf(s: State, r: Rid, i: nat)
    requires Inv(s) && Mappable(s, r, i) && s.requests[r].params[i].sndr in s.maps
    ensures s.maps[s.requests[r].params[i].sndr].seg == s.requests[r].params[i].seg
  {
    SenderSeg(s, r, i);
  }

  lemma RcvsApart(s: State, r: Rid)
    requires Inv(s) && r in s.requests
    ensures RcvApart(s.requests[r].params)
  {
    hide Exact, PagesOk, MapsOk, CountsOk;
    assert RequestOk(s, s.requests[r]);
  }

  lemma RcvNext(s: State, params: seq<Param>, i: nat)
    requires i < |params| && !RcvGone(s, params[i..])
    ensures params[i].Shm? && params[i].rcv.Some? ==> params[i].rcv.value in s.maps
  {
    assert params[i..][0] == params[i];
  }

  /** One turn of the loop over the receiver's maps. */
  lemma RcvStep(s: State, params: seq<Param>, i: nat, t: State)
    requires Inv(s) && i < |params| && !RcvGone(s, params[i..]) && RcvApart(params)
    requires if params[i].Shm? && params[i].rcv.Some?
             then Unmappable(s, params[i].rcv.value) && t == Unmap(s, params[i].rcv.value) else t == s
    ensures UnmapRcv(t, params[i + 1..]) == UnmapRcv(s, params[i..]) && !RcvGone(t, params[i + 1..])
  {
    hide Inv, Unmap;
    var l := params[i..];
    assert l[0] == params[i] && l[1..] == params[i + 1..];
    if params[i].Shm? && params[i].rcv.Some? {
      UnmapKeeps(s, params[i].rcv.value);
      ApartTail(params, i);
      GoneRest(s, t, l);
    } else {
      GoneLater(s, l);
    }
  }

  lemma ApartTail(params: seq<Param>, i: nat)
    requires RcvApart(params) && i <= |params|
    ensures RcvApart(params[i..])
  {
  }

  /** What is found depends on maps and segments alone. */
  lemma SentSame(s: State, t: State, from: Pd, to: Pd, offset: Option<int>, f: Option<Mid>)
    requires s.maps == t.maps && s.segs == t.segs && s.mapped == t.mapped
    ensures SentAs(s, from, to, offset, f) <==> SentAs(t, from, to, offset, f)
  {
    assert forall a, x :: StartsAt(s, a, x) <==> StartsAt(t, a, x);
  }

  lemma SentNone(s: State, from: Pd, to: Pd, offsets: seq<Option<int>>, found: seq<Option<Mid>>)
    requires |offsets| == |found| == 3 && forall i :: 0 <= i < 3 ==> SentAs(s, from, to, offsets[i], found[i])
    ensures from == to ==> found == [None, None, None]
  {
    assert SentAs(s, from, to, offsets[0], found[0]);
    assert SentAs(s, from, to, offsets[1], found[1]);
    assert SentAs(s, from, to, offsets[2], found[2]);
  }

  lemma AddNone(s: State, r: Rid)
    requires r in s.requests
    ensures AddParams(s, r, []) == s
  {
  }

  lemma UnmapNone(s: State, params: seq<Param>)
    requires params == []
    ensures UnmapRcv(s, params) == s
  {
  }

  /** A shared map that starts at `offset`. */
  ghost predicate StartsAt(s: State, a: Mid, offset: int)
  {
    a in s.maps && s.maps[a].seg in s.segs && s.maps[a].start == offset && s.segs[s.maps[a].seg].Shared?
  }

  // ---------------------------------------------------------------- the kernel's own state

  class Manager {
    const frames: Bitset
    ghost var kernel: set<nat>
    var pages: PageTable
    var segs: map<Sid, Segment>
    var mappings: map<Sid, int>
    var maps: map<Mid, SegMap>
    var mapped: map<Pd, seq<Mid>>
    ghost var freed: set<Mid>
    var requests: map<Rid, Request>
    ghost var answered: map<Rid, Request>

    ghost function Used(): set<nat>
      reads frames.bits
    {
      Members(frames.bits[..])
    }

    ghost function View(): State
      reads this, frames.bits
    {
      State(Used(), kernel, pages, segs, mappings, maps, mapped, freed, requests, answered, false)
    }

    ghost function Bound(): int { 32 * frames.bits.Length }

    ghost predicate Valid() { frames.size / 32 <= frames.bits.Length && frames.size < 0x1_0000_0000 }

    /** A frame that `frame_alloc` can find. */
    ghost predicate Available()
      reads frames.bits
    {
      exists n: nat :: n < frames.size / 32 * 32 && n !in Used()
    }

    lemma UsedBound()
      ensures forall f :: f in Used() ==> f < Bound()
    {
    }

    /**
     The frame part of `paging_init`: the kernel's pages from 0xE0000000 up to `top` take the first frames.
     The words of the bitset are zero, and there are as many as `bitset_firstFree` looks at.
     */
    constructor (totalRam: nat, top: int)
      requires 0xE000_0000 < top && Pages(top - 0xE000_0000) <= totalRam / 0x1000 / 32 * 32 && totalRam < 0x1_0000_0000
      ensures Valid() && fresh(frames) && fresh(frames.bits) && frames.size == totalRam / 0x1000
      ensures Boot(View()) && kernel == Below(Pages(top - 0xE000_0000))
    {
      frames := new Bitset(totalRam / 0x1000 / 32, totalRam / 0x1000);
      kernel := Below(Pages(top - 0xE000_0000));
      pages, segs, mappings, maps, mapped := map[], map[], map[], map[], map[];
      freed, requests, answered := {}, map[], map[];
      new;
      hide Pages, Members, Below;
      ZeroWords(frames.bits[..]);
      BootFrames(top);
      BelowMembers(Pages(top - 0xE000_0000));
      StepsArePages(0xE000_0000, top, 0);
    }

    /** The loop of `paging_init`. */
    method BootFrames(top: int)
      requires Valid() && Used() == {} && 0xE000_0000 < top && Pages(top - 0xE000_0000) <= frames.size / 32 * 32
      modifies frames.bits
      ensures Used() == Below(Pages(top - 0xE000_0000))
    {
      hide Pages, Members;
      var i := 0xE000_0000;
      ghost var c: nat := 0;
      while i < top
        invariant i == 0xE000_0000 + PAGE * c && (c == 0 || 0xE000_0000 + PAGE * (c - 1) < top)
        invariant Used() == Below(c)
        decreases top - i
      {
        StepsArePages(0xE000_0000, top, c);
        BelowMembers(c);
        assert c !in Used();
        var f := FrameAlloc();
        assert f == c;
        i := i + 0x1000;
        c := c + 1;
      }
      StepsArePages(0xE000_0000, top, c);
    }

    /** `frame_alloc`: the least free frame. */
    method FrameAlloc() returns (f: nat)
      requires Valid() && Available()
      modifies frames.bits
      ensures f !in old(Used()) && f < Bound() && Used() == old(Used()) + {f}
      ensures forall n: nat :: n < f ==> n in old(Used())
    {
      hide Members;
      ghost var n: nat :| n < frames.size / 32 * 32 && n !in Used();
      assert n !in Members(frames.bits[..]);
      var free := frames.FirstFree();
      assert frames.bits[..] == old(frames.bits[..]);
      assert free != NONE;
      f := free;
      frames.Set(f);
    }

    /** `frame_free`. */
    method FrameFree(f: nat)
      requires f < Bound()
      modifies frames.bits
      ensures Used() == old(Used()) - {f}
    {
      hide Members;
      frames.Clear(f);
    }

    /** `page_map`: an entry that is present is left alone. */
    method PageMap(k: (Pd, int), f: nat, a: Mid)
      modifies this`pages
      ensures pages == if k in old(pages) then old(pages) else old(pages)[k := Page(f, a)]
    {
      if k !in pages {
        pages := pages[k := Page(f, a)];
      }
    }

    /** `page_unmap`. */
    method PageUnmap(k: (Pd, int))
      modifies this`pages
      ensures pages == old(pages) - {k}
    {
      pages := pages - {k};
    }

    /** `page_unmapFree`. */
    method PageUnmapFree(k: (Pd, int))
      requires k in pages ==> pages[k].frame < Bound()
      modifies this`pages, frames.bits
      ensures pages == old(pages) - {k}
      ensures Used() == old(Used()) - if k in old(pages) && old(pages)[k].frame != 0 then {old(pages)[k].frame} else {}
    {
      hide Members;
      if k in pages && pages[k].frame != 0 {
        FrameFree(pages[k].frame);
      }
      pages := pages - {k};
    }

    /** The loop of `simpleseg_unmap` and of the shrinking half of `simpleseg_resize`. */
    method FreeRange(pd: Pd, from: int, to: int)
      requires 0 <= from <= to && from % PAGE == 0 && Fits(pages, Bound())
      modifies this`pages, frames.bits
      ensures pages == Cleared(old(pages), pd, from / PAGE, from / PAGE + Pages(to - from))
      ensures Used() == old(Used()) - Shown(old(pages), pd, from / PAGE, from / PAGE + Pages(to - from))
    {
      hide Members, Cleared, Shown, Pages;
      var i := from;
      ghost var c, lo, was := 0, from / PAGE, pages;
      ClearedNone(pages, pd, lo);
      assert Used() == Used() - {};
      while i < to
        invariant 0 <= c && i == from + PAGE * c && i / PAGE == lo + c && (c == 0 || from + PAGE * (c - 1) < to)
        invariant pages == Cleared(was, pd, lo, lo + c)
        invariant Used() == old(Used()) - Shown(was, pd, lo, lo + c)
      {
        ClearedOne(was, pd, lo, lo + c);
        PageUnmapFree((pd, i / PAGE));
        i := i + 0x1000;
        c := c + 1;
      }
      StepsArePages(from, to, c);
    }

    /** The loop of `shmseg_unmap`. */
    method DropRange(pd: Pd, start: int, len: int)
      requires 0 <= start && start % PAGE == 0 && 0 <= len
      modifies this`pages
      ensures pages == Cleared(old(pages), pd, start / PAGE, start / PAGE + Pages(len))
    {
      hide Cleared, Shown, Pages;
      var i := 0;
      ghost var c, lo, was := 0, start / PAGE, pages;
      ClearedNone(pages, pd, lo);
      while i < len
        invariant 0 <= c && i == PAGE * c && (start + i) / PAGE == lo + c && (c == 0 || PAGE * (c - 1) < len)
        invariant pages == Cleared(was, pd, lo, lo + c)
        decreases len - i
      {
        ClearedOne(was, pd, lo, lo + c);
        PageUnmap((pd, (start + i) / PAGE));
        i := i + 0x1000;
        c := c + 1;
      }
      StepsArePages(0, len, c);
    }

    /** The loop of `shmseg_delete`. */
    method FreeTable(table: seq<nat>)
      requires TableFits(table, Bound())
      modifies frames.bits
      ensures Used() == old(Used()) - Nonzero(table)
    {
      hide Members, Nonzero;
      var i := 0;
      assert Nonzero(table[..0]) == {} by {
        NonzeroEmpty(table);
      }
      while i < |table|
        invariant 0 <= i <= |table|
        invariant Used() == old(Used()) - Nonzero(table[..i])
      {
        NonzeroOne(table, i);
        if table[i] != 0 {
          FrameFree(table[i]);
        }
        i := i + 1;
      }
      assert table[..i] == table;
    }

    /** `seg_map`: the map is the newest of its directory, and everything stays well formed. */
    method MapSegment(sid: Sid, a: Mid, pd: Pd, offset: int)
      requires Inv(View()) && MayMap(View(), sid, a, pd, offset)
      modifies this`maps, this`mapped, this`mappings
      ensures View() == Map(old(View()), sid, a, pd, offset) && Inv(View())
      ensures sid in mappings && pd in mapped && mapped[pd] != [] && mapped[pd][0] == a && a in maps
      ensures maps[a].seg == sid && maps[a].pd == pd && maps == old(maps)[a := maps[a]]
      ensures segs[sid].Simple? ==> maps[a].start == segs[sid].start && maps[a].len == segs[sid].len
      ensures segs[sid].Shared? ==> maps[a].start == offset && maps[a].len == 0x1000 * |segs[sid].frames|
      ensures mappings == old(mappings)[sid := old(mappings)[sid] + 1]
    {
      hide Members, Inv, Apart;
      MapInv(View(), sid, a, pd, offset);
      var m := match segs[sid]
        case Simple(start, len, _) => SegMap(sid, pd, start, len)
        case Shared(table) => SegMap(sid, pd, offset, PAGE * |table|);
      mappings := mappings[sid := mappings[sid] + 1];
      maps := maps[a := m];
      mapped := mapped[pd := [a] + mapped[pd]];
    }

    /** The list walk of `seg_unmap`. */
    method TakeOut(pd: Pd, a: Mid)
      requires pd in mapped && a in mapped[pd]
      modifies this`mapped
      ensures mapped == old(mapped)[pd := Unlisted(old(mapped)[pd], a)]
    {
      var l := mapped[pd];
      if l[0] == a {
        mapped := mapped[pd := l[1..]];
      } else {
        var m := 0;
        while m + 1 < |l| && l[m + 1] != a
          invariant 0 <= m < |l| && forall i :: 0 <= i <= m ==> l[i] != a
        {
          m := m + 1;
        }
        UnlistedAt(l, m + 1, a);
        mapped := mapped[pd := l[..m + 1] + l[m + 2..]];
      }
    }

    /** `simpleseg_unmap` or `shmseg_unmap`. */
    method UnmapOf(a: Mid)
      requires a in maps && maps[a].seg in segs && 0 <= maps[a].start && maps[a].start % PAGE == 0 && 0 <= maps[a].len
      requires Fits(pages, Bound())
      modifies this`pages, frames.bits
      ensures View() == UnmapPages(old(View()), a)
    {
      hide Members, Cleared, Shown, Pages, Fits;
      var m := maps[a];
      if segs[m.seg].Simple? {
        FreeRange(m.pd, m.start, m.start + m.len);
      } else {
        DropRange(m.pd, m.start, m.len);
      }
    }

    /** The end of `seg_unmap`: the last reference deletes the segment. */
    method Release(sid: Sid)
      requires sid in segs && sid in mappings && (segs[sid].Shared? ==> TableFits(segs[sid].frames, Bound()))
      modifies this`segs, this`mappings, frames.bits
      ensures View() == Reap(old(View()), sid)
    {
      hide Members, TableFits, Nonzero;
      if mappings[sid] == 0 {
        if segs[sid].Shared? {
          FreeTable(segs[sid].frames);
        }
        segs := segs - {sid};
        mappings := mappings - {sid};
      }
    }

    /** `seg_unmap`. */
    method UnmapSegment(a: Mid)
      requires Inv(View()) && a in maps
      modifies this`pages, this`maps, this`freed, this`mapped, this`mappings, this`segs, frames.bits
      ensures a in old(View()).maps && old(View()).maps[a].pd in old(View()).mapped
      ensures old(View()).maps[a].seg in old(View()).mappings && old(View()).maps[a].seg in old(View()).segs
      ensures View() == Unmap(old(View()), a) && Inv(View())
    {
      hide Members, Inv, UnmapPages, Unlist, Reap, Fits, TableFits;
      ghost var s := View();
      UsedBound();
      InvFits(s, Bound());
      MapListed(s, a);
      UnmapInv(s, a);
      var m := maps[a];
      UnmapOf(a);
      UnmapPagesKeeps(s, a);
      TakeOut(m.pd, a);
      maps := maps - {a};
      freed := freed + {a};
      mappings := mappings[m.seg := mappings[m.seg] - 1];
      UnlistIs(UnmapPages(s, a), a, View());
      Release(m.seg);
    }

    /** `handle_fault` of either kind of segment; 0 when the page was brought in. */
    method HandleFaultOf(a: Mid, addr: int, write: bool) returns (r: int, ghost f: nat)
      requires Valid() && Available() && a in maps && maps[a].seg in segs && 0 <= maps[a].start <= addr
      requires maps[a].start % PAGE == 0
      requires segs[maps[a].seg].Shared? ==> addr / PAGE - First(maps[a]) < |segs[maps[a].seg].frames|
      modifies this`pages, this`segs, frames.bits
      ensures f !in old(Used()) && View() == HandleFault(old(View()), a, addr, write, f)
      ensures r == 0 <==>
              (maps[a].pd, addr / PAGE) !in old(pages) &&
              !(old(segs)[maps[a].seg].Simple? && write && !old(segs)[maps[a].seg].writable)
      ensures r == 0 ==> (maps[a].pd, addr / PAGE) in pages
    {
      hide Members;
      var m := maps[a];
      var k := (m.pd, addr / PAGE);
      f :| f !in Used();
      match segs[m.seg]
      case Simple(_, _, writable) =>
        if write && !writable {
          return 1, f;
        }
        if k in pages {
          return 1, f;
        }
        var g := FrameAlloc();
        f := g;
        PageMap(k, g, a);
        return 0, f;
      case Shared(table) =>
        if k in pages {
          return 1, f;
        }
        var i := (addr / PAGE * PAGE - m.start) / PAGE;
        assert i == addr / PAGE - First(m);
        var t := table;
        if t[i] == 0 {
          var g := FrameAlloc();
          f := g;
          t := t[i := g];
          segs := segs[m.seg := Shared(t)];
        }
        PageMap(k, t[i], a);
        return 0, f;
    }

    /** The lookup of `paging_fault`. */
    method Lookup(pd: Pd, addr: int) returns (hit: Option<Mid>)
      requires pd in mapped && forall a :: a in mapped[pd] ==> a in maps
      ensures hit == Hit(View(), mapped[pd], addr)
    {
      hide Members;
      var l := mapped[pd];
      var i := 0;
      while i < |l|
        invariant 0 <= i <= |l|
        invariant forall j :: 0 <= j < i ==>
                  l[j] in maps && !(maps[l[j]].start <= addr < maps[l[j]].start + maps[l[j]].len)
      {
        HitFrom(View(), l, i, addr);
        if maps[l[i]].start <= addr < maps[l[i]].start + maps[l[i]].len {
          return Some(l[i]);
        }
        i := i + 1;
      }
      HitFrom(View(), l, i, addr);
      return None;
    }

    /** `shmseg_getByOff`: the newest shared map that starts at `offset`. */
    method GetByOff(pd: Pd, offset: int) returns (hit: Option<Mid>)
      requires pd in mapped && forall a :: a in mapped[pd] ==> a in maps && maps[a].seg in segs
      ensures hit.None? <==> forall a :: a in mapped[pd] ==> !StartsAt(View(), a, offset)
      ensures hit.Some? ==>
                exists i :: 0 <= i < |mapped[pd]| && mapped[pd][i] == hit.value &&
                    StartsAt(View(), hit.value, offset) &&
                            forall j :: 0 <= j < i ==> !StartsAt(View(), mapped[pd][j], offset)
    {
      hide Members;
      var l := mapped[pd];
      var i := 0;
      while i < |l|
        invariant 0 <= i <= |l|
        invariant forall j :: 0 <= j < i ==> !StartsAt(View(), l[j], offset)
      {
        if maps[l[i]].start == offset && segs[maps[l[i]].seg].Shared? {
          assert l[i] in mapped[pd] && StartsAt(View(), l[i], offset);
          return Some(l[i]);
        }
        i := i + 1;
      }
      return None;
    }

    /** The segment part of `paging_fault`; false when the fault is not handled. */
    method PagingFault(pd: Pd, addr: int, write: bool) returns (ok: bool, ghost f: nat)
      requires Valid() && Available() && Inv(View()) && pd in mapped
      modifies this`pages, this`segs, frames.bits
      ensures f !in old(Used()) && View() == Fault(old(View()), pd, addr, write, f) && Inv(View())
      ensures ok ==> (pd, addr / PAGE) in pages && (pd, addr / PAGE) !in old(pages)
      ensures !ok ==> View() == old(View())
    {
      hide Members, Inv, HandleFault, Hit;
      ghost var s := View();
      ListedMaps(s, pd);
      HitCovers(s, mapped[pd], addr);
      var hit := Lookup(pd, addr);
      f :| f !in Used();
      ok := false;
      if hit.Some? {
        var a := hit.value;
        FaultPlace(s, pd, a, addr);
        var r;
        r, f := HandleFaultOf(a, addr, write);
        ok := r == 0;
        if !ok {
          HandleRefused(s, a, addr, write, f);
        }
      }
      FaultInv(s, pd, addr, write, f);
    }

    /** `simpleseg_resize`. */
    method ResizeSegment(a: Mid, len: nat) returns (r: int)
      requires Inv(View()) && MayResize(View(), a, len)
      modifies this`pages, this`segs, this`maps, frames.bits
      ensures old(MayResize(View(), a, len))
      ensures View() == Resize(old(View()), a, len) && Inv(View())
      ensures r == if old(segs[maps[a].seg]).Shared? then -2 else 0
    {
      hide Members, Inv, Cleared, Shown, Pages, Fits, Apart;
      ghost var s := View();
      UsedBound();
      InvFits(s, Bound());
      MapListed(s, a);
      ResizeInv(s, a, len);
      var m := maps[a];
      if segs[m.seg].Shared? {
        return -2;
      }
      var n := if len % 0x1000 != 0 then len - len % 0x1000 + 0x1000 else len;
      if n < m.len {
        ResizeRange(m, n);
        FreeRange(m.pd, m.start + n, m.start + m.len);
        maps := maps[a := m.(len := n)];
        segs := segs[m.seg := segs[m.seg].(len := n)];
      } else if n > m.len {
        maps := maps[a := m.(len := n)];
        segs := segs[m.seg := segs[m.seg].(len := n)];
      }
      return 0;
    }

    /** The kernel heap takes a frame for itself. */
    method KernelTake() returns (f: nat)
      requires Valid() && Available() && Good(View())
      modifies this`kernel, frames.bits
      ensures f !in old(Used()) && View() == old(View()).(used := old(Used()) + {f}, kernel := old(kernel) + {f})
      ensures Good(View())
    {
      hide Members, Good;
      ghost var s := View();
      f := FrameAlloc();
      kernel := kernel + {f};
      KernelGood(s, f);
    }

    // ---------------------------------------------------------------- shared memory in requests

    /**
     The shared-memory part of `mkrequest`: each offset is looked up among the sender's maps; `found` are those maps.
     Within one process nothing is looked up for the receiver.
     */
    method PostShm(r: Rid, from: Pd, to: Pd, blocking: bool,
        offsets: seq<Option<int>>) returns (ghost found: seq<Option<Mid>>)
      requires Inv(View()) && r !in requests && r !in answered && |offsets| == 3 && from in mapped
      requires from != to ==> forall i :: 0 <= i < 3 && offsets[i].Some? ==>
               exists a :: a in mapped[from] && StartsAt(View(), a, offsets[i].value)
      modifies this`requests, this`mappings
      ensures |found| == 3 && (forall i :: 0 <= i < 3 ==> Findable(old(View()), found[i]))
      ensures forall i :: 0 <= i < 3 ==> SentAs(old(View()), from, to, offsets[i], found[i])
      ensures View() == Post(old(View()), r, from, to, blocking, found) && Inv(View())
    {
      hide Members, Inv, AddParams, SentAs;
      ghost var s := View();
      ListedMaps(s, from);
      Typed(s);
      requests := requests[r := Request(from, to, blocking, false, [])];
      ghost var b := View();
      found := SendAll(r, from, to, offsets);
      forall i | 0 <= i < 3
        ensures Findable(s, found[i]) && SentAs(s, from, to, offsets[i], found[i])
      {
        SentSame(s, b, from, to, offsets[i], found[i]);
      }
      SentNone(s, from, to, offsets, found);
      PostInv(s, r, from, to, blocking, found);
    }

    /** The loop over the parameters. */
    method SendAll(r: Rid, from: Pd, to: Pd, offsets: seq<Option<int>>) returns (ghost found: seq<Option<Mid>>)
      requires r in requests && from in mapped && mappings.Keys == segs.Keys && |offsets| == 3
      requires forall a :: a in mapped[from] ==> a in maps && maps[a].seg in segs
      requires from != to ==> forall i :: 0 <= i < 3 && offsets[i].Some? ==>
               exists a :: a in mapped[from] && StartsAt(View(), a, offsets[i].value)
      modifies this`requests, this`mappings
      ensures |found| == 3 && r in old(requests) && forall i :: 0 <= i < 3 ==> Findable(old(View()), found[i])
      ensures forall i :: 0 <= i < 3 ==> SentAs(old(View()), from, to, offsets[i], found[i])
      ensures View() == AddParams(old(View()), r, found)
    {
      hide Members, AddParam, AddParams, SentAs;
      ghost var b := View();
      found := [];
      AddNone(b, r);
      var i := 0;
      while i < 3
        invariant 0 <= i <= 3 && |found| == i && r in requests
        invariant View() == b.(requests := requests, mappings := mappings)
        invariant forall j :: 0 <= j < i ==> Findable(b, found[j]) && SentAs(b, from, to, offsets[j], found[j])
        invariant View() == AddParams(b, r, found) && mappings.Keys == segs.Keys == b.mappings.Keys
      {
        ghost var v := View();
        ghost var f := SendOne(r, from, to, offsets[i]);
        SentSame(b, v, from, to, offsets[i], f);
        AddParamsSnoc(b, r, found, f);
        found := found + [f];
        i := i + 1;
      }
    }

    /** One turn of that loop. */
    method SendOne(r: Rid, from: Pd, to: Pd, offset: Option<int>) returns (ghost f: Option<Mid>)
      requires r in requests && from in mapped && mappings.Keys == segs.Keys
      requires forall a :: a in mapped[from] ==> a in maps && maps[a].seg in segs
      requires from != to && offset.Some? ==> exists a :: a in mapped[from] && StartsAt(View(), a, offset.value)
      modifies this`requests, this`mappings
      ensures Findable(old(View()), f) && View() == AddParam(old(View()), r, f) && mappings.Keys == old(mappings).Keys
      ensures SentAs(old(View()), from, to, offset, f) && r in requests
    {
      hide Members, AddParam;
      ghost var v := View();
      f := None;
      if from == to || offset.None? {
        requests := requests[r := requests[r].(params := requests[r].params + [Nothing])];
      } else {
        var hit := GetByOff(from, offset.value);
        var a := hit.value;
        f := hit;
        var sid := maps[a].seg;
        mappings := mappings[sid := mappings[sid] + 1];
        requests := requests[r := requests[r].(params := requests[r].params + [Shm(a, sid, None)])];
      }
      AddParamIs(v, r, f, View());
    }

    /**
     The shared-memory part of `request_mapShm`, the sender's map being there. On a parameter that has been mapped
     before it does the same again.
     */
    method MapShm(r: Rid, i: nat, a: Mid, pos: int) returns (code: int)
      requires Inv(View()) && r in requests && i < |requests[r].params|
      requires Mappable(View(), r, i) ==>
               requests[r].params[i].sndr in maps && MayMap(View(), requests[r].params[i].seg, a, requests[r].to, pos)
      modifies this`maps, this`mapped, this`mappings, this`requests
      ensures (Mappable(old(View()), r, i) ==> Reachable(old(View()), r, i)) &&
              View() == MapParam(old(View()), r, i, a, pos)
      ensures !(Mappable(old(View()), r, i) && old(requests)[r].params[i].rcv.Some?) ==> Inv(View())
      ensures code == if Mappable(old(View()), r, i) then 0 else if !old(requests)[r].processed then -3 else -5
    {
      hide Members, Inv, MayMap, Map, HasOpen;
      ghost var s := View();
      if !requests[r].processed {
        return -3;
      }
      if !requests[r].params[i].Shm? {
        return -5;
      }
      SenderSegOf(s, r, i);
      MapsTo(s, requests[r].params[i].seg, a, requests[r].to, pos);
      if requests[r].params[i].rcv.None? {
        MapParamInv(s, r, i, a, pos);
      }
      var rq := requests[r];
      var sid := maps[rq.params[i].sndr].seg;
      MapSegment(sid, a, rq.to, pos);
      mappings := mappings[sid := mappings[sid] - 1];
      rq := rq.(params := rq.params[i := rq.params[i].(rcv := Some(a))]);
      var left := Outstanding(rq);
      requests := if rq.blocking || left then requests[r := rq] else requests - {r};
      return 0;
    }

    /** The loop of `request_mapShm`: is a parameter left to map? */
    method Outstanding(rq: Request) returns (left: bool)
      ensures left == HasOpen(rq)
    {
      var i := 0;
      while i < |rq.params|
        invariant 0 <= i <= |rq.params| && forall j :: 0 <= j < i ==> !(rq.params[j].Shm? && rq.params[j].rcv.None?)
      {
        if rq.params[i].Shm? && rq.params[i].rcv.None? {
          return true;
        }
        i := i + 1;
      }
      return false;
    }

    /** The shared-memory part of `request_answer`, the receiver having kept what it mapped. */
    method AnswerShm(r: Rid)
      requires Inv(View()) && r in requests && requests[r].processed && requests[r].blocking
      requires !RcvGone(View(), requests[r].params)
      modifies this`pages, this`maps, this`freed, this`mapped, this`mappings, this`segs, this`requests, this`answered,
               frames.bits
      ensures View() == Answer(old(View()), r) && Inv(View())
    {
      hide Members, Inv, Unmap, UnmapRcv;
      ghost var s := View();
      AnswerInv(s, r);
      RcvsApart(s, r);
      var params := requests[r].params;
      assert params[0..] == params;
      var i := 0;
      while i < |params|
        invariant 0 <= i <= |params| && Inv(View()) && requests == old(requests) && answered == old(answered)
        invariant !RcvGone(View(), params[i..]) && RcvApart(params)
        invariant UnmapRcv(View(), params[i..]) == UnmapRcv(s, params)
      {
        ghost var v := View();
        RcvNext(v, params, i);
        if params[i].Shm? && params[i].rcv.Some? {
          UnmapSegment(params[i].rcv.value);
          UnmapKeeps(v, params[i].rcv.value);
        }
        RcvStep(v, params, i, View());
        i := i + 1;
      }
      UnmapNone(View(), params[i..]);
      ghost var rq := requests[r];
      answered := answered[r := rq];
      requests := requests - {r};
    }

    /** The loop of `pagedir_delete`. */
    method EmptyDir(pd: Pd)
      requires Good(View()) && pd in mapped
      modifies this`pages, this`maps, this`freed, this`mapped, this`mappings, this`segs, frames.bits
      ensures View() == Emptied(old(View()), pd) && Good(View())
      ensures pd in mapped && mapped[pd] == []
    {
      hide Members, Good, Unmap;
      EmptiedInv(View(), pd);
      while mapped[pd] != []
        invariant Good(View()) && pd in mapped && Emptied(View(), pd) == Emptied(old(View()), pd)
        decreases |mapped[pd]|
      {
        HeadMap(View(), pd);
        ghost var s := View();
        RootedUnmap(s, mapped[pd][0]);
        HeadUnmapped(s, pd);
        GoodInv(s);
        UnmapSegment(mapped[pd][0]);
      }
    }
  }

  lemma GoodInv(s: State)
    requires Good(s)
    ensures Inv(s)
  {
  }

  lemma MapListed(s: State, a: Mid)
    requires Inv(s) && a in s.maps
    ensures s.maps[a].pd in s.mapped && a in s.mapped[s.maps[a].pd] && s.maps[a].seg in s.segs
    ensures s.maps[a].seg in s.mappings
    ensures 0 <= s.maps[a].start && s.maps[a].start % PAGE == 0 && 0 <= s.maps[a].len
  {
    hide Exact, PagesOk, NoTwice, Apart;
  }

  lemma UnlistIs(s: State, a: Mid, t: State)
    requires a in s.maps && s.maps[a].pd in s.mapped && s.maps[a].seg in s.mappings
    requires t ==
             s.(maps := s.maps - {a}, freed := s.freed + {a},
             mapped := s.mapped[s.maps[a].pd := Unlisted(s.mapped[s.maps[a].pd], a)],
                     mappings := s.mappings[s.maps[a].seg := s.mappings[s.maps[a].seg] - 1])
    ensures t == Unlist(s, a)
  {
  }

  /** Where a fault that a map answers falls. */
  lemma FaultPlace(s: State, pd: Pd, a: Mid, addr: int)
    requires Inv(s) && pd in s.mapped && Hit(s, s.mapped[pd], addr) == Some(a)
    ensures a in s.maps && s.maps[a].pd == pd && s.maps[a].seg in s.segs && 0 <= s.maps[a].start <= addr
    ensures s.maps[a].start % PAGE == 0
    ensures s.segs[s.maps[a].seg].Shared? ==> addr / PAGE - First(s.maps[a]) < |s.segs[s.maps[a].seg].frames|
  {
    hide Exact, PagesOk, CountsOk, NoTwice, Apart;
    ListedMaps(s, pd);
    HitCovers(s, s.mapped[pd], addr);
    HitInside(s, s.mapped[pd], addr);
  }

  lemma {:induction false} HitInside(s: State, l: seq<Mid>, addr: int)
    requires Hit(s, l, addr).Some?
    ensures var a := Hit(s, l, addr).value; a in s.maps && s.maps[a].start <= addr < s.maps[a].start + s.maps[a].len
  {
    if l[0] in s.maps && s.maps[l[0]].start <= addr < s.maps[l[0]].start + s.maps[l[0]].len {
    } else {
      HitInside(s, l[1..], addr);
    }
  }

  lemma HandleRefused(s: State, a: Mid, addr: int, write: bool, f: nat)
    requires a in s.maps && s.maps[a].seg in s.segs
    requires (s.maps[a].pd, addr / PAGE) in s.pages ||
             (s.segs[s.maps[a].seg].Simple? && write && !s.segs[s.maps[a].seg].writable)
    ensures HandleFault(s, a, addr, write, f) == s
  {
  }

  lemma ResizeRange(m: SegMap, n: int)
    requires 0 <= m.start && m.start % PAGE == 0 && 0 <= n < m.len && n % PAGE == 0
    ensures (m.start + n) / PAGE == First(m) + n / PAGE && (m.start + n) % PAGE == 0
    ensures First(m) + Pages(m.len) == First(m) + n / PAGE + Pages(m.len - n)
  {
  }

  lemma ZeroWords(words: seq<bv32>)
    requires forall i :: 0 <= i < |words| ==> words[i] == 0
    ensures Members(words) == {}
  {
    hide Mask;
    forall n: nat
      ensures !In(words, n)
    {
      ZeroMask(Mask(n % 32));
    }
  }

  lemma ZeroMask(m: bv32)
    ensures Masked(0, m) == 0
  {
  }

  lemma NonzeroEmpty(table: seq<nat>)
    ensures Nonzero(table[..0]) == {}
  {
  }
}
