/** Every operation on segments and pages keeps the ownership of frames exact; the consequences over whole runs. */
module FrameInv {
  import opened Common
  import opened FrameModel
  import opened Lists

  // ---------------------------------------------------------------- pages and maps

  lemma CoversBytes(m: SegMap, v: int)
    requires Covers(m, v) && m.start % PAGE == 0
    ensures m.start <= v * PAGE < m.start + m.len
  {
  }

  /** A page lies in one map of its directory. */
  lemma CoverUnique(s: State, a: Mid, b: Mid, v: int)
    requires MapsOk(s) && a in s.maps && b in s.maps && s.maps[a].pd == s.maps[b].pd
    requires Covers(s.maps[a], v) && Covers(s.maps[b], v)
    ensures a == b
  {
    CoversBytes(s.maps[a], v);
    CoversBytes(s.maps[b], v);
    assert a != b ==> Apart(s.maps[a], s.maps[b]);
  }

  /** The pages in the range of a map are those brought in through it. */
  lemma RangeIsOwn(s: State, a: Mid, k: (Pd, int))
    requires MapsOk(s) && PagesOk(s) && a in s.maps && k in s.pages
    ensures k.0 == s.maps[a].pd && Covers(s.maps[a], k.1) <==> s.pages[k].via == a
  {
    if k.0 == s.maps[a].pd && Covers(s.maps[a], k.1) {
      CoverUnique(s, a, s.pages[k].via, k.1);
    }
  }

  // ---------------------------------------------------------------- freeing pages

  /** Freeing the frames of some private pages of a simple map and clearing these pages. */
  lemma FreePages(s: State, a: Mid, lo: int, hi: int)
    requires Exact(s) && PagesOk(s) && MapsOk(s) && a in s.maps && s.maps[a].seg in s.segs
    requires s.segs[s.maps[a].seg].Simple?
    requires First(s.maps[a]) <= lo && hi <= First(s.maps[a]) + Pages(s.maps[a].len)
    ensures var t := s.(pages := Cleared(s.pages, s.maps[a].pd, lo, hi),
            used := s.used - Shown(s.pages, s.maps[a].pd, lo, hi));
            Exact(t) && PagesOk(t)
  {
    hide NamesOk, Exact, MapsOk;
    var pd := s.maps[a].pd;
    var gone := Shown(s.pages, pd, lo, hi);
    var t := s.(pages := Cleared(s.pages, pd, lo, hi), used := s.used - gone);
    forall f | f in gone
      ensures exists k :: InRange(k, pd, lo, hi) && Holds(s, OfPage(k), f)
    {
      var k :| k in s.pages && InRange(k, pd, lo, hi) && s.pages[k].frame == f;
      RangeIsOwn(s, a, k);
      assert Holds(s, OfPage(k), f);
    }
    forall h, f
      ensures Holds(t, h, f) <==> Holds(s, h, f) && f !in gone
    {
      HeldStays(s, t, pd, lo, hi, gone, h, f);
    }
    GoneNotKernel(s, gone, pd, lo, hi);
    ExactRemove(s, t, gone);
  }

  lemma HeldStays(s: State, t: State, pd: Pd, lo: int, hi: int, gone: set<nat>, h: Holder, f: nat)
    requires Exact(s) && gone == Shown(s.pages, pd, lo, hi)
    requires t == s.(pages := Cleared(s.pages, pd, lo, hi), used := t.used)
    requires forall x :: x in gone ==> exists k :: InRange(k, pd, lo, hi) && Holds(s, OfPage(k), x)
    ensures Holds(t, h, f) <==> Holds(s, h, f) && f !in gone
  {
    if f in gone {
      var k :| InRange(k, pd, lo, hi) && Holds(s, OfPage(k), f);
      assert Holds(s, h, f) ==> h == OfPage(k);
    }
  }

  lemma GoneNotKernel(s: State, gone: set<nat>, pd: Pd, lo: int, hi: int)
    requires Exact(s) && forall x :: x in gone ==> exists k :: InRange(k, pd, lo, hi) && Holds(s, OfPage(k), x)
    ensures gone !! s.kernel
  {
    hide Holds;
  }

  lemma UnmapPagesInv(s: State, a: Mid)
    requires Inv(s) && a in s.maps && s.maps[a].seg in s.segs
    ensures Inv(UnmapPages(s, a)) && forall k :: k in UnmapPages(s, a).pages ==> UnmapPages(s, a).pages[k].via != a
  {
    hide NamesOk, Exact, CountsOk, MapsOk, PagesOk, Covers;
    var m, t := s.maps[a], UnmapPages(s, a);
    forall k | k in t.pages
      ensures t.pages[k].via != a
    {
      RangeIsOwn(s, a, k);
      assert !InRange(k, m.pd, First(m), First(m) + Pages(m.len));
      NotCovered(m, k);
    }
    if s.segs[m.seg].Simple? {
      FreePages(s, a, First(m), First(m) + Pages(m.len));
    } else {
      DropShared(s, t, a);
    }
    MapsSame(s, t);
    CountsSame(s, t);
    NamesSame(s, t);
  }

  lemma NotCovered(m: SegMap, k: (Pd, int))
    ensures InRange(k, m.pd, First(m), First(m) + Pages(m.len)) <==> k.0 == m.pd && Covers(m, k.1)
  {
  }

  /** The pages of a shared segment hold nothing. */
  lemma DropShared(s: State, t: State, a: Mid)
    requires Exact(s) && PagesOk(s) && MapsOk(s) && a in s.maps && s.maps[a].seg in s.segs
    requires s.segs[s.maps[a].seg].Shared?
    requires t == s.(pages := Cleared(s.pages, s.maps[a].pd, First(s.maps[a]), First(s.maps[a]) + Pages(s.maps[a].len)))
    ensures Exact(t) && PagesOk(t)
  {
    hide NamesOk, Exact, MapsOk, Covers;
    var m := s.maps[a];
    forall k | k in s.pages && k !in t.pages
      ensures !Private(s, k)
    {
      NotCovered(m, k);
      RangeIsOwn(s, a, k);
    }
    HoldsWithout(s, t);
    ExactSame(s, t);
    forall k | k in t.pages
      ensures PageOk(t, k)
    {
      assert PageOk(s, k);
    }
  }

  /** Pages that are not private hold nothing. */
  lemma HoldsWithout(s: State, t: State)
    requires t == s.(pages := t.pages) && (forall k :: k in t.pages ==> k in s.pages && t.pages[k] == s.pages[k])
    requires forall k :: k in s.pages && k !in t.pages ==> !Private(s, k)
    ensures forall h, f :: Holds(t, h, f) <==> Holds(s, h, f)
  {
  }

  lemma CountsSame(s: State, t: State)
    requires CountsOk(s) && t.segs.Keys == s.segs.Keys && t.mappings == s.mappings
    requires t.requests == s.requests && t.answered == s.answered
    requires t.maps.Keys == s.maps.Keys && forall a :: a in s.maps ==> t.maps[a].seg == s.maps[a].seg
    ensures CountsOk(t)
  {
    hide Open;
    assert forall sid :: MapsOf(t, sid) == MapsOf(s, sid);
  }

  lemma NamesSame(s: State, t: State)
    requires NamesOk(s) && t.maps.Keys == s.maps.Keys && t.freed == s.freed && t.requests == s.requests
    requires t.answered == s.answered
    requires forall a :: a in s.maps ==> t.maps[a].seg == s.maps[a].seg
    ensures NamesOk(t)
  {
    assert forall a, sid :: Names(s, a, sid) ==> Names(t, a, sid);
    forall r | r in t.requests
      ensures RequestOk(t, t.requests[r])
    {
      assert RequestOk(s, s.requests[r]);
    }
  }

  // ---------------------------------------------------------------- taking a map out

  lemma {:induction false} UnlistedMembers(l: seq<Mid>, a: Mid)
    requires NoTwice(l)
    ensures NoTwice(Unlisted(l, a)) && forall b :: b in Unlisted(l, a) <==> b in l && b != a
  {
    if l != [] {
      assert l == [l[0]] + l[1..];
      NoTwiceFirst(l[0], l[1..]);
      UnlistedMembers(l[1..], a);
      NoTwiceFirst(l[0], Unlisted(l[1..], a));
    }
  }

  lemma UnlistMaps(s: State, a: Mid)
    requires MapsOk(s) && a in s.maps && s.maps[a].seg in s.mappings && s.maps[a].pd in s.mapped
    ensures MapsOk(Unlist(s, a))
  {
    UnlistedMembers(s.mapped[s.maps[a].pd], a);
    hide NoTwice, Apart, Pages, Unlisted;
  }

  lemma UnlistCounts(s: State, a: Mid)
    requires CountsOk(s) && a in s.maps && s.maps[a].seg in s.segs && s.maps[a].pd in s.mapped
    ensures CountsOk(Unlist(s, a))
  {
    hide Open;
    var t, sid := Unlist(s, a), s.maps[a].seg;
    assert MapsOf(t, sid) == MapsOf(s, sid) - {a} && a in MapsOf(s, sid);
    assert forall q :: q != sid ==> MapsOf(t, q) == MapsOf(s, q);
  }

  lemma UnlistInv(s: State, a: Mid)
    requires Inv(s) && a in s.maps && s.maps[a].seg in s.segs && s.maps[a].pd in s.mapped && s.maps[a].seg in s.mappings
    requires forall k :: k in s.pages ==> s.pages[k].via != a
    ensures Inv(Unlist(s, a))
  {
    hide NamesOk, Exact, MapsOk, CountsOk;
    var t := Unlist(s, a);
    assert forall h, f :: Holds(t, h, f) <==> Holds(s, h, f);
    ExactSame(s, t);
    UnlistMaps(s, a);
    UnlistCounts(s, a);
    UnlistNames(s, a);
  }

  lemma UnlistNames(s: State, a: Mid)
    requires NamesOk(s) && a in s.maps && s.maps[a].pd in s.mapped && s.maps[a].seg in s.mappings
    ensures NamesOk(Unlist(s, a))
  {
    var t := Unlist(s, a);
    assert forall b, sid :: Names(s, b, sid) ==> Names(t, b, sid);
    forall r | r in t.requests
      ensures RequestOk(t, t.requests[r])
    {
      assert RequestOk(s, s.requests[r]);
    }
  }

  // ---------------------------------------------------------------- deleting a segment

  /** A count of 0 means that no map and no request refers to the segment. */
  lemma ZeroUnused(s: State, sid: Sid)
    requires CountsOk(s) && sid in s.segs && s.mappings[sid] == 0
    ensures MapsOf(s, sid) == {} && Open(s.requests, sid) == {} && Open(s.answered, sid) == {}
    ensures forall a :: a in s.maps ==> s.maps[a].seg != sid
  {
    hide Open;
    assert |MapsOf(s, sid)| == 0;
    forall a | a in s.maps
      ensures s.maps[a].seg != sid
    {
      assert a !in MapsOf(s, sid);
    }
  }

  lemma ReapInv(s: State, sid: Sid)
    requires Inv(s) && sid in s.segs && sid in s.mappings
    ensures Inv(Reap(s, sid))
  {
    hide NamesOk, Exact, PagesOk, MapsOk, CountsOk;
    if s.mappings[sid] == 0 {
      ZeroUnused(s, sid);
      ReapCounts(s, sid);
      ReapExact(s, sid);
      ReapMaps(s, sid);
      NamesSame(s, Reap(s, sid));
    }
  }

  lemma ReapMaps(s: State, sid: Sid)
    requires PagesOk(s) && MapsOk(s) && sid in s.segs && sid in s.mappings && s.mappings[sid] == 0
    requires forall a :: a in s.maps ==> s.maps[a].seg != sid
    ensures PagesOk(Reap(s, sid)) && MapsOk(Reap(s, sid))
  {
    hide NoTwice, Apart, Covers;
  }

  lemma ReapCounts(s: State, sid: Sid)
    requires CountsOk(s) && sid in s.segs && s.mappings[sid] == 0
    ensures CountsOk(Reap(s, sid))
  {
    hide Open;
    ZeroUnused(s, sid);
    assert forall q :: MapsOf(Reap(s, sid), q) == MapsOf(s, q);
  }

  lemma ReapExact(s: State, sid: Sid)
    requires Exact(s) && sid in s.segs && sid in s.mappings && s.mappings[sid] == 0 && forall a :: a in s.maps ==>
             s.maps[a].seg != sid
    ensures Exact(Reap(s, sid))
  {
    var t := Reap(s, sid);
    if s.segs[sid].Shared? {
      var gone := Nonzero(s.segs[sid].frames);
      forall f | f in gone
        ensures exists i :: Holds(s, OfTable(sid, i), f)
      {
        var i :| 0 <= i < |s.segs[sid].frames| && s.segs[sid].frames[i] != 0 && s.segs[sid].frames[i] == f;
        assert Holds(s, OfTable(sid, i), f);
      }
      forall h, f
        ensures Holds(t, h, f) <==> Holds(s, h, f) && f !in gone
      {
        TableGone(s, t, sid, gone, h, f);
      }
      hide Holds;
      assert gone !! s.kernel;
      ExactRemove(s, t, gone);
    } else {
      ExactSame(s, t);
    }
  }

  lemma TableGone(s: State, t: State, sid: Sid, gone: set<nat>, h: Holder, f: nat)
    requires Exact(s) && sid in s.segs && s.segs[sid].Shared? && gone == Nonzero(s.segs[sid].frames)
    requires t == s.(segs := s.segs - {sid}, mappings := t.mappings, used := t.used)
    requires forall a :: a in s.maps ==> s.maps[a].seg != sid
    requires forall x :: x in gone ==> exists i :: Holds(s, OfTable(sid, i), x)
    ensures Holds(t, h, f) <==> Holds(s, h, f) && f !in gone
  {
    if f in gone {
      var i :| Holds(s, OfTable(sid, i), f);
      assert Holds(s, h, f) ==> h == OfTable(sid, i);
    }
  }

  /** `seg_unmap` keeps everything exact: no frame is lost, none is freed twice. */
  lemma UnmapInv(s: State, a: Mid)
    requires Inv(s) && a in s.maps
    ensures s.maps[a].pd in s.mapped && s.maps[a].seg in s.mappings && s.maps[a].seg in s.segs
    ensures Inv(Unmap(s, a))
  {
    MapHasSeg(s, a);
    hide Inv, Reap;
    UnmapPagesInv(s, a);
    UnlistInv(UnmapPages(s, a), a);
    ReapInv(Unlist(UnmapPages(s, a), a), s.maps[a].seg);
  }

  lemma MapHasSeg(s: State, a: Mid)
    requires Inv(s) && a in s.maps
    ensures s.maps[a].pd in s.mapped && s.maps[a].seg in s.mappings && s.maps[a].seg in s.segs
  {
    hide NamesOk, Exact, PagesOk;
  }

  // ---------------------------------------------------------------- putting a map in

  lemma MapMaps(s: State, sid: Sid, a: Mid, pd: Pd, offset: int)
    requires MapsOk(s) && MayMap(s, sid, a, pd, offset)
    ensures MapsOk(Map(s, sid, a, pd, offset))
  {
    hide NoTwice, Apart;
    var t := Map(s, sid, a, pd, offset);
    assert forall b :: b in t.mapped[pd] <==> b == a || b in s.mapped[pd];
    NoTwiceFirst(a, s.mapped[pd]);
    if s.segs[sid].Shared? {
      PagesMultiple(|s.segs[sid].frames|);
    }
    forall b, c | b in t.maps && c in t.maps && b != c
      ensures Apart(t.maps[b], t.maps[c])
    {
      ApartSymmetric(t.maps[b], t.maps[c]);
    }
  }

  lemma ApartSymmetric(m: SegMap, n: SegMap)
    ensures Apart(m, n) <==> Apart(n, m)
  {
  }

  lemma PagesMultiple(n: nat)
    ensures Pages(PAGE * n) == n
  {
  }

  lemma MapsOfAdded(s: State, t: State, a: Mid, m: SegMap, q: Sid)
    requires a !in s.maps && t.maps == s.maps[a := m]
    ensures a !in MapsOf(s, q) && MapsOf(t, q) == if q == m.seg then MapsOf(s, q) + {a} else MapsOf(s, q)
  {
  }

  lemma MapCounts(s: State, sid: Sid, a: Mid, pd: Pd, offset: int)
    requires CountsOk(s) && MayMap(s, sid, a, pd, offset)
    ensures CountsOk(Map(s, sid, a, pd, offset))
  {
    hide Apart, MapsOf, Open;
    var t := Map(s, sid, a, pd, offset);
    forall q | q in t.segs
      ensures t.mappings[q] == |MapsOf(t, q)| + Inflight(t, q) + Abandoned(t, q)
    {
      MapsOfAdded(s, t, a, NewMap(s, sid, pd, offset), q);
    }
  }

  lemma MapInv(s: State, sid: Sid, a: Mid, pd: Pd, offset: int)
    requires Inv(s) && MayMap(s, sid, a, pd, offset)
    ensures Inv(Map(s, sid, a, pd, offset))
  {
    hide NamesOk, Exact, MapsOk, CountsOk, Apart;
    var t := Map(s, sid, a, pd, offset);
    FreshMap(s, sid, a, pd, offset);
    assert forall h, f :: Holds(t, h, f) <==> Holds(s, h, f);
    ExactSame(s, t);
    MapMaps(s, sid, a, pd, offset);
    MapCounts(s, sid, a, pd, offset);
    MapNames(s, sid, a, pd, offset);
  }

  lemma MapNames(s: State, sid: Sid, a: Mid, pd: Pd, offset: int)
    requires NamesOk(s) && MayMap(s, sid, a, pd, offset)
    ensures NamesOk(Map(s, sid, a, pd, offset))
  {
    hide Apart;
    var t := Map(s, sid, a, pd, offset);
    assert forall b, q :: Names(s, b, q) ==> Names(t, b, q);
    forall r | r in t.requests
      ensures RequestOk(t, t.requests[r])
    {
      assert RequestOk(s, s.requests[r]);
    }
  }

  lemma FreshMap(s: State, sid: Sid, a: Mid, pd: Pd, offset: int)
    requires PagesOk(s) && MayMap(s, sid, a, pd, offset)
    ensures a !in s.maps && forall k :: k in s.pages ==> s.pages[k].via != a
  {
  }

  // ---------------------------------------------------------------- faults

  lemma {:induction false} HitCovers(s: State, l: seq<Mid>, addr: int)
    requires forall a :: a in l ==> a in s.maps && 0 <= s.maps[a].start && s.maps[a].start % PAGE == 0
    ensures Hit(s, l, addr).Some? ==> Hit(s, l, addr).value in l && Covers(s.maps[Hit(s, l, addr).value], addr / PAGE)
    ensures Hit(s, l, addr).None? <==> forall a :: a in l ==>
            !(s.maps[a].start <= addr < s.maps[a].start + s.maps[a].len)
  {
    if l != [] {
      assert l == [l[0]] + l[1..];
      HitCovers(s, l[1..], addr);
      var m := s.maps[l[0]];
      if m.start <= addr < m.start + m.len {
        AddressCovered(m, addr);
      }
    }
  }

  lemma AddressCovered(m: SegMap, addr: int)
    requires 0 <= m.start && m.start % PAGE == 0 && m.start <= addr < m.start + m.len
    ensures Covers(m, addr / PAGE)
  {
  }

  /** One more page: a private one holds its frame, and no other holder changes. */
  lemma PageHolds(s: State, t: State, k: (Pd, int), p: Page, h: Holder, x: nat)
    requires k !in s.pages && t == s.(pages := s.pages[k := p], used := t.used)
    requires p.via in s.maps && s.maps[p.via].seg in s.segs && p.frame != 0
    ensures Holds(t, h, x) <==> Holds(s, h, x) || (h == OfPage(k) && x == p.frame && s.segs[s.maps[p.via].seg].Simple?)
  {
    if h.OfPage? && h.k != k {
      assert Private(t, h.k) <==> Private(s, h.k);
    }
  }

  lemma PageAdded(s: State, t: State, k: (Pd, int), p: Page)
    requires PagesOk(s) && t == s.(pages := s.pages[k := p], used := t.used)
    requires PageOk(t, k)
    ensures PagesOk(t)
  {
    hide Covers, First;
    forall q | q in t.pages
      ensures PageOk(t, q)
    {
      assert q != k ==> PageOk(s, q);
    }
  }

  lemma SimpleFault(s: State, a: Mid, v: int, f: nat)
    requires Inv(s) && a in s.maps && s.maps[a].seg in s.segs && s.segs[s.maps[a].seg].Simple? && Covers(s.maps[a], v)
    requires (s.maps[a].pd, v) !in s.pages && f !in s.used
    ensures Inv(s.(pages := s.pages[(s.maps[a].pd, v) := Page(f, a)], used := s.used + {f}))
  {
    hide NamesOk, Exact, MapsOk, CountsOk, Covers, PagesOk, Holds;
    var k := (s.maps[a].pd, v);
    var t := s.(pages := s.pages[k := Page(f, a)], used := s.used + {f});
    FreeNotZero(s, f);
    forall h, x
      ensures Holds(t, h, x) <==> Holds(s, h, x) || (h == OfPage(k) && x == f)
    {
      PageHolds(s, t, k, Page(f, a), h, x);
    }
    ExactAdd(s, t, OfPage(k), f);
    PageAdded(s, t, k, Page(f, a));
    MapsSame(s, t);
    CountsSame(s, t);
    NamesSame(s, t);
  }

  lemma FreeNotZero(s: State, f: nat)
    requires Exact(s) && f !in s.used
    ensures f != 0
  {
  }

  lemma MapsSame(s: State, t: State)
    requires MapsOk(s) && t.maps == s.maps && t.mapped == s.mapped && t.segs.Keys == s.segs.Keys
    requires forall q :: q in s.segs ==>
             t.segs[q].Shared? == s.segs[q].Shared? && (s.segs[q].Shared? ==> |t.segs[q].frames| == |s.segs[q].frames|)
    ensures MapsOk(t)
  {
    hide NoTwice, Apart;
  }

  /** The state with frame `f` put at place `i` of the table of a shared segment. */
  ghost function Filled(s: State, sid: Sid, i: nat, f: nat): State
    requires sid in s.segs && s.segs[sid].Shared? && i < |s.segs[sid].frames|
  {
    s.(used := s.used + {f}, segs := s.segs[sid := Shared(s.segs[sid].frames[i := f])])
  }

  lemma FilledHolds(s: State, sid: Sid, i: nat, f: nat, h: Holder, x: nat)
    requires sid in s.segs && s.segs[sid].Shared? && i < |s.segs[sid].frames| && s.segs[sid].frames[i] == 0 && f != 0
    ensures Holds(Filled(s, sid, i, f), h, x) <==> Holds(s, h, x) || (h == OfTable(sid, i) && x == f)
  {
    var t := Filled(s, sid, i, f);
    if h.OfPage? {
      assert Private(t, h.k) <==> Private(s, h.k);
    }
  }

  lemma FilledPages(s: State, sid: Sid, i: nat, f: nat)
    requires PagesOk(s) && sid in s.segs && s.segs[sid].Shared? && i < |s.segs[sid].frames|
    requires s.segs[sid].frames[i] == 0
    ensures PagesOk(Filled(s, sid, i, f))
  {
    hide Pages;
    var t := Filled(s, sid, i, f);
    forall q | q in t.pages
      ensures PageOk(t, q)
    {
      assert PageOk(s, q);
    }
  }

  lemma FilledInv(s: State, sid: Sid, i: nat, f: nat)
    requires Inv(s) && sid in s.segs && s.segs[sid].Shared? && i < |s.segs[sid].frames| && s.segs[sid].frames[i] == 0
    requires f !in s.used
    ensures Inv(Filled(s, sid, i, f)) && f != 0
  {
    hide NamesOk, Exact, MapsOk, CountsOk, PagesOk, Holds;
    var t := Filled(s, sid, i, f);
    FreeNotZero(s, f);
    forall h, x
      ensures Holds(t, h, x) <==> Holds(s, h, x) || (h == OfTable(sid, i) && x == f)
    {
      FilledHolds(s, sid, i, f, h, x);
    }
    ExactAdd(s, t, OfTable(sid, i), f);
    FilledPages(s, sid, i, f);
    MapsSame(s, t);
    CountsSame(s, t);
    NamesSame(s, t);
  }

  lemma TableFault(s: State, a: Mid, v: int, f: nat)
    requires Inv(s) && a in s.maps && s.maps[a].seg in s.segs && s.segs[s.maps[a].seg].Shared? && Covers(s.maps[a], v)
    requires (s.maps[a].pd, v) !in s.pages && f !in s.used
    requires var i := v - First(s.maps[a]);
             0 <= i < |s.segs[s.maps[a].seg].frames| && s.segs[s.maps[a].seg].frames[i] == 0
    ensures var m := s.maps[a]; var frames := s.segs[m.seg].frames; var i := v - First(m);
            Inv(s.(pages := s.pages[(m.pd, v) := Page(f, a)], used := s.used + {f},
                segs := s.segs[m.seg := Shared(frames[i := f])]))
  {
    hide Inv, Covers, First;
    var m := s.maps[a];
    var k, sid, i := (m.pd, v), m.seg, v - First(m);
    FilledInv(s, sid, i, f);
    var s1 := Filled(s, sid, i, f);
    SharedFault(s1, a, v);
    assert s1.(pages := s1.pages[k := Page(f, a)])
        == s.(pages := s.pages[k := Page(f, a)], used := s.used + {f},
            segs := s.segs[sid := Shared(s.segs[sid].frames[i := f])]);
  }

  lemma SharedFault(s: State, a: Mid, v: int)
    requires Inv(s) && a in s.maps && s.maps[a].seg in s.segs && s.segs[s.maps[a].seg].Shared? && Covers(s.maps[a], v)
    requires (s.maps[a].pd, v) !in s.pages
    requires var i := v - First(s.maps[a]);
             0 <= i < |s.segs[s.maps[a].seg].frames| && s.segs[s.maps[a].seg].frames[i] != 0
    ensures var m := s.maps[a];
            Inv(s.(pages := s.pages[(m.pd, v) := Page(s.segs[m.seg].frames[v - First(m)], a)]))
  {
    hide NamesOk, Exact, MapsOk, CountsOk, Covers, PagesOk, Holds, First;
    var m := s.maps[a];
    var k, p := (m.pd, v), Page(s.segs[m.seg].frames[v - First(m)], a);
    var t := s.(pages := s.pages[k := p]);
    forall h, x
      ensures Holds(t, h, x) <==> Holds(s, h, x)
    {
      PageHolds(s, t, k, p, h, x);
    }
    ExactSame(s, t);
    PageAdded(s, t, k, p);
    MapsSame(s, t);
    CountsSame(s, t);
    NamesSame(s, t);
  }

  /** A fault takes at most one frame, a free one, and gives it to exactly one holder. */
  lemma FaultInv(s: State, pd: Pd, addr: int, write: bool, f: nat)
    requires Inv(s) && f !in s.used
    ensures Inv(Fault(s, pd, addr, write, f))
  {
    if pd in s.mapped {
      ListedMaps(s, pd);
      HitCovers(s, s.mapped[pd], addr);
      var a := Hit(s, s.mapped[pd], addr);
      if a.Some? {
        MapHasSeg(s, a.value);
        HandleFaultInv(s, a.value, addr, write, f);
      }
    }
  }

  lemma ListedMaps(s: State, pd: Pd)
    requires Inv(s) && pd in s.mapped
    ensures forall a :: a in s.mapped[pd] ==>
            a in s.maps && s.maps[a].pd == pd && 0 <= s.maps[a].start && s.maps[a].start % PAGE == 0
  {
    hide NamesOk, Exact, PagesOk, CountsOk, NoTwice, Apart;
  }

  lemma HandleFaultInv(s: State, a: Mid, addr: int, write: bool, f: nat)
    requires Inv(s) && a in s.maps && s.maps[a].seg in s.segs && Covers(s.maps[a], addr / PAGE) && f !in s.used
    ensures Inv(HandleFault(s, a, addr, write, f))
  {
    hide Inv, Covers;
    var m, v := s.maps[a], addr / PAGE;
    if (m.pd, v) !in s.pages {
      match s.segs[m.seg]
      case Simple(_, _, _) => SimpleFault(s, a, v, f);
      case Shared(frames) =>
        var i := v - First(m);
        if 0 <= i < |frames| {
          if frames[i] != 0 {
            SharedFault(s, a, v);
          } else {
            TableFault(s, a, v, f);
          }
        }
    }
  }

  // ---------------------------------------------------------------- resizing

  lemma LengthSet(s: State, a: Mid, n: int)
    requires Inv(s) && a in s.maps && s.maps[a].seg in s.segs && s.segs[s.maps[a].seg].Simple? && 0 <= n
    requires forall k :: k in s.pages && s.pages[k].via == a ==> Covers(s.maps[a].(len := n), k.1)
    requires forall b :: b in s.maps && b != a ==> Apart(s.maps[a].(len := n), s.maps[b])
    ensures Inv(s.(maps := s.maps[a := s.maps[a].(len := n)],
            segs := s.segs[s.maps[a].seg := s.segs[s.maps[a].seg].(len := n)]))
  {
    hide NamesOk, Exact, CountsOk;
    var m := s.maps[a];
    var t := s.(maps := s.maps[a := m.(len := n)], segs := s.segs[m.seg := s.segs[m.seg].(len := n)]);
    LengthPages(s, t, a, n);
    LengthMaps(s, t, a, n);
    LengthHolds(s, t, a, n);
    ExactSame(s, t);
    CountsSame(s, t);
    NamesSame(s, t);
  }

  lemma LengthHolds(s: State, t: State, a: Mid, n: int)
    requires a in s.maps && s.maps[a].seg in s.segs && s.segs[s.maps[a].seg].Simple?
    requires t ==
             s.(maps := s.maps[a := s.maps[a].(len := n)],
             segs := s.segs[s.maps[a].seg := s.segs[s.maps[a].seg].(len := n)])
    ensures forall h, f :: Holds(t, h, f) <==> Holds(s, h, f)
  {
    forall k
      ensures Private(t, k) <==> Private(s, k)
    {
    }
  }

  lemma LengthPages(s: State, t: State, a: Mid, n: int)
    requires PagesOk(s) && a in s.maps && s.maps[a].seg in s.segs && s.segs[s.maps[a].seg].Simple?
    requires t ==
             s.(maps := s.maps[a := s.maps[a].(len := n)],
             segs := s.segs[s.maps[a].seg := s.segs[s.maps[a].seg].(len := n)])
    requires forall k :: k in s.pages && s.pages[k].via == a ==> Covers(s.maps[a].(len := n), k.1)
    ensures PagesOk(t)
  {
    hide Pages;
  }

  lemma LengthMaps(s: State, t: State, a: Mid, n: int)
    requires MapsOk(s) && a in s.maps && s.maps[a].seg in s.segs && s.segs[s.maps[a].seg].Simple? && 0 <= n
    requires t ==
             s.(maps := s.maps[a := s.maps[a].(len := n)],
             segs := s.segs[s.maps[a].seg := s.segs[s.maps[a].seg].(len := n)])
    requires forall b :: b in s.maps && b != a ==> Apart(s.maps[a].(len := n), s.maps[b])
    ensures MapsOk(t)
  {
    hide NoTwice, Apart;
    forall b, c | b in t.maps && c in t.maps && b != c
      ensures Apart(t.maps[b], t.maps[c])
    {
      ApartSymmetric(t.maps[b], t.maps[c]);
    }
  }

  lemma ResizeInv(s: State, a: Mid, len: int)
    requires Inv(s) && MayResize(s, a, len)
    ensures Inv(Resize(s, a, len))
  {
    hide Inv, RoundUp, Apart, Cleared, Shown;
    var m, n := s.maps[a], RoundUp(len);
    if s.segs[m.seg].Simple? && n < m.len {
      var lo, hi := First(m) + n / PAGE, First(m) + Pages(m.len);
      var s1 := s.(pages := Cleared(s.pages, m.pd, lo, hi), used := s.used - Shown(s.pages, m.pd, lo, hi));
      CutInv(s, s1, a, n);
      LengthSet(s1, a, n);
    } else if s.segs[m.seg].Simple? && n > m.len {
      GrownPages(s, a, n);
      LengthSet(s, a, n);
    }
  }

  /** The pages beyond a smaller length freed. */
  lemma CutInv(s: State, s1: State, a: Mid, n: int)
    requires Inv(s) && a in s.maps && s.maps[a].seg in s.segs && s.segs[s.maps[a].seg].Simple? && 0 <= n < s.maps[a].len
    requires n % PAGE == 0
    requires var m := s.maps[a];
             var lo, hi := First(m) + n / PAGE, First(m) + Pages(m.len);
             s1 == s.(pages := Cleared(s.pages, m.pd, lo, hi), used := s.used - Shown(s.pages, m.pd, lo, hi))
    ensures Inv(s1) && forall k :: k in s1.pages && s1.pages[k].via == a ==> Covers(s.maps[a].(len := n), k.1)
  {
    hide NamesOk, Exact, MapsOk, CountsOk, PagesOk, Covers, Cleared, Shown;
    var m := s.maps[a];
    var lo, hi := First(m) + n / PAGE, First(m) + Pages(m.len);
    FreePages(s, a, lo, hi);
    MapsSame(s, s1);
    CountsSame(s, s1);
    NamesSame(s, s1);
    KeptPages(s, s1, a, n, lo, hi);
  }

  lemma KeptPages(s: State, s1: State, a: Mid, n: int, lo: int, hi: int)
    requires PagesOk(s) && a in s.maps && 0 <= n && n % PAGE == 0 && n < s.maps[a].len
    requires lo == First(s.maps[a]) + n / PAGE && hi == First(s.maps[a]) + Pages(s.maps[a].len)
    requires s1.pages == Cleared(s.pages, s.maps[a].pd, lo, hi)
    ensures forall k :: k in s1.pages && s1.pages[k].via == a ==> Covers(s.maps[a].(len := n), k.1)
  {
    assert Pages(n) == n / PAGE;
    forall k | k in s1.pages && s1.pages[k].via == a
      ensures Covers(s.maps[a].(len := n), k.1)
    {
      assert k in s.pages && !InRange(k, s.maps[a].pd, lo, hi);
    }
  }

  lemma GrownPages(s: State, a: Mid, n: int)
    requires Inv(s) && a in s.maps && n > s.maps[a].len
    ensures forall k :: k in s.pages && s.pages[k].via == a ==> Covers(s.maps[a].(len := n), k.1)
  {
    hide NamesOk, Exact, MapsOk, CountsOk;
    assert Pages(n) >= Pages(s.maps[a].len);
  }

  // ---------------------------------------------------------------- new segments

  /** A new segment is a simple one, or a shared one with an empty table. */
  predicate Blank(seg: Segment) { seg.Simple? || forall i :: 0 <= i < |seg.frames| ==> seg.frames[i] == 0 }

  lemma MakeInv(s: State, sid: Sid, seg: Segment)
    requires Inv(s) && sid !in s.segs && Blank(seg)
    ensures Inv(Make(s, sid, seg))
  {
    hide NamesOk, Exact, MapsOk, CountsOk, PagesOk, Holds, Blank;
    var t := Make(s, sid, seg);
    MakePages(s, sid, seg);
    MakeMaps(s, sid, seg);
    MakeCounts(s, sid, seg);
    NamesSame(s, t);
    forall h, f
      ensures Holds(t, h, f) <==> Holds(s, h, f)
    {
      MakeHolds(s, sid, seg, h, f);
    }
    ExactSame(s, t);
  }

  lemma MakeHolds(s: State, sid: Sid, seg: Segment, h: Holder, f: nat)
    requires PagesOk(s) && sid !in s.segs && Blank(seg)
    ensures Holds(Make(s, sid, seg), h, f) <==> Holds(s, h, f)
  {
    var t := Make(s, sid, seg);
    if h.OfPage? && h.k in s.pages {
      assert PageOk(s, h.k);
      assert Private(t, h.k) <==> Private(s, h.k);
    }
  }

  lemma MakePages(s: State, sid: Sid, seg: Segment)
    requires PagesOk(s) && sid !in s.segs
    ensures PagesOk(Make(s, sid, seg))
  {
    hide Covers, First;
    var t := Make(s, sid, seg);
    forall q | q in t.pages
      ensures PageOk(t, q)
    {
      assert PageOk(s, q);
    }
  }

  lemma MakeMaps(s: State, sid: Sid, seg: Segment)
    requires MapsOk(s) && sid !in s.segs
    ensures MapsOk(Make(s, sid, seg)) && forall a :: a in s.maps ==> s.maps[a].seg != sid
  {
    hide NoTwice, Apart, Pages;
  }

  lemma MakeCounts(s: State, sid: Sid, seg: Segment)
    requires CountsOk(s) && sid !in s.segs && forall a :: a in s.maps ==> s.maps[a].seg != sid
    ensures CountsOk(Make(s, sid, seg))
  {
    var t := Make(s, sid, seg);
    forall q | q in t.segs
      ensures t.mappings[q] == |MapsOf(t, q)| + Inflight(t, q) + Abandoned(t, q)
    {
      assert MapsOf(t, q) == MapsOf(s, q);
      assert q == sid ==> MapsOf(s, q) == {};
    }
  }
}
