/** What every run of the segment and paging operations keeps, and what each operation changes. */
module FrameTheorems {
  import opened Common
  import opened FrameModel
  import opened FrameInv
  import opened FrameRequests
  import opened FrameRuns
  import opened Lists

  // ---------------------------------------------------------------- what holds after every run

  ghost function PrivateFrames(s: State): set<nat> { set k | k in s.pages && Private(s, k) :: s.pages[k].frame }

  ghost function TableFrames(s: State): set<nat>
  {
    set sid, i | sid in s.segs && s.segs[sid].Shared? && 0 <= i < |s.segs[sid].frames| &&
        s.segs[sid].frames[i] != 0 :: s.segs[sid].frames[i]
  }

  /** The frames in use are exactly the kernel's, those of private pages and those of shared tables, all apart. */
  lemma FramesExact(s: State)
    requires Good(s)
    ensures s.used == s.kernel + PrivateFrames(s) + TableFrames(s)
    ensures s.kernel !! PrivateFrames(s) && s.kernel !! TableFrames(s) && PrivateFrames(s) !! TableFrames(s)
    ensures 0 !in PrivateFrames(s) + TableFrames(s)
  {
    hide NamesOk, MapsOk, CountsOk, Covers;
    forall f
      ensures f in PrivateFrames(s) <==> exists k :: Holds(s, OfPage(k), f)
    {
      if f in PrivateFrames(s) {
        var k :| k in s.pages && Private(s, k) && s.pages[k].frame == f;
        assert PageOk(s, k);
        assert Holds(s, OfPage(k), f);
      }
    }
    forall f
      ensures f in TableFrames(s) <==> exists sid, i :: Holds(s, OfTable(sid, i), f)
    {
      TableFrame(s, f);
    }
    hide PrivateFrames, TableFrames, PagesOk;
    FramesSplit(s);
  }

  lemma TableFrame(s: State, f: nat)
    ensures f in TableFrames(s) <==> exists sid, i :: Holds(s, OfTable(sid, i), f)
  {
    if f in TableFrames(s) {
      var sid, i :| sid in s.segs && s.segs[sid].Shared? && 0 <= i < |s.segs[sid].frames| &&
          s.segs[sid].frames[i] != 0 && s.segs[sid].frames[i] == f;
      assert Holds(s, OfTable(sid, i), f);
    }
  }

  lemma FramesSplit(s: State)
    requires Exact(s)
    requires forall f :: f in PrivateFrames(s) <==> exists k :: Holds(s, OfPage(k), f)
    requires forall f :: f in TableFrames(s) <==> exists sid, i :: Holds(s, OfTable(sid, i), f)
    ensures s.used == s.kernel + PrivateFrames(s) + TableFrames(s)
    ensures s.kernel !! PrivateFrames(s) && s.kernel !! TableFrames(s) && PrivateFrames(s) !! TableFrames(s)
    ensures 0 !in PrivateFrames(s) + TableFrames(s)
  {
    hide Holds, PrivateFrames, TableFrames;
    forall f | f in s.used && f !in s.kernel
      ensures f in PrivateFrames(s) + TableFrames(s)
    {
      var h :| Holds(s, h, f);
      match h
      case OfPage(k) =>
      case OfTable(sid, i) =>
    }
  }

  /** The segment of a page and the page's place in it. */
  ghost function SegOf(s: State, k: (Pd, int)): Sid
    requires PagesOk(s) && k in s.pages
  {
    assert PageOk(s, k);
    s.maps[s.pages[k].via].seg
  }

  ghost function Place(s: State, k: (Pd, int)): int
    requires PagesOk(s) && k in s.pages
  {
    assert PageOk(s, k);
    k.1 - First(s.maps[s.pages[k].via])
  }

  /** The holder of the frame that a page shows. */
  lemma PageHolder(s: State, k: (Pd, int)) returns (h: Holder)
    requires PagesOk(s) && k in s.pages
    ensures Holds(s, h, s.pages[k].frame) && SegOf(s, k) in s.segs
    ensures h == if s.segs[SegOf(s, k)].Simple? then OfPage(k) else OfTable(SegOf(s, k), Place(s, k))
  {
    assert PageOk(s, k);
    if s.segs[SegOf(s, k)].Simple? {
      h := OfPage(k);
    } else {
      h := OfTable(SegOf(s, k), Place(s, k));
    }
  }

  /** No page shows a free frame or one of the kernel's. */
  lemma NoPageOnFreeFrame(s: State, k: (Pd, int))
    requires Good(s) && k in s.pages
    ensures s.pages[k].frame in s.used && s.pages[k].frame !in s.kernel
  {
    hide NamesOk, MapsOk, CountsOk, Holds;
    var h := PageHolder(s, k);
  }

  /** Two pages show the same frame exactly when they are the same place of the same shared segment. */
  lemma SameFrame(s: State, j: (Pd, int), k: (Pd, int))
    requires Good(s) && j in s.pages && k in s.pages
    ensures PagesOk(s) && SegOf(s, j) in s.segs
    ensures s.pages[j].frame == s.pages[k].frame <==>
              j == k || (s.segs[SegOf(s, j)].Shared? && SegOf(s, j) == SegOf(s, k) && Place(s, j) == Place(s, k))
  {
    hide NamesOk, MapsOk, CountsOk, Covers, Holds, PagesOk;
    var g := PageHolder(s, j);
    var h := PageHolder(s, k);
    hide SegOf, Place;
    if s.segs[SegOf(s, j)].Shared? && SegOf(s, j) == SegOf(s, k) && Place(s, j) == Place(s, k) {
      TableOne(s, h, s.pages[j].frame, s.pages[k].frame);
    }
  }

  lemma TableOne(s: State, h: Holder, f: nat, g: nat)
    requires Holds(s, h, f) && Holds(s, h, g)
    ensures f == g
  {
  }

  /** With no map left and no reference in a request, every frame but the kernel's is free again. */
  lemma NothingMapped(s: State)
    requires Good(s) && s.maps == map[] && forall sid :: Open(s.requests, sid) == {} && Open(s.answered, sid) == {}
    ensures s.segs == map[] && s.pages == map[] && s.used == s.kernel
  {
    NoSegments(s);
    NoPages(s);
    FramesExact(s);
    assert PrivateFrames(s) == {} && TableFrames(s) == {};
  }

  lemma NoSegments(s: State)
    requires Good(s) && s.maps == map[] && forall sid :: Open(s.requests, sid) == {} && Open(s.answered, sid) == {}
    ensures s.segs == map[]
  {
    hide NamesOk, Exact, PagesOk, MapsOk;
    assert forall sid :: MapsOf(s, sid) == {};
    assert forall sid :: sid !in s.segs;
  }

  lemma NoPages(s: State)
    requires Good(s) && s.maps == map[]
    ensures s.pages == map[]
  {
    hide NamesOk, Exact, CountsOk, MapsOk;
    assert forall k :: k !in s.pages;
  }

  /** What a step may change about maps, segments and answered requests. */
  lemma StepKeeps(s: State, op: Op)
    requires Good(s) && WellTyped(s) && Enabled(s, op)
    ensures var t := Step(s, op);
            && (forall a :: a in s.maps && a in t.maps ==> t.maps[a].seg == s.maps[a].seg)
            && (forall r :: r in s.answered ==> r in t.answered && t.answered[r] == s.answered[r])
            && (op.UnmapSegment? || op.DropDir? || op.AnswerRequest? || s.segs.Keys <= t.segs.Keys)
            && (op.UnmapSegment? || op.DropDir? ==> SameRequests(s, t))
  {
    hide Good, MayMap, MayResize, Unmap, Fault, Resize, Emptied, Post, MapParam, Answer, Get, Blank, MayMapParam,
        NewMap;
    match op
    case NewSegment(sid, seg, a, pd, offset) => NewMapId(Make(s, sid, seg), sid, a, pd, offset);
    case MapSegment(sid, a, pd, offset) => NewMapId(s, sid, a, pd, offset);
    case UnmapSegment(a) => UnmapMapped(s, a);
    case PageFault(pd, addr, write, f) => FaultKeeps(s, pd, addr, write, f);
    case ResizeSegment(a, len) =>
      ResizeTyped(s, a, len);
      ResizeKeeps(s, a, len);
    case DropDir(pd) =>
      EmptiedKeeps(s, pd);
      EmptiedMaps(s, pd);
    case GetRequest(r) => GetKeeps(s, r);
    case PostRequest(_, _, _, _, _) => RequestKeeps(s, op);
    case MapParameter(_, _, _, _) => RequestKeeps(s, op);
    case AnswerRequest(_) => RequestKeeps(s, op);
    case _ =>
  }

  lemma ResizeTyped(s: State, a: Mid, len: int)
    requires MayResize(s, a, len)
    ensures a in s.maps && s.maps[a].seg in s.segs && 0 <= len
  {
  }

  lemma RequestKeeps(s: State, op: Op)
    requires Good(s) && WellTyped(s) && Enabled(s, op) && (op.PostRequest? || op.MapParameter? || op.AnswerRequest?)
    ensures var t := Step(s, op);
            && (forall a :: a in s.maps && a in t.maps ==> t.maps[a].seg == s.maps[a].seg)
            && (forall r :: r in s.answered ==> r in t.answered && t.answered[r] == s.answered[r])
            && (op.AnswerRequest? || s.segs.Keys <= t.segs.Keys)
  {
    hide Good, MayMap, Post, MapParam, Answer, MayMapParam;
    match op
    case PostRequest(r, from, to, blocking, found) => PostGood(s, r, from, to, blocking, found);
    case MapParameter(r, i, a, pos) =>
      if Mappable(s, r, i) {
        ReachableOf(s, r, i, a, pos);
      }
      MapParamKeeps(s, r, i, a, pos);
    case AnswerRequest(r) => AnswerKeeps(s, r);
    case _ =>
  }

  lemma NewMapId(s: State, sid: Sid, a: Mid, pd: Pd, offset: int)
    requires MayMap(s, sid, a, pd, offset)
    ensures a !in s.maps
  {
  }

  lemma MapParamKeeps(s: State, r: Rid, i: nat, a: Mid, pos: int)
    requires Mappable(s, r, i) ==> Reachable(s, r, i) && MayMapParam(s, r, i, a, pos)
    ensures var t := MapParam(s, r, i, a, pos);
            && t.segs == s.segs && t.answered == s.answered && t.kernel == s.kernel
            && s.maps.Keys <= t.maps.Keys && forall b :: b in s.maps ==> t.maps[b] == s.maps[b]
  {
    hide HasOpen, MayMap;
    if Mappable(s, r, i) && s.requests[r].params[i].sndr in s.maps {
      NewMapId(s, s.requests[r].params[i].seg, a, s.requests[r].to, pos);
    }
  }

  lemma AnswerKeeps(s: State, r: Rid)
    requires Good(s)
    ensures var t := Answer(s, r);
            && (forall a :: a in t.maps ==> a in s.maps && t.maps[a] == s.maps[a])
            && forall q :: q in s.answered ==> q in t.answered && t.answered[q] == s.answered[q]
  {
    hide UnmapRcv, Exact, PagesOk, MapsOk, CountsOk;
    if r in s.requests {
      UnmapRcvInv(s, s.requests[r].params);
    }
  }

  /**
   A segment is deleted only by an unmapping, the deletion of a directory or an answer, with all its maps in that very
   step, and when no request under way carries it unmapped and none was answered without mapping it.
   */
  lemma DeletedOnlyUnused(s: State, op: Op, sid: Sid)
    requires Good(s) && WellTyped(s) && Enabled(s, op) && sid in s.segs && sid !in Step(s, op).segs
    ensures op.UnmapSegment? || op.DropDir? || op.AnswerRequest?
    ensures forall a :: a in MapsOf(s, sid) ==> a !in Step(s, op).maps
    ensures Open(s.requests, sid) == {} && Open(s.answered, sid) == {}
  {
    StepGood(s, op);
    StepKeeps(s, op);
    var t := Step(s, op);
    hide Good, Step, Enabled, Open;
    GoodTyped(t);
    assert forall a :: a in t.maps ==> t.maps[a].seg in t.segs;
    if op.AnswerRequest? {
      AnswerMoves(s, op, sid);
    }
  }

  lemma GoodTyped(t: State)
    requires Good(t)
    ensures WellTyped(t) && forall sid :: sid !in t.segs ==> Open(t.requests, sid) == {} && Open(t.answered, sid) == {}
  {
    hide Inv, Open;
    Typed(t);
  }

  lemma AnswerMoves(s: State, op: Op, sid: Sid)
    requires Good(s) && WellTyped(s) && op.AnswerRequest? && Enabled(s, op)
    requires Open(Step(s, op).requests, sid) == {} && Open(Step(s, op).answered, sid) == {}
    ensures Open(s.requests, sid) == {} && Open(s.answered, sid) == {}
  {
    hide UnmapRcv, Exact, PagesOk, MapsOk, CountsOk, Open;
    var r := op.r;
    if r in s.requests && s.requests[r].processed && s.requests[r].blocking {
      UnmapRcvInv(s, s.requests[r].params);
      OpenOfMoved(s, r, sid);
    }
  }

  /** Maps of other directories stay, and no map changes. */
  lemma {:induction false} EmptiedMaps(s: State, pd: Pd)
    ensures forall b :: b in s.maps && s.maps[b].pd != pd ==> b in Emptied(s, pd).maps
    ensures forall b :: b in Emptied(s, pd).maps ==> b in s.maps && Emptied(s, pd).maps[b] == s.maps[b]
    decreases if pd in s.mapped then |s.mapped[pd]| else 0
  {
    if pd in s.mapped && s.mapped[pd] != [] {
      var a := s.mapped[pd][0];
      if a in s.maps && s.maps[a].pd == pd && s.maps[a].seg in s.mappings && s.maps[a].seg in s.segs {
        UnmapMapped(s, a);
        hide Unmap;
        EmptiedMaps(Unmap(s, a), pd);
      }
    }
  }

  /** A parameter left unmapped by an answer is never given back: its segment then outlives every run. */
  lemma {:induction false} LeftBehindForever(s: State, ops: seq<Op>, t: State, r: Rid, i: nat, sid: Sid)
    requires Good(s) && Runs(s, ops, t) && r in s.answered && OpenAt(s.answered[r], sid, i)
    ensures Good(t) && sid in t.segs && r in t.answered && t.answered[r] == s.answered[r]
    decreases |ops|
  {
    GoodTyped(s);
    OpenIn(s.answered, sid, r, i);
    if ops != [] {
      StepGood(s, ops[0]);
      StepKeeps(s, ops[0]);
      hide Good, WellTyped, Enabled, Step;
      LeftBehindForever(Step(s, ops[0]), ops[1..], t, r, i, sid);
    }
  }

  // ---------------------------------------------------------------- what the operations change

  /** The map that would answer a fault, if the access is allowed. */
  ghost predicate Answers(s: State, a: Mid, addr: int, write: bool)
  {
    && a in s.maps && s.maps[a].start <= addr < s.maps[a].start + s.maps[a].len && s.maps[a].seg in s.segs
    && (s.segs[s.maps[a].seg].Simple? && write ==> s.segs[s.maps[a].seg].writable)
  }

  /**
   After a fault the page is present exactly if it was before or a map of the directory answers; no other page changes.
   */
  lemma FaultEffect(s: State, pd: Pd, addr: int, write: bool, f: nat)
    requires Good(s) && pd in s.mapped && f !in s.used
    ensures var k, t := (pd, addr / PAGE), Fault(s, pd, addr, write, f);
            && t.pages - {k} == s.pages - {k} && (k in s.pages ==> t == s)
            && (k in t.pages <==> k in s.pages || exists a :: a in s.mapped[pd] && Answers(s, a, addr, write))
  {
    hide NamesOk, Exact, PagesOk, CountsOk, NoTwice, HandleFault;
    var k := (pd, addr / PAGE);
    ListedMaps(s, pd);
    HitCovers(s, s.mapped[pd], addr);
    HitContains(s, s.mapped[pd], addr);
    var hit := Hit(s, s.mapped[pd], addr);
    if hit.Some? {
      Typed(s);
      var a := hit.value;
      CoveredFits(s, a, addr);
      HandleEffect(s, a, addr, write, f);
      forall b | b in s.mapped[pd] && Answers(s, b, addr, write)
        ensures b == a
      {
        assert b != a ==> Apart(s.maps[a], s.maps[b]);
      }
    }
  }

  lemma {:induction false} HitContains(s: State, l: seq<Mid>, addr: int)
    ensures var h := Hit(s, l, addr);
            h.Some? ==>
                h.value in l && h.value in s.maps &&
                s.maps[h.value].start <= addr < s.maps[h.value].start + s.maps[h.value].len
  {
    if l != [] {
      assert l == [l[0]] + l[1..];
      HitContains(s, l[1..], addr);
    }
  }

  lemma CoveredFits(s: State, a: Mid, addr: int)
    requires Inv(s) && a in s.maps && s.maps[a].seg in s.segs && Covers(s.maps[a], addr / PAGE)
    ensures s.segs[s.maps[a].seg].Shared? ==> 0 <= addr / PAGE - First(s.maps[a]) < |s.segs[s.maps[a].seg].frames|
  {
    hide NamesOk, Exact, PagesOk, CountsOk, NoTwice, Apart;
  }

  lemma HandleEffect(s: State, a: Mid, addr: int, write: bool, f: nat)
    requires a in s.maps && s.maps[a].seg in s.segs
    requires s.segs[s.maps[a].seg].Shared? ==> 0 <= addr / PAGE - First(s.maps[a]) < |s.segs[s.maps[a].seg].frames|
    ensures var k, t := (s.maps[a].pd, addr / PAGE), HandleFault(s, a, addr, write, f);
            && t.pages - {k} == s.pages - {k} && (k in s.pages ==> t == s)
            && (k in t.pages <==>
                k in s.pages || (s.segs[s.maps[a].seg].Simple? && write ==> s.segs[s.maps[a].seg].writable))
  {
    hide First;
    var k, t := (s.maps[a].pd, addr / PAGE), HandleFault(s, a, addr, write, f);
    assert t.pages == s.pages || (k !in s.pages && k in t.pages && t.pages == s.pages[k := t.pages[k]]);
  }

  /** Unmapping removes exactly the pages of that map, and its segment exactly when nothing else refers to it. */
  lemma UnmapEffect(s: State, a: Mid)
    requires Good(s) && a in s.maps && s.maps[a].pd in s.mapped && s.maps[a].seg in s.mappings
    requires s.maps[a].seg in s.segs
    ensures var t, sid := Unmap(s, a), s.maps[a].seg;
            && t.pages == (map k | k in s.pages && s.pages[k].via != a :: s.pages[k])
            && t.maps == s.maps - {a}
            && t.segs ==
                (if MapsOf(s, sid) == {a} && Open(s.requests, sid) == {} && Open(s.answered, sid) == {}
                then s.segs - {sid} else s.segs)
  {
    hide NamesOk, Exact, NoTwice, Apart, Covers, MapsOk, PagesOk, CountsOk;
    UnmapMapped(s, a);
    forall k | k in s.pages
      ensures k in UnmapPages(s, a).pages <==> s.pages[k].via != a
    {
      RangeIsOwn(s, a, k);
      NotCovered(s.maps[a], k);
    }
    LastCount(s, a);
  }

  lemma LastCount(s: State, a: Mid)
    requires CountsOk(s) && a in s.maps && s.maps[a].seg in s.segs
    ensures s.mappings[s.maps[a].seg] == 1 <==>
              MapsOf(s, s.maps[a].seg) == {a} && Open(s.requests, s.maps[a].seg) == {} &&
                  Open(s.answered, s.maps[a].seg) == {}
  {
    var sid := s.maps[a].seg;
    assert a in MapsOf(s, sid);
    assert MapsOf(s, sid) == (MapsOf(s, sid) - {a}) + {a};
    assert |MapsOf(s, sid)| == |MapsOf(s, sid) - {a}| + 1;
  }

  /** A new length is that of the segment as well; no other segment changes, and a shared one is not resized. */
  lemma ResizeSegments(s: State, a: Mid, len: int)
    requires Good(s) && MayResize(s, a, len)
    ensures var t, sid, n := Resize(s, a, len), s.maps[a].seg, RoundUp(len);
            && (s.segs[sid].Shared? || n == s.maps[a].len ==> t == s)
            && (s.segs[sid].Simple? && n != s.maps[a].len ==> t.segs == s.segs[sid := s.segs[sid].(len := n)])
  {
    hide Good, Cleared, Shown;
  }

  /** Resizing a simple map sets its length to whole pages and removes exactly its pages beyond it. */
  lemma ResizeEffect(s: State, a: Mid, len: int)
    requires Good(s) && MayResize(s, a, len) && s.segs[s.maps[a].seg].Simple?
    ensures var t, m := Resize(s, a, len), s.maps[a].(len := RoundUp(len));
            && t.maps == s.maps[a := m] && t.segs.Keys == s.segs.Keys
            && t.pages == (map k | k in s.pages && (s.pages[k].via == a ==> Covers(m, k.1)) :: s.pages[k])
  {
    hide NamesOk, Exact, NoTwice, Apart, MapsOk, PagesOk, CountsOk;
    var m, n := s.maps[a], RoundUp(len);
    assert Pages(n) == n / PAGE;
    forall k | k in s.pages
      ensures k in Resize(s, a, len).pages <==> (s.pages[k].via == a ==> Covers(m.(len := n), k.1))
    {
      RangeIsOwn(s, a, k);
    }
  }

  /** The frames over a whole run from boot. */
  lemma EveryRun(s: State, ops: seq<Op>, t: State)
    requires Boot(s)
    ensures Good(s)
    ensures Runs(s, ops, t) ==>
              && Good(t)
              && t.used == t.kernel + PrivateFrames(t) + TableFrames(t)
              && t.kernel !! PrivateFrames(t) && t.kernel !! TableFrames(t) && PrivateFrames(t) !! TableFrames(t)
  {
    BootGood(s);
    if Runs(s, ops, t) {
      RunGood(s, ops, t);
      FramesExact(t);
    }
  }
}
