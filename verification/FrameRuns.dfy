/** Runs of the segment and paging operations, and what holds after every one of them. */
module FrameRuns {
  import opened Common
  import opened FrameModel
  import opened FrameInv
  import opened FrameRequests
  import opened Lists

  // ---------------------------------------------------------------- deleting a page directory

  /** The loop of `pagedir_delete`: the newest map is taken out until none is left. */
  function Emptied(s: State, pd: Pd): State
    decreases if pd in s.mapped then |s.mapped[pd]| else 0
  {
    if pd !in s.mapped || s.mapped[pd] == [] then s
    else
      var a := s.mapped[pd][0];
      if a in s.maps && s.maps[a].pd == pd && s.maps[a].seg in s.mappings && s.maps[a].seg in s.segs
      then Emptied(Unmap(s, a), pd)
      else s
  }

  function DeleteDir(s: State, pd: Pd): State
  {
    var t := Emptied(s, pd);
    t.(mapped := t.mapped - {pd})
  }

  // ---------------------------------------------------------------- steps

  datatype Op =
    | NewDir(pd: Pd)
    | NewSegment(sid: Sid, seg: Segment, a: Mid, pd: Pd, offset: int)
    | MapSegment(sid: Sid, a: Mid, pd: Pd, offset: int)
    | UnmapSegment(a: Mid)
    | PageFault(pd: Pd, addr: int, write: bool, f: nat)
    | ResizeSegment(a: Mid, len: int)
    | PostRequest(r: Rid, from: Pd, to: Pd, blocking: bool, found: seq<Option<Mid>>)
    | GetRequest(r: Rid)
    | MapParameter(r: Rid, i: nat, a: Mid, pos: int)
    | AnswerRequest(r: Rid)
    | DropDir(pd: Pd)
    | KernelTakes(f: nat)
    | KernelGives(f: nat)

  ghost predicate MayMapParam(s: State, r: Rid, i: nat, a: Mid, pos: int)
    requires Mappable(s, r, i)
  {
    var p := s.requests[r].params[i];
    s.requests[r].to in s.mapped && p.rcv.None? && (p.sndr in s.maps ==> MayMap(s, p.seg, a, s.requests[r].to, pos))
  }

  /**
   Ranges are aligned and apart, a fault finds a free frame, identifiers of new things are new, what a request is sent
   with is the sender's, and no parameter is mapped twice.
   */
  ghost predicate Enabled(s: State, op: Op)
  {
    match op
    case NewDir(pd) => pd !in s.mapped
    case NewSegment(sid, seg, a, pd, offset) => sid !in s.segs && Blank(seg) &&
        MayMap(Make(s, sid, seg), sid, a, pd, offset)
    case MapSegment(sid, a, pd, offset) => MayMap(s, sid, a, pd, offset)
    case UnmapSegment(a) => a in s.maps
    case PageFault(_, _, _, f) => f !in s.used
    case ResizeSegment(a, len) => MayResize(s, a, len)
    case PostRequest(r, from, _, _, found) =>
      && r !in s.requests && r !in s.answered
      && forall i :: 0 <= i < |found| && found[i].Some? ==>
          found[i].value in s.maps && s.maps[found[i].value].pd == from
    case GetRequest(_) => true
    case MapParameter(r, i, a, pos) => Mappable(s, r, i) ==> MayMapParam(s, r, i, a, pos)
    case AnswerRequest(_) => true
    case DropDir(pd) => pd in s.mapped
    case KernelTakes(f) => f !in s.used
    case KernelGives(f) => f in s.kernel && f != 0
  }

  /** Every segment was mapped when it was made and is deleted with its last reference. */
  ghost predicate Rooted(s: State) { forall sid :: sid in s.segs ==> sid in s.mappings && s.mappings[sid] > 0 }

  ghost predicate Good(s: State) { Inv(s) && Rooted(s) }

  /** No map names a directory or a segment that is not there. */
  ghost predicate WellTyped(s: State)
  {
    && s.mappings.Keys == s.segs.Keys
    && (forall a :: a in s.maps ==> s.maps[a].pd in s.mapped && s.maps[a].seg in s.mappings && s.maps[a].seg in s.segs)
  }

  lemma Typed(s: State)
    requires Inv(s)
    ensures WellTyped(s)
    ensures forall sid :: sid !in s.segs ==> Open(s.requests, sid) == {} && Open(s.answered, sid) == {}
  {
    hide NamesOk, Exact, PagesOk, NoTwice, Apart, Open;
  }

  ghost function Step(s: State, op: Op): State
    requires WellTyped(s) && Enabled(s, op)
  {
    match op
    case NewDir(pd) => s.(mapped := s.mapped[pd := []])
    case NewSegment(sid, seg, a, pd, offset) => Map(Make(s, sid, seg), sid, a, pd, offset)
    case MapSegment(sid, a, pd, offset) => Map(s, sid, a, pd, offset)
    case UnmapSegment(a) => Unmap(s, a)
    case PageFault(pd, addr, write, f) => Fault(s, pd, addr, write, f)
    case ResizeSegment(a, len) => Resize(s, a, len)
    case PostRequest(r, from, to, blocking, found) => Post(s, r, from, to, blocking, found)
    case GetRequest(r) => Get(s, r)
    case MapParameter(r, i, a, pos) => MapParam(s, r, i, a, pos)
    case AnswerRequest(r) => Answer(s, r)
    case DropDir(pd) => DeleteDir(s, pd)
    case KernelTakes(f) => s.(used := s.used + {f}, kernel := s.kernel + {f})
    case KernelGives(f) => s.(used := s.used - {f}, kernel := s.kernel - {f})
  }

  // ---------------------------------------------------------------- every step keeps the invariant

  lemma RootedUnmap(s: State, a: Mid)
    requires Good(s) && a in s.maps && s.maps[a].pd in s.mapped && s.maps[a].seg in s.mappings
    requires s.maps[a].seg in s.segs
    ensures Good(Unmap(s, a))
  {
    hide Inv, Unmap;
    UnmapInv(s, a);
    Typed(s);
    UnmapRooted(s, a);
  }

  lemma UnmapRooted(s: State, a: Mid)
    requires Rooted(s) && a in s.maps && s.maps[a].pd in s.mapped && s.maps[a].seg in s.mappings
    requires s.maps[a].seg in s.segs
    ensures Rooted(Unmap(s, a))
  {
    UnmapPagesKeeps(s, a);
    hide UnmapPages;
  }

  lemma UnmapPagesKeeps(s: State, a: Mid)
    requires a in s.maps && s.maps[a].seg in s.segs
    ensures UnmapPages(s, a) == s.(pages := UnmapPages(s, a).pages, used := UnmapPages(s, a).used)
  {
  }

  /** The lists of maps agree outside directory `pd`. */
  ghost predicate SameElsewhere(s: State, t: State, pd: Pd)
  {
    forall d :: d != pd ==>
        (d in t.mapped <==> d in s.mapped) && (d in s.mapped && d in t.mapped ==> t.mapped[d] == s.mapped[d])
  }

  lemma ElsewhereTransitive(s: State, t: State, u: State, pd: Pd)
    requires SameElsewhere(s, t, pd) && SameElsewhere(t, u, pd)
    ensures SameElsewhere(s, u, pd)
  {
  }

  /** The loop ends with the directory empty of maps, every other directory as it was. */
  lemma {:induction false} EmptiedInv(s: State, pd: Pd)
    requires Good(s)
    ensures Good(Emptied(s, pd)) && SameElsewhere(s, Emptied(s, pd), pd)
    ensures pd in s.mapped ==> pd in Emptied(s, pd).mapped && Emptied(s, pd).mapped[pd] == []
    decreases if pd in s.mapped then |s.mapped[pd]| else 0
  {
    if pd in s.mapped && s.mapped[pd] != [] {
      hide Good, Unmap, SameElsewhere;
      var a := s.mapped[pd][0];
      HeadMap(s, pd);
      RootedUnmap(s, a);
      HeadUnmapped(s, pd);
      EmptiedInv(Unmap(s, a), pd);
      ElsewhereTransitive(s, Unmap(s, a), Emptied(s, pd), pd);
    }
  }

  lemma HeadUnmapped(s: State, pd: Pd)
    requires pd in s.mapped && s.mapped[pd] != []
    requires var a := s.mapped[pd][0];
             a in s.maps && s.maps[a].pd == pd && s.maps[a].seg in s.mappings && s.maps[a].seg in s.segs
    ensures var t := Unmap(s, s.mapped[pd][0]);
            pd in t.mapped && t.mapped[pd] == s.mapped[pd][1..] && SameElsewhere(s, t, pd)
  {
    hide Unmap;
    UnmapMapped(s, s.mapped[pd][0]);
  }

  lemma HeadMap(s: State, pd: Pd)
    requires Good(s) && pd in s.mapped && s.mapped[pd] != []
    ensures var a := s.mapped[pd][0];
            a in s.maps && s.maps[a].pd == pd && s.maps[a].seg in s.mappings && s.maps[a].seg in s.segs
  {
    hide Inv;
    ListedMaps(s, pd);
    Typed(s);
    assert s.mapped[pd][0] in s.mapped[pd];
  }

  lemma UnmapMapped(s: State, a: Mid)
    requires a in s.maps && s.maps[a].pd in s.mapped && s.maps[a].seg in s.mappings && s.maps[a].seg in s.segs
    ensures Unmap(s, a).mapped == s.mapped[s.maps[a].pd := Unlisted(s.mapped[s.maps[a].pd], a)]
    ensures Unmap(s, a).maps == s.maps - {a}
    ensures Unmap(s, a).kernel == s.kernel && SameRequests(s, Unmap(s, a))
  {
    UnmapPagesKeeps(s, a);
    hide UnmapPages;
  }

  lemma DropInv(s: State, pd: Pd)
    requires Good(s) && pd in s.mapped && s.mapped[pd] == []
    ensures Good(s.(mapped := s.mapped - {pd}))
  {
    DirInv(s, s.(mapped := s.mapped - {pd}));
  }

  /** Only the set of directories without maps differs. */
  lemma DirInv(s: State, t: State)
    requires Good(s) && t == s.(mapped := t.mapped)
    requires forall d :: d in s.mapped && s.mapped[d] != [] ==> d in t.mapped
    requires forall d :: d in t.mapped ==> if d in s.mapped then t.mapped[d] == s.mapped[d] else t.mapped[d] == []
    ensures Good(t)
  {
    hide NamesOk, Exact, MapsOk, CountsOk, PagesOk, Holds;
    DirMaps(s, t);
    DirPages(s, t);
    ExactSame(s, t);
    CountsSame(s, t);
    NamesSame(s, t);
  }

  lemma DirPages(s: State, t: State)
    requires PagesOk(s) && t == s.(mapped := t.mapped)
    ensures PagesOk(t) && forall h, f :: Holds(t, h, f) <==> Holds(s, h, f)
  {
    hide Covers, First;
    forall k | k in t.pages
      ensures PageOk(t, k)
    {
      assert PageOk(s, k);
    }
  }

  lemma DirMaps(s: State, t: State)
    requires Inv(s) && t == s.(mapped := t.mapped)
    requires forall d :: d in s.mapped && s.mapped[d] != [] ==> d in t.mapped
    requires forall d :: d in t.mapped ==> if d in s.mapped then t.mapped[d] == s.mapped[d] else t.mapped[d] == []
    ensures MapsOk(t)
  {
    hide NamesOk, Exact, PagesOk, CountsOk, Apart, Pages;
    forall d | d in t.mapped
      ensures NoTwice(t.mapped[d])
    {
      assert d in s.mapped ==> NoTwice(s.mapped[d]);
    }
  }

  predicate SameRequests(s: State, t: State) { t.requests == s.requests && t.answered == s.answered &&
      t.fault == s.fault }

  lemma FaultKeeps(s: State, pd: Pd, addr: int, write: bool, f: nat)
    ensures var t := Fault(s, pd, addr, write, f);
            && t.kernel == s.kernel && t.segs.Keys == s.segs.Keys && t.mappings == s.mappings && t.maps == s.maps
            && SameRequests(s, t)
  {
    hide Hit, HandleFault;
    if pd in s.mapped {
      var a := Hit(s, s.mapped[pd], addr);
      if a.Some? && a.value in s.maps && s.maps[a.value].seg in s.segs {
        HandleKeeps(s, a.value, addr, write, f);
      }
    }
  }

  lemma HandleKeeps(s: State, a: Mid, addr: int, write: bool, f: nat)
    requires a in s.maps && s.maps[a].seg in s.segs
    ensures var t := HandleFault(s, a, addr, write, f);
            && t.kernel == s.kernel && t.segs.Keys == s.segs.Keys && t.mappings == s.mappings && t.maps == s.maps
            && SameRequests(s, t)
  {
    hide HandleFault;
  }

  lemma ResizeKeeps(s: State, a: Mid, len: int)
    requires a in s.maps && s.maps[a].seg in s.segs && 0 <= len
    ensures var t := Resize(s, a, len);
            && t.kernel == s.kernel && t.segs.Keys == s.segs.Keys && t.mappings == s.mappings &&
                t.maps.Keys == s.maps.Keys
            && (forall b :: b in s.maps ==> t.maps[b].seg == s.maps[b].seg) && SameRequests(s, t)
  {
    hide Resize;
  }

  lemma ResizeGood(s: State, a: Mid, len: int)
    requires Good(s) && MayResize(s, a, len)
    ensures Good(Resize(s, a, len))
  {
    hide Inv, Resize;
    ResizeInv(s, a, len);
    ResizeKeeps(s, a, len);
  }

  lemma NewGood(s: State, sid: Sid, seg: Segment, a: Mid, pd: Pd, offset: int)
    requires Good(s) && sid !in s.segs && Blank(seg) && MayMap(Make(s, sid, seg), sid, a, pd, offset)
    ensures Good(Map(Make(s, sid, seg), sid, a, pd, offset))
  {
    hide Inv, Blank, Apart;
    MakeInv(s, sid, seg);
    MapInv(Make(s, sid, seg), sid, a, pd, offset);
  }

  lemma MapGood(s: State, sid: Sid, a: Mid, pd: Pd, offset: int)
    requires Good(s) && MayMap(s, sid, a, pd, offset)
    ensures Good(Map(s, sid, a, pd, offset))
  {
    hide Inv, Apart;
    MapInv(s, sid, a, pd, offset);
  }

  lemma FaultGood(s: State, pd: Pd, addr: int, write: bool, f: nat)
    requires Good(s) && f !in s.used
    ensures Good(Fault(s, pd, addr, write, f))
  {
    hide Inv, Fault;
    FaultInv(s, pd, addr, write, f);
    FaultKeeps(s, pd, addr, write, f);
  }

  lemma {:induction false} AddParamsRooted(s: State, r: Rid, found: seq<Option<Mid>>)
    requires Rooted(s) && r in s.requests && forall i :: 0 <= i < |found| ==> Findable(s, found[i])
    ensures var t := AddParams(s, r, found);
            && Rooted(t) && t.segs == s.segs && t.maps == s.maps && t.mapped == s.mapped && t.kernel == s.kernel &&
                t.answered == s.answered
            && t.fault == s.fault && t.mappings.Keys == s.mappings.Keys && r in t.requests
            && t.requests == s.requests[r := t.requests[r]]
    decreases |found|
  {
    if found != [] {
      assert forall i :: 0 <= i < |found[1..]| ==> Findable(s, found[i + 1]) && found[1..][i] == found[i + 1];
      AddParamRooted(s, r, found[0]);
      hide Rooted, AddParam;
      AddParamsRooted(AddParam(s, r, found[0]), r, found[1..]);
    } else {
      assert s.requests == s.requests[r := s.requests[r]];
    }
  }

  lemma AddParamRooted(s: State, r: Rid, found: Option<Mid>)
    requires Rooted(s) && r in s.requests && Findable(s, found)
    ensures var t := AddParam(s, r, found);
            && Rooted(t) && t.segs == s.segs && t.maps == s.maps && t.mapped == s.mapped && t.kernel == s.kernel &&
                t.answered == s.answered
            && t.fault == s.fault && t.mappings.Keys == s.mappings.Keys && t.requests == s.requests[r := t.requests[r]]
  {
  }

  lemma PostGood(s: State, r: Rid, from: Pd, to: Pd, blocking: bool, found: seq<Option<Mid>>)
    requires Good(s) && r !in s.requests && r !in s.answered && forall i :: 0 <= i < |found| ==> Findable(s, found[i])
    ensures var t := Post(s, r, from, to, blocking, found);
            && Good(t) && t.segs == s.segs && t.maps == s.maps && t.kernel == s.kernel && t.answered == s.answered &&
                t.fault == s.fault
            && r in t.requests && t.requests == s.requests[r := t.requests[r]]
  {
    hide Inv, AddParams;
    PostInv(s, r, from, to, blocking, found);
    var b := s.(requests := s.requests[r := Request(from, to, blocking, false, [])]);
    assert forall f :: Findable(b, f) <==> Findable(s, f);
    AddParamsRooted(b, r, if from == to then [None, None, None] else found);
  }

  lemma ReachableOf(s: State, r: Rid, i: nat, a: Mid, pos: int)
    requires WellTyped(s) && Mappable(s, r, i) && MayMapParam(s, r, i, a, pos)
    ensures Reachable(s, r, i)
  {
    hide MayMap;
  }

  lemma MapParameterGood(s: State, r: Rid, i: nat, a: Mid, pos: int)
    requires Good(s) && (Mappable(s, r, i) ==> Reachable(s, r, i) && MayMapParam(s, r, i, a, pos))
    ensures Good(MapParam(s, r, i, a, pos))
  {
    hide Inv, MayMap, HasOpen;
    MapParamInv(s, r, i, a, pos);
    MapParamRooted(s, r, i, a, pos);
  }

  lemma MapParamRooted(s: State, r: Rid, i: nat, a: Mid, pos: int)
    requires Rooted(s) && (Mappable(s, r, i) ==> Reachable(s, r, i))
    ensures Rooted(MapParam(s, r, i, a, pos))
  {
    hide HasOpen;
  }

  lemma {:induction false} UnmapRcvRooted(s: State, params: seq<Param>)
    requires Inv(s) && Rooted(s)
    ensures Rooted(UnmapRcv(s, params))
    decreases |params|
  {
    hide Inv, UnmapOne, Rooted;
    if params != [] {
      UnmapOneInv(s, params[0]);
      UnmapOneRooted(s, params[0]);
      UnmapRcvRooted(UnmapOne(s, params[0]), params[1..]);
    }
  }

  lemma UnmapOneRooted(s: State, p: Param)
    requires Rooted(s)
    ensures Rooted(UnmapOne(s, p))
  {
    hide Unmap, Rooted;
    FaultRooted(s);
    if p.Shm? && p.rcv.Some? && Unmappable(s, p.rcv.value) {
      UnmapRooted(s, p.rcv.value);
    }
  }

  lemma FaultRooted(s: State)
    requires Rooted(s)
    ensures Rooted(s.(fault := true))
  {
  }

  lemma AnswerGood(s: State, r: Rid)
    requires Good(s)
    ensures Good(Answer(s, r))
  {
    hide Inv, UnmapRcv;
    AnswerInv(s, r);
    if r in s.requests {
      UnmapRcvRooted(s, s.requests[r].params);
    }
  }

  lemma KernelGood(s: State, f: nat)
    requires Good(s)
    ensures f !in s.used ==> Good(s.(used := s.used + {f}, kernel := s.kernel + {f}))
    ensures f in s.kernel && f != 0 ==> Good(s.(used := s.used - {f}, kernel := s.kernel - {f}))
  {
    hide NamesOk, PagesOk, MapsOk, CountsOk, Exact;
    KernelSame(s, s.(used := s.used + {f}, kernel := s.kernel + {f}));
    KernelSame(s, s.(used := s.used - {f}, kernel := s.kernel - {f}));
    KernelExact(s, f);
  }

  lemma KernelSame(s: State, t: State)
    requires PagesOk(s) && MapsOk(s) && CountsOk(s) && NamesOk(s) && t == s.(used := t.used, kernel := t.kernel)
    ensures PagesOk(t) && MapsOk(t) && CountsOk(t) && NamesOk(t)
  {
    hide NamesOk, MapsOk, CountsOk, Covers, First;
    MapsSame(s, t);
    CountsSame(s, t);
    NamesSame(s, t);
  }

  lemma KernelExact(s: State, f: nat)
    requires Exact(s)
    ensures f !in s.used ==> Exact(s.(used := s.used + {f}, kernel := s.kernel + {f}))
    ensures f in s.kernel && f != 0 ==> Exact(s.(used := s.used - {f}, kernel := s.kernel - {f}))
  {
    forall t: State | t == s.(used := t.used, kernel := t.kernel)
      ensures forall h, x :: Holds(t, h, x) <==> Holds(s, h, x)
    {
    }
    hide Holds;
    ExactKernel(s, s.(used := s.used + {f}, kernel := s.kernel + {f}));
    ExactKernel(s, s.(used := s.used - {f}, kernel := s.kernel - {f}));
  }

  /** Frames that only the kernel gains or loses. */
  lemma ExactKernel(s: State, t: State)
    requires Exact(s) && forall h, x :: Holds(t, h, x) <==> Holds(s, h, x)
    ensures 0 in t.kernel && t.kernel <= t.used && t.kernel !! (s.used - s.kernel) ==>
            t.used - t.kernel == s.used - s.kernel ==> Exact(t)
  {
    hide Holds;
    if 0 in t.kernel && t.kernel <= t.used && t.used - t.kernel == s.used - s.kernel &&
        t.kernel !! (s.used - s.kernel) {
      forall h, x | Holds(t, h, x)
        ensures x in t.used && x !in t.kernel
      {
        assert x in s.used - s.kernel;
      }
      forall x | x in t.used && x !in t.kernel
        ensures exists h :: Holds(t, h, x)
      {
        assert x in s.used - s.kernel;
        var h :| Holds(s, h, x);
        assert Holds(t, h, x);
      }
    }
  }

  lemma GetGood(s: State, r: Rid)
    requires Good(s)
    ensures Good(Get(s, r))
  {
    hide Inv;
    GetInv(s, r);
  }

  lemma DirGood(s: State, pd: Pd)
    requires Good(s)
    ensures pd in s.mapped ==> Good(DeleteDir(s, pd))
    ensures pd !in s.mapped ==> Good(s.(mapped := s.mapped[pd := []]))
  {
    hide Good, Emptied;
    if pd in s.mapped {
      EmptiedInv(s, pd);
      DropInv(Emptied(s, pd), pd);
    } else {
      DirInv(s, s.(mapped := s.mapped[pd := []]));
    }
  }

  /** Every operation keeps the ownership of frames exact. */
  lemma StepGood(s: State, op: Op)
    requires Good(s) && Enabled(s, op)
    ensures WellTyped(s) && Good(Step(s, op))
  {
    Typed(s);
    hide Good, Unmap, Fault, Resize, DeleteDir, MayMap, MayResize, Blank, Map, Make, Post, Get, MapParam, Answer,
        MayMapParam;
    match op {
      case NewDir(pd) => DirGood(s, pd);
      case NewSegment(sid, seg, a, pd, offset) => NewGood(s, sid, seg, a, pd, offset);
      case MapSegment(sid, a, pd, offset) => MapGood(s, sid, a, pd, offset);
      case UnmapSegment(a) => RootedUnmap(s, a);
      case PageFault(pd, addr, write, f) => FaultGood(s, pd, addr, write, f);
      case ResizeSegment(a, len) => ResizeGood(s, a, len);
      case DropDir(pd) => DirGood(s, pd);
      case KernelTakes(f) => KernelGood(s, f);
      case KernelGives(f) => KernelGood(s, f);
      case _ => RequestGood(s, op);
    }
  }

  lemma RequestGood(s: State, op: Op)
    requires Good(s) && WellTyped(s) && Enabled(s, op)
    requires op.PostRequest? || op.GetRequest? || op.MapParameter? || op.AnswerRequest?
    ensures Good(Step(s, op))
  {
    hide Good, MayMap, Post, Get, MapParam, Answer, MayMapParam;
    match op {
      case PostRequest(r, from, to, blocking, found) => PostGood(s, r, from, to, blocking, found);
      case GetRequest(r) => GetGood(s, r);
      case MapParameter(r, i, a, pos) =>
        if Mappable(s, r, i) {
          ReachableOf(s, r, i, a, pos);
        }
        MapParameterGood(s, r, i, a, pos);
      case AnswerRequest(r) => AnswerGood(s, r);
      case _ =>
    }
  }

  // ---------------------------------------------------------------- runs

  /** After boot: frame 0 and the kernel's own frames are marked, and there are no segments. */
  ghost predicate Boot(s: State)
  {
    && 0 in s.kernel && s.used == s.kernel && s.pages == map[] && s.segs == map[] && s.mappings == map[] &&
        s.maps == map[]
    && s.mapped == map[] && s.freed == {} && s.requests == map[] && s.answered == map[] && !s.fault
  }

  lemma BootGood(s: State)
    requires Boot(s)
    ensures Good(s)
  {
    assert forall h, f :: !Holds(s, h, f);
    assert forall sid :: Open(s.requests, sid) == {} && Open(s.answered, sid) == {};
  }

  /** The operations `ops` lead from `s` to `t`. */
  ghost predicate Runs(s: State, ops: seq<Op>, t: State)
    requires Good(s)
    decreases |ops|
  {
    if ops == [] then t == s
    else Enabled(s, ops[0]) && (Typed(s); StepGood(s, ops[0]); Runs(Step(s, ops[0]), ops[1..], t))
  }

  lemma {:induction false} RunGood(s: State, ops: seq<Op>, t: State)
    requires Good(s) && Runs(s, ops, t)
    ensures Good(t)
    decreases |ops|
  {
    if ops != [] {
      Typed(s);
      StepGood(s, ops[0]);
      hide Good, WellTyped, Enabled, Step;
      RunGood(Step(s, ops[0]), ops[1..], t);
    }
  }

  lemma {:induction false} EmptiedKeeps(s: State, pd: Pd)
    ensures Emptied(s, pd).kernel == s.kernel && SameRequests(s, Emptied(s, pd))
    decreases if pd in s.mapped then |s.mapped[pd]| else 0
  {
    if pd in s.mapped && s.mapped[pd] != [] {
      var a := s.mapped[pd][0];
      if a in s.maps && s.maps[a].pd == pd && s.maps[a].seg in s.mappings && s.maps[a].seg in s.segs {
        UnmapMapped(s, a);
        hide Unmap;
        EmptiedKeeps(Unmap(s, a), pd);
      }
    }
  }
}
