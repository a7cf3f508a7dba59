/**
 What the operations on segments and requests change, read off the state before them; and, over every run, that a simple
 segment is where it was made to be.
 */
module FrameEffects {
  import opened Common
  import opened FrameModel
  import opened FrameInv
  import opened FrameRequests
  import opened FrameRuns
  import opened FrameTheorems
  import opened FrameSafety

  // ---------------------------------------------------------------- mapping

  /** A map of a segment: a simple one lies where its segment says, a shared one at the offset asked for. */
  ghost predicate Lies(seg: Segment, m: SegMap, offset: int)
  {
    match seg
    case Simple(start, len, _) => m.start == start && m.len == len
    case Shared(frames) => m.start == offset && m.len == 0x1000 * |frames|
  }

  /** `a` has become the newest map of `pd`, of segment `sid`, which counts one more; all else is as it was. */
  ghost predicate MappedAs(s: State, t: State, sid: Sid, a: Mid, pd: Pd, offset: int)
  {
    && sid in s.segs && sid in s.mappings && pd in s.mapped && a in t.maps
    && t == s.(maps := s.maps[a := t.maps[a]], mapped := s.mapped[pd := [a] + s.mapped[pd]],
               mappings := s.mappings[sid := s.mappings[sid] + 1])
    && t.maps[a].seg == sid && t.maps[a].pd == pd && Lies(s.segs[sid], t.maps[a], offset)
  }

  /** `seg_map`. */
  lemma MapEffect(s: State, sid: Sid, a: Mid, pd: Pd, offset: int)
    requires Good(s) && WellTyped(s) && Enabled(s, MapSegment(sid, a, pd, offset))
    ensures MappedAs(s, Step(s, MapSegment(sid, a, pd, offset)), sid, a, pd, offset)
  {
    hide Good;
  }

  /** `simpleseg_make` or `shmseg_make`, and `seg_map`. */
  lemma NewSegmentEffect(s: State, sid: Sid, seg: Segment, a: Mid, pd: Pd, offset: int)
    requires Good(s) && WellTyped(s) && Enabled(s, NewSegment(sid, seg, a, pd, offset))
    ensures var t := Step(s, NewSegment(sid, seg, a, pd, offset));
            && MappedAs(s.(segs := s.segs[sid := seg], mappings := s.mappings[sid := 0]), t, sid, a, pd, offset)
            && t.mappings[sid] == 1
  {
    hide Good;
  }

  // ---------------------------------------------------------------- requests

  /** The parameter sent for what was found: nothing within one process, else the sender's map and its segment. */
  ghost predicate SentFor(s: State, p: Param, from: Pd, to: Pd, f: Option<Mid>)
  {
    if from == to || f.None? then p == Nothing
    else f.value in s.maps && p == Shm(f.value, s.maps[f.value].seg, None)
  }

  /** `mkrequest`: the request records what was found, in order; nothing else but the counts changes. */
  lemma PostEffect(s: State, r: Rid, from: Pd, to: Pd, blocking: bool, found: seq<Option<Mid>>)
    requires Good(s) && WellTyped(s) && Enabled(s, PostRequest(r, from, to, blocking, found)) && |found| == 3
    ensures var t := Step(s, PostRequest(r, from, to, blocking, found));
            && r in t.requests
            && t == s.(requests := s.requests[r := t.requests[r]], mappings := t.mappings)
            && var rq := t.requests[r];
               && rq.from == from && rq.to == to && rq.blocking == blocking && !rq.processed && |rq.params| == 3
               && forall i :: 0 <= i < 3 ==> SentFor(s, rq.params[i], from, to, found[i])
  {
    hide Good, AddParams, Params;
    var b := s.(requests := s.requests[r := Request(from, to, blocking, false, [])]);
    var fs := if from == to then [None, None, None] else found;
    assert forall f :: Findable(b, f) <==> Findable(s, f);
    AddedParams(b, r, fs);
    forall i | 0 <= i < 3
      ensures SentFor(s, Post(s, r, from, to, blocking, found).requests[r].params[i], from, to, found[i])
    {
      ParamsAt(b, fs, i);
    }
  }

  /** Only request `r` has more parameters, and counts have changed. */
  ghost predicate Longer(s: State, t: State, r: Rid, ps: seq<Param>)
  {
    && r in s.requests && r in t.requests && t == s.(requests := t.requests, mappings := t.mappings)
    && t.requests == s.requests[r := s.requests[r].(params := s.requests[r].params + ps)]
  }

  lemma LongerTwice(s: State, u: State, t: State, r: Rid, p: Param, ps: seq<Param>)
    requires Longer(s, u, r, [p]) && Longer(u, t, r, ps)
    ensures Longer(s, t, r, [p] + ps)
  {
    assert s.requests[r].params + [p] + ps == s.requests[r].params + ([p] + ps);
  }

  lemma LongerBy(s: State, r: Rid)
    requires r in s.requests
    ensures Longer(s, s, r, [])
  {
    assert s.requests[r].params + [] == s.requests[r].params;
  }

  lemma {:induction false} AddedParams(s: State, r: Rid, found: seq<Option<Mid>>)
    requires r in s.requests && forall i :: 0 <= i < |found| ==> Findable(s, found[i])
    ensures Longer(s, AddParams(s, r, found), r, Params(s, found))
    decreases |found|
  {
    hide Longer, AddParam, Findable;
    if found == [] {
      LongerBy(s, r);
    } else {
      assert forall i :: 0 <= i < |found[1..]| ==> Findable(s, found[i + 1]) && found[1..][i] == found[i + 1];
      var u := AddParam(s, r, found[0]);
      AddedOne(s, r, found[0]);
      AddedParams(u, r, found[1..]);
      SameParams(s, u, found[1..]);
      LongerTwice(s, u, AddParams(u, r, found[1..]), r, OneParam(s, found[0]), Params(s, found[1..]));
    }
  }

  lemma AddedOne(s: State, r: Rid, f: Option<Mid>)
    requires r in s.requests && Findable(s, f)
    ensures var u := AddParam(s, r, f);
            Longer(s, u, r, [OneParam(s, f)]) && u.maps == s.maps
  {
  }

  function OneParam(s: State, f: Option<Mid>): Param
  {
    if f.None? || f.value !in s.maps then Nothing else Shm(f.value, s.maps[f.value].seg, None)
  }

  function Params(s: State, found: seq<Option<Mid>>): (ps: seq<Param>)
    ensures |ps| == |found|
  {
    if found == [] then [] else [OneParam(s, found[0])] + Params(s, found[1..])
  }

  lemma {:induction false} ParamsAt(s: State, found: seq<Option<Mid>>, i: nat)
    requires i < |found|
    ensures Params(s, found)[i] == OneParam(s, found[i])
  {
    if i > 0 {
      ParamsAt(s, found[1..], i - 1);
    }
  }

  lemma {:induction false} SameParams(s: State, u: State, found: seq<Option<Mid>>)
    requires u.maps == s.maps
    ensures Params(u, found) == Params(s, found)
  {
    if found != [] {
      SameParams(s, u, found[1..]);
    }
  }

  /** `request_get`: a message without shared memory is done with; anything else is in progress. */
  lemma GetEffect(s: State, r: Rid)
    requires Good(s) && WellTyped(s) && r in s.requests && !s.requests[r].processed
    ensures var t, rq := Step(s, GetRequest(r)), s.requests[r];
            && t == s.(requests := t.requests)
            && t.requests == if rq.blocking || (exists i :: 0 <= i < |rq.params| && rq.params[i].Shm?)
                             then s.requests[r := rq.(processed := true)] else s.requests - {r}
  {
    hide Good, WellTyped;
  }

  /**
   `request_mapShm`: the sender's segment is mapped for the receiver at the place asked for, the reference becomes that
   of the new map, and a message whose last shared memory this was is done with.
   */
  lemma MapParameterEffect(s: State, r: Rid, i: nat, a: Mid, pos: int)
    requires Good(s) && WellTyped(s) && Enabled(s, MapParameter(r, i, a, pos)) && Mappable(s, r, i)
    requires s.requests[r].params[i].sndr in s.maps
    ensures var t, rq := Step(s, MapParameter(r, i, a, pos)), s.requests[r];
            var sid := rq.params[i].seg;
            && sid in s.mappings && s.maps[rq.params[i].sndr].seg == sid
            && MappedAs(s, t.(requests := s.requests, mappings := s.mappings[sid := s.mappings[sid] + 1]), sid, a,
                        rq.to, pos)
            && t.mappings == s.mappings
            && t.requests == if !rq.blocking && (forall j :: 0 <= j < |rq.params| && rq.params[j].Shm? && j != i ==>
                                                   rq.params[j].rcv.Some?)
                             then s.requests - {r}
                             else s.requests[r := rq.(params := rq.params[i := rq.params[i].(rcv := Some(a))])]
  {
    hide Exact, PagesOk, CountsOk, MapsOk, HasOpen;
    ReachableOf(s, r, i, a, pos);
    SenderSeg(s, r, i);
    var rq := s.requests[r];
    OpenLeft(rq, i, a);
  }

  lemma OpenLeft(rq: Request, i: nat, a: Mid)
    requires i < |rq.params| && rq.params[i].Shm?
    ensures HasOpen(rq.(params := rq.params[i := rq.params[i].(rcv := Some(a))])) <==>
              !forall j :: 0 <= j < |rq.params| && rq.params[j].Shm? && j != i ==> rq.params[j].rcv.Some?
  {
    var q := rq.(params := rq.params[i := rq.params[i].(rcv := Some(a))]);
    assert forall j :: 0 <= j < |q.params| && j != i ==> q.params[j] == rq.params[j];
  }

  /** `request_answer` on a blocking request in progress: it is answered, and the receiver's maps are gone. */
  lemma AnswerEffect(s: State, r: Rid)
    requires Good(s) && WellTyped(s)
    ensures var t := Step(s, AnswerRequest(r));
            if r in s.requests && s.requests[r].processed && s.requests[r].blocking then
              && t.requests == s.requests - {r} && t.answered == s.answered[r := s.requests[r]]
              && (forall a :: a in t.maps <==> a in s.maps && !MadeBy(s.requests[r].params, a))
              && (forall a :: a in t.maps ==> t.maps[a] == s.maps[a])
            else t == s
  {
    hide Inv, UnmapRcv, MadeBy;
    if r in s.requests && s.requests[r].processed && s.requests[r].blocking {
      UnmapRcvInv(s, s.requests[r].params);
      RcvUnmapped(s, s.requests[r].params);
    }
  }

  // ---------------------------------------------------------------- unmapping

  ghost predicate Delisted(s: State, t: State, a: Mid)
    requires a in s.maps && s.maps[a].pd in s.mapped
  {
    var pd := s.maps[a].pd;
    && pd in t.mapped && t.mapped == s.mapped[pd := t.mapped[pd]]
    && (exists i :: 0 <= i < |s.mapped[pd]| && s.mapped[pd][i] == a &&
                    t.mapped[pd] == s.mapped[pd][..i] + s.mapped[pd][i + 1..])
    && t.freed == s.freed + {a} && t.requests == s.requests && t.answered == s.answered
  }

  /** `seg_unmap` takes the map out of its list, the others keeping their order, and leaves the other lists alone. */
  lemma UnmapLists(s: State, a: Mid)
    requires Good(s) && WellTyped(s) && a in s.maps
    ensures Delisted(s, Step(s, UnmapSegment(a)), a)
  {
    hide Unmap, Exact, PagesOk, CountsOk, NamesOk, Rooted, Apart;
    UnmapMapped(s, a);
    UnmapFreed(s, a);
    var l := s.mapped[s.maps[a].pd];
    var i :| 0 <= i < |l| && l[i] == a;
    UnlistedAt(l, i, a);
  }

  lemma UnmapFreed(s: State, a: Mid)
    requires Unmappable(s, a)
    ensures Unmap(s, a).freed == s.freed + {a}
  {
    hide Cleared, Shown, Unlisted;
  }

  lemma UnlistedAt(l: seq<Mid>, k: nat, a: Mid)
    requires k < |l| && l[k] == a && forall j :: 0 <= j < k ==> l[j] != a
    ensures Unlisted(l, a) == l[..k] + l[k + 1..]
  {
    if k > 0 {
      UnlistedAt(l[1..], k - 1, a);
      assert l[..k] == [l[0]] + l[1..][..k - 1] && l[1..][k..] == l[k + 1..];
    }
  }

  /** `pagedir_delete`: the directory and exactly the maps in it are gone. */
  lemma DropDirEffect(s: State, pd: Pd)
    requires Good(s) && WellTyped(s) && pd in s.mapped
    ensures var t := Step(s, DropDir(pd));
            && t.mapped == s.mapped - {pd} && t.requests == s.requests && t.answered == s.answered
            && (forall a :: a in t.maps <==> a in s.maps && s.maps[a].pd != pd)
            && (forall a :: a in t.maps ==> t.maps[a] == s.maps[a])
  {
    hide Good, Emptied, SameElsewhere, Steady;
    DroppedMaps(s, pd);
    EmptiedInv(s, pd);
    EmptiedKept(s, pd);
    ElsewhereSame(s, Emptied(s, pd), pd);
  }

  lemma ElsewhereSame(s: State, t: State, pd: Pd)
    requires SameElsewhere(s, t, pd)
    ensures t.mapped - {pd} == s.mapped - {pd}
  {
  }

  lemma {:induction false} EmptiedKept(s: State, pd: Pd)
    ensures forall a :: a in Emptied(s, pd).maps ==> a in s.maps && Emptied(s, pd).maps[a] == s.maps[a]
    decreases if pd in s.mapped then |s.mapped[pd]| else 0
  {
    if pd in s.mapped && s.mapped[pd] != [] {
      var a := s.mapped[pd][0];
      if a in s.maps && s.maps[a].pd == pd && s.maps[a].seg in s.mappings && s.maps[a].seg in s.segs {
        UnmapMapped(s, a);
        hide Unmap;
        EmptiedKept(Unmap(s, a), pd);
      }
    }
  }

  // ---------------------------------------------------------------- over every run

  /** Every map of a simple segment starts where the segment does. */
  ghost predicate InPlace(s: State)
  {
    forall a :: a in s.maps && s.maps[a].seg in s.segs && s.segs[s.maps[a].seg].Simple? ==>
      s.maps[a].start == s.segs[s.maps[a].seg].start
  }

  /** No map has moved and no segment changed its kind or its start; some may be gone. */
  ghost predicate Steady(s: State, t: State)
  {
    && (forall a :: a in t.maps ==> a in s.maps && t.maps[a].seg == s.maps[a].seg && t.maps[a].start == s.maps[a].start)
    && (forall sid :: sid in t.segs ==>
          && sid in s.segs && t.segs[sid].Simple? == s.segs[sid].Simple?
          && (t.segs[sid].Simple? ==> t.segs[sid].start == s.segs[sid].start))
  }

  lemma SteadyInPlace(s: State, t: State)
    requires InPlace(s) && Steady(s, t)
    ensures InPlace(t)
  {
  }

  lemma SteadyTwice(s: State, t: State, u: State)
    requires Steady(s, t) && Steady(t, u)
    ensures Steady(s, u)
  {
  }

  lemma UnmapSteady(s: State, a: Mid)
    requires Unmappable(s, a)
    ensures Steady(s, Unmap(s, a))
  {
    hide Cleared, Shown, Unlisted, Nonzero;
  }

  lemma {:induction false} EmptiedSteady(s: State, pd: Pd)
    ensures Steady(s, Emptied(s, pd))
    decreases if pd in s.mapped then |s.mapped[pd]| else 0
  {
    if pd in s.mapped && s.mapped[pd] != [] {
      var a := s.mapped[pd][0];
      if a in s.maps && s.maps[a].pd == pd && s.maps[a].seg in s.mappings && s.maps[a].seg in s.segs {
        UnmapMapped(s, a);
        UnmapSteady(s, a);
        hide Unmap, Steady;
        EmptiedSteady(Unmap(s, a), pd);
        SteadyTwice(s, Unmap(s, a), Emptied(s, pd));
      }
    }
  }

  lemma {:induction false} UnmapRcvSteady(s: State, params: seq<Param>)
    ensures Steady(s, UnmapRcv(s, params))
    decreases |params|
  {
    if params != [] {
      var p := params[0];
      if p.Shm? && p.rcv.Some? && Unmappable(s, p.rcv.value) {
        UnmapSteady(s, p.rcv.value);
      }
      hide Unmap, Steady, Unmappable;
      var u := UnmapOne(s, p);
      OneSteady(s, p);
      UnmapRcvSteady(u, params[1..]);
      SteadyTwice(s, u, UnmapRcv(s, params));
    }
  }

  lemma OneSteady(s: State, p: Param)
    ensures Steady(s, UnmapOne(s, p))
  {
    hide Unmap;
    if p.Shm? && p.rcv.Some? && Unmappable(s, p.rcv.value) {
      UnmapSteady(s, p.rcv.value);
    }
  }

  lemma FaultSteady(s: State, pd: Pd, addr: int, write: bool, f: nat)
    ensures Steady(s, Fault(s, pd, addr, write, f))
  {
    hide Hit;
  }

  lemma ResizeSteady(s: State, a: Mid, len: int)
    requires a in s.maps && s.maps[a].seg in s.segs && 0 <= len
    ensures Steady(s, Resize(s, a, len))
  {
    hide Cleared, Shown;
  }

  lemma MappedInPlace(s: State, t: State, sid: Sid, a: Mid, pd: Pd, offset: int)
    requires InPlace(s) && MappedAs(s, t, sid, a, pd, offset)
    ensures InPlace(t)
  {
  }

  lemma StepInPlace(s: State, op: Op)
    requires Good(s) && WellTyped(s) && Enabled(s, op) && InPlace(s)
    ensures InPlace(Step(s, op))
  {
    hide Good, MayMap, Map, Unmap, Fault, Resize, Emptied, Post, Get, MapParam, Blank, MayMapParam, Steady, MappedAs,
        InPlace, UnmapRcv;
    var t := Step(s, op);
    match op
    case NewDir(pd) => Rest(s, t);
    case NewSegment(sid, seg, a, pd, offset) =>
      NewSegmentEffect(s, sid, seg, a, pd, offset);
      MadeInPlace(s, sid, seg);
      MappedInPlace(s.(segs := s.segs[sid := seg], mappings := s.mappings[sid := 0]), t, sid, a, pd, offset);
    case MapSegment(sid, a, pd, offset) =>
      MapEffect(s, sid, a, pd, offset);
      MappedInPlace(s, t, sid, a, pd, offset);
    case UnmapSegment(a) =>
      UnmapSteady(s, a);
      SteadyInPlace(s, t);
    case PageFault(pd, addr, write, f) =>
      FaultSteady(s, pd, addr, write, f);
      SteadyInPlace(s, t);
    case ResizeSegment(a, len) =>
      ResizeSteady(s, a, len);
      SteadyInPlace(s, t);
    case PostRequest(r, from, to, blocking, found) =>
      PostGood(s, r, from, to, blocking, found);
      Rest(s, t);
    case GetRequest(r) =>
      GetKeeps(s, r);
      Rest(s, t);
    case MapParameter(r, i, a, pos) => ParameterInPlace(s, r, i, a, pos);
    case AnswerRequest(r) =>
      if r in s.requests {
        UnmapRcvSteady(s, s.requests[r].params);
        SteadyInPlace(s, UnmapRcv(s, s.requests[r].params));
        Rest(UnmapRcv(s, s.requests[r].params), t);
      }
      Rest(s, s);
    case DropDir(pd) =>
      EmptiedSteady(s, pd);
      SteadyInPlace(s, Emptied(s, pd));
      Rest(Emptied(s, pd), t);
    case _ => Rest(s, t);
  }

  lemma Rest(s: State, t: State)
    ensures InPlace(s) && t.maps == s.maps && t.segs == s.segs ==> InPlace(t)
  {
  }

  lemma MadeInPlace(s: State, sid: Sid, seg: Segment)
    requires InPlace(s) && WellTyped(s) && sid !in s.segs
    ensures InPlace(s.(segs := s.segs[sid := seg], mappings := s.mappings[sid := 0]))
  {
  }

  lemma ParameterInPlace(s: State, r: Rid, i: nat, a: Mid, pos: int)
    requires Good(s) && WellTyped(s) && Enabled(s, MapParameter(r, i, a, pos)) && InPlace(s)
    ensures InPlace(Step(s, MapParameter(r, i, a, pos)))
  {
    hide Good, WellTyped, InPlace, MayMapParam, Map, HasOpen, MappedAs;
    var t := Step(s, MapParameter(r, i, a, pos));
    if Mappable(s, r, i) && s.requests[r].params[i].sndr in s.maps {
      MapParameterEffect(s, r, i, a, pos);
      var sid := s.requests[r].params[i].seg;
      var u := t.(requests := s.requests, mappings := s.mappings[sid := s.mappings[sid] + 1]);
      MappedInPlace(s, u, sid, a, s.requests[r].to, pos);
      Rest(u, t);
    } else {
      Rest(s, t);
    }
  }

  /** On every run from boot a map of a simple segment starts where the segment was made to start. */
  lemma {:induction false} RunInPlace(s: State, ops: seq<Op>, t: State)
    requires Good(s) && InPlace(s) && Runs(s, ops, t)
    ensures Good(t) && InPlace(t)
    decreases |ops|
  {
    if ops != [] {
      GoodTyped(s);
      StepGood(s, ops[0]);
      StepInPlace(s, ops[0]);
      hide Good, WellTyped, Enabled, Step, InPlace;
      RunInPlace(Step(s, ops[0]), ops[1..], t);
    }
  }

  lemma SegmentsInPlace(b: State, ops: seq<Op>, t: State)
    requires Boot(b)
    ensures Good(b) && (Runs(b, ops, t) ==> InPlace(t))
  {
    BootGood(b);
    hide Good;
    assert InPlace(b);
    if Runs(b, ops, t) {
      RunInPlace(b, ops, t);
    }
  }
}
