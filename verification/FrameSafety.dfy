/**
 Maps that requests point at: the sender's, which `request_mapShm` follows, and the receiver's, which `request_answer`
 unmaps. The kernel does not keep either from being unmapped in between; this is exactly when it then uses a freed map.
 */
module FrameSafety {
  import opened Common
  import opened FrameModel
  import opened FrameInv
  import opened FrameRequests
  import opened FrameRuns

  /** The call follows a map that is no more. */
  ghost predicate Dangles(s: State, op: Op)
  {
    match op
    case MapParameter(r, i, _, _) => Mappable(s, r, i) && s.requests[r].params[i].sndr !in s.maps
    case AnswerRequest(r) =>
      r in s.requests && s.requests[r].processed && s.requests[r].blocking && RcvGone(s, s.requests[r].params)
    case _ => false
  }

  /** A step uses a freed map if and only if it dangles. */
  lemma FaultsIff(s: State, op: Op)
    requires Good(s) && WellTyped(s) && Enabled(s, op) && !s.fault
    ensures Step(s, op).fault <==> Dangles(s, op)
  {
    hide Good, MayMap, Unmap, Fault, Resize, Emptied, Post, Get, MapParam, Answer, Blank, MayMapParam, RcvGone;
    match op
    case UnmapSegment(a) => UnmapMapped(s, a);
    case PageFault(pd, addr, write, f) => FaultKeeps(s, pd, addr, write, f);
    case ResizeSegment(a, len) => ResizeKeeps(s, a, len);
    case PostRequest(r, from, to, blocking, found) => PostGood(s, r, from, to, blocking, found);
    case GetRequest(r) => GetKeeps(s, r);
    case MapParameter(r, i, a, pos) =>
      if Mappable(s, r, i) {
        ReachableOf(s, r, i, a, pos);
      }
      MapParamFaults(s, r, i, a, pos);
    case AnswerRequest(r) =>
      GoodInv(s);
      AnswerFaultsIff(s, r);
    case DropDir(pd) => EmptiedKeeps(s, pd);
    case _ =>
  }

  lemma GoodInv(s: State)
    requires Good(s)
    ensures Inv(s)
  {
  }

  lemma MapParamFaults(s: State, r: Rid, i: nat, a: Mid, pos: int)
    requires (Mappable(s, r, i) ==> Reachable(s, r, i)) && !s.fault
    ensures MapParam(s, r, i, a, pos).fault <==> Mappable(s, r, i) && s.requests[r].params[i].sndr !in s.maps
  {
    hide HasOpen;
  }

  // ---------------------------------------------------------------- runs that do not

  /** A request under way still needs map `a`: to map the parameter, or to unmap it when it is answered. */
  predicate Needs(rq: Request, a: Mid)
  {
    exists i :: 0 <= i < |rq.params| && NeedsAt(rq, i, a)
  }

  predicate NeedsAt(rq: Request, i: nat, a: Mid)
    requires i < |rq.params|
  {
    rq.params[i].Shm? && if rq.params[i].rcv.None? then rq.params[i].sndr == a
        else rq.blocking && rq.params[i].rcv.value == a
  }

  predicate Needed(s: State, a: Mid) { exists r :: r in s.requests && Needs(s.requests[r], a) }

  /** Every map that a request under way needs is there. */
  ghost predicate Held(s: State) { forall a :: Needed(s, a) ==> a in s.maps }

  /** While the maps are held no step uses a freed one. */
  lemma HeldSafe(s: State, op: Op)
    requires Good(s) && WellTyped(s) && Enabled(s, op) && !s.fault && Held(s)
    ensures !Step(s, op).fault
  {
    hide Good, MayMap, Unmap, Fault, Resize, Emptied, Post, Get, MapParam, Answer, Blank, Step;
    FaultsIff(s, op);
    match op
    case MapParameter(r, i, a, pos) =>
      if Mappable(s, r, i) {
        NeededBy(s, r, i, s.requests[r].params[i].sndr);
      }
    case AnswerRequest(r) =>
      if r in s.requests && s.requests[r].blocking && RcvGone(s, s.requests[r].params) {
        var ps := s.requests[r].params;
        var i :| 0 <= i < |ps| && ps[i].Shm? && ps[i].rcv.Some? && ps[i].rcv.value !in s.maps;
        NeededBy(s, r, i, ps[i].rcv.value);
        assert false;
      }
    case _ =>
  }

  lemma NeededBy(s: State, r: Rid, i: nat, a: Mid)
    requires r in s.requests && i < |s.requests[r].params| && NeedsAt(s.requests[r], i, a)
    ensures Needed(s, a)
  {
    assert Needs(s.requests[r], a);
  }

  /** What is needed after a step was needed before it, or is there. */
  lemma NeededBefore(s: State, op: Op, a: Mid)
    requires Good(s) && WellTyped(s) && Enabled(s, op) && Needed(Step(s, op), a)
    ensures Needed(s, a) || a in Step(s, op).maps
  {
    hide Good, MayMap, Unmap, Fault, Resize, Emptied, Post, Get, MapParam, Answer, Blank, MayMapParam, Needs;
    var t := Step(s, op);
    match op
    case UnmapSegment(b) => UnmapMapped(s, b);
    case PageFault(pd, addr, write, f) => FaultKeeps(s, pd, addr, write, f);
    case ResizeSegment(b, len) => ResizeKeeps(s, b, len);
    case PostRequest(r, from, to, blocking, found) =>
      PostGood(s, r, from, to, blocking, found);
      PostNeeds(s, r, from, to, blocking, found, a);
    case GetRequest(r) => GetNeeds(s, r, a);
    case MapParameter(r, i, b, pos) =>
      if Mappable(s, r, i) {
        ReachableOf(s, r, i, b, pos);
      }
      MapParamNeeds(s, r, i, b, pos, a);
    case AnswerRequest(r) => AnswerNeeds(s, r, a);
    case DropDir(pd) => EmptiedKeeps(s, pd);
    case _ =>
  }

  lemma GetNeeds(s: State, r: Rid, a: Mid)
    requires Needed(Get(s, r), a)
    ensures Needed(s, a)
  {
    hide Get;
    GetKeeps(s, r);
    var t := Get(s, r);
    var q :| q in t.requests && Needs(t.requests[q], a);
    var i :| 0 <= i < |t.requests[q].params| && NeedsAt(t.requests[q], i, a);
    NeededBy(s, q, i, a);
  }

  lemma AnswerNeeds(s: State, r: Rid, a: Mid)
    requires Good(s) && Needed(Answer(s, r), a)
    ensures Needed(s, a)
  {
    hide Needs, UnmapRcv, NamesOk, Exact, PagesOk, MapsOk, CountsOk;
    if r in s.requests {
      UnmapRcvInv(s, s.requests[r].params);
    }
  }

  lemma MapParamNeeds(s: State, r: Rid, i: nat, b: Mid, pos: int, a: Mid)
    requires (Mappable(s, r, i) ==> Reachable(s, r, i)) && Needed(MapParam(s, r, i, b, pos), a)
    ensures Needed(s, a) || a in MapParam(s, r, i, b, pos).maps
  {
    hide HasOpen;
    var t := MapParam(s, r, i, b, pos);
    var q :| q in t.requests && Needs(t.requests[q], a);
    var j :| 0 <= j < |t.requests[q].params| && NeedsAt(t.requests[q], j, a);
    if NeedsAt(s.requests[q], j, a) {
      NeededBy(s, q, j, a);
    }
  }

  lemma PostNeeds(s: State, r: Rid, from: Pd, to: Pd, blocking: bool, found: seq<Option<Mid>>, a: Mid)
    requires forall i :: 0 <= i < |found| ==> Findable(s, found[i])
    requires var t := Post(s, r, from, to, blocking, found);
             Needed(t, a) && r in t.requests && t.requests == s.requests[r := t.requests[r]]
    ensures Needed(s, a) || a in s.maps
  {
    var t := Post(s, r, from, to, blocking, found);
    var b := s.(requests := s.requests[r := Request(from, to, blocking, false, [])]);
    assert forall f :: Findable(b, f) <==> Findable(s, f);
    AddParamsNeeds(b, r, if from == to then [None, None, None] else found, a);
    hide Post;
    var q :| q in t.requests && Needs(t.requests[q], a);
    if q != r {
      assert Needs(s.requests[q], a);
    }
  }

  lemma {:induction false} AddParamsNeeds(s: State, r: Rid, found: seq<Option<Mid>>, a: Mid)
    requires r in s.requests && (forall i :: 0 <= i < |found| ==> Findable(s, found[i]))
    ensures r in AddParams(s, r, found).requests &&
            (Needs(AddParams(s, r, found).requests[r], a) ==> Needs(s.requests[r], a) || a in s.maps)
    decreases |found|
  {
    if found != [] {
      assert forall i :: 0 <= i < |found[1..]| ==> Findable(s, found[i + 1]) && found[1..][i] == found[i + 1];
      AddParamNeeds(s, r, found[0], a);
      hide Needs, AddParam;
      AddParamsNeeds(AddParam(s, r, found[0]), r, found[1..], a);
    }
  }

  lemma AddParamNeeds(s: State, r: Rid, found: Option<Mid>, a: Mid)
    requires r in s.requests && Findable(s, found)
    ensures AddParam(s, r, found).maps == s.maps
    ensures Needs(AddParam(s, r, found).requests[r], a) ==> Needs(s.requests[r], a) || a in s.maps
  {
    var t := AddParam(s, r, found);
    if Needs(t.requests[r], a) {
      var i :| 0 <= i < |t.requests[r].params| && NeedsAt(t.requests[r], i, a);
      assert i < |s.requests[r].params| ==> NeedsAt(s.requests[r], i, a);
    }
  }

  // ---------------------------------------------------------------- which steps keep the maps held

  /** The receiver has mapped a parameter of the request as `a`. */
  predicate MadeBy(params: seq<Param>, a: Mid)
  {
    exists i :: 0 <= i < |params| && params[i].Shm? && params[i].rcv == Some(a)
  }

  /**
   The step spares every map that is needed: it unmaps none of them, deletes no directory with one, and answers no
   request whose maps another one needs.
   */
  ghost predicate Spares(s: State, op: Op)
  {
    match op
    case UnmapSegment(a) => !Needed(s, a)
    case DropDir(pd) => forall a :: a in s.maps && s.maps[a].pd == pd ==> !Needed(s, a)
    case AnswerRequest(r) =>
      r in s.requests && s.requests[r].processed && s.requests[r].blocking ==>
      forall q, a :: q in s.requests && q != r && MadeBy(s.requests[r].params, a) ==> !Needs(s.requests[q], a)
    case _ => true
  }

  /** The maps stay held if and only if the step spares them. */
  lemma HeldIff(s: State, op: Op)
    requires Good(s) && WellTyped(s) && Enabled(s, op) && Held(s)
    ensures Held(Step(s, op)) <==> Spares(s, op)
  {
    hide Good, MayMap, Unmap, Fault, Resize, Emptied, Post, Get, MapParam, Answer, Blank, MayMapParam, Needs;
    match op
    case UnmapSegment(a) => UnmapMapped(s, a);
    case DropDir(pd) => DroppedMaps(s, pd);
    case AnswerRequest(r) => AnswerHeldIff(s, r);
    case PageFault(pd, addr, write, f) => FaultKeeps(s, pd, addr, write, f);
    case ResizeSegment(a, len) => ResizeKeeps(s, a, len);
    case PostRequest(r, from, to, blocking, found) =>
      PostGood(s, r, from, to, blocking, found);
      KeepsHeld(s, op);
    case GetRequest(r) =>
      GetKeeps(s, r);
      KeepsHeld(s, op);
    case MapParameter(r, i, a, pos) =>
      if Mappable(s, r, i) {
        ReachableOf(s, r, i, a, pos);
      }
      MapParamMaps(s, r, i, a, pos);
      KeepsHeld(s, op);
    case _ =>
  }

  /** A step that takes no map away keeps the maps held. */
  lemma KeepsHeld(s: State, op: Op)
    requires Good(s) && WellTyped(s) && Enabled(s, op) && Held(s) && s.maps.Keys <= Step(s, op).maps.Keys
    ensures Held(Step(s, op))
  {
    hide Good, Step, Enabled, Needed;
    forall a | Needed(Step(s, op), a)
      ensures a in Step(s, op).maps
    {
      NeededBefore(s, op, a);
    }
  }

  lemma MapParamMaps(s: State, r: Rid, i: nat, a: Mid, pos: int)
    requires Mappable(s, r, i) ==> Reachable(s, r, i)
    ensures s.maps.Keys <= MapParam(s, r, i, a, pos).maps.Keys
  {
    hide HasOpen;
  }

  lemma DroppedMaps(s: State, pd: Pd)
    requires Good(s) && pd in s.mapped
    ensures SameRequests(s, DeleteDir(s, pd))
    ensures forall a :: a in DeleteDir(s, pd).maps <==> a in s.maps && s.maps[a].pd != pd
  {
    hide Good, Emptied, SameElsewhere;
    EmptiedInv(s, pd);
    EmptiedKeeps(s, pd);
    forall a: Mid
      ensures a in Emptied(s, pd).maps <==> a in s.maps && s.maps[a].pd != pd
    {
      ElsewhereMaps(s, Emptied(s, pd), pd, a);
      ElsewhereMaps(Emptied(s, pd), s, pd, a);
      if a in Emptied(s, pd).maps {
        EmptyListed(Emptied(s, pd), pd, a);
      }
    }
  }

  /** A map of another directory is listed there, before as after. */
  lemma ElsewhereMaps(s: State, t: State, pd: Pd, a: Mid)
    requires Good(s) && Good(t) && (SameElsewhere(s, t, pd) || SameElsewhere(t, s, pd))
    ensures a in s.maps && s.maps[a].pd != pd ==> a in t.maps
    ensures a in s.maps && s.maps[a].pd != pd && a in t.maps ==> t.maps[a].pd == s.maps[a].pd
  {
    hide Exact, PagesOk, CountsOk, NamesOk, Rooted, Apart;
    if a in s.maps && s.maps[a].pd != pd {
      assert a in s.mapped[s.maps[a].pd];
      assert a in t.mapped[s.maps[a].pd];
    }
  }

  lemma EmptyListed(s: State, pd: Pd, a: Mid)
    requires Good(s) && pd in s.mapped && s.mapped[pd] == [] && a in s.maps
    ensures s.maps[a].pd != pd
  {
    hide Exact, PagesOk, CountsOk, NamesOk, Rooted, Apart;
  }

  /** `request_answer` takes away exactly the maps that the receiver has made for it. */
  lemma {:induction false} RcvUnmapped(s: State, params: seq<Param>)
    requires Inv(s)
    ensures forall a :: a in UnmapRcv(s, params).maps <==> a in s.maps && !MadeBy(params, a)
    decreases |params|
  {
    if params != [] {
      OneUnmapped(s, params[0]);
      UnmapOneInv(s, params[0]);
      hide Inv, UnmapOne;
      RcvUnmapped(UnmapOne(s, params[0]), params[1..]);
      forall a: Mid
        ensures MadeBy(params, a) <==> (params[0].Shm? && params[0].rcv == Some(a)) || MadeBy(params[1..], a)
      {
        MadeFirst(params, a);
      }
    }
  }

  lemma MadeFirst(params: seq<Param>, a: Mid)
    requires params != []
    ensures MadeBy(params, a) <==> (params[0].Shm? && params[0].rcv == Some(a)) || MadeBy(params[1..], a)
  {
    if MadeBy(params[1..], a) {
      var i :| 0 <= i < |params[1..]| && params[1..][i].Shm? && params[1..][i].rcv == Some(a);
      assert params[i + 1] == params[1..][i];
    }
    if MadeBy(params, a) {
      var i :| 0 <= i < |params| && params[i].Shm? && params[i].rcv == Some(a);
      assert i > 0 ==> params[1..][i - 1] == params[i];
    }
  }

  lemma OneUnmapped(s: State, p: Param)
    requires Inv(s)
    ensures forall a :: a in UnmapOne(s, p).maps <==> a in s.maps && !(p.Shm? && p.rcv == Some(a))
  {
    hide Inv, Unmap, Unmappable;
    if p.Shm? && p.rcv.Some? {
      ThereUnmappable(s, p.rcv.value);
      if p.rcv.value in s.maps {
        UnmapKeeps(s, p.rcv.value);
      }
    }
  }

  lemma ThereUnmappable(s: State, a: Mid)
    requires Inv(s)
    ensures Unmappable(s, a) <==> a in s.maps
  {
    hide Exact, PagesOk, NamesOk, Open, Inflight, Abandoned, MapsOf, Apart;
  }

  lemma AnswerHeldIff(s: State, r: Rid)
    requires Good(s) && Held(s)
    ensures Held(Answer(s, r)) <==> Spares(s, AnswerRequest(r))
  {
    hide Needs, UnmapRcv, Inv, MadeBy;
    if r in s.requests && s.requests[r].processed && s.requests[r].blocking {
      var ps, t := s.requests[r].params, Answer(s, r);
      UnmapRcvInv(s, ps);
      RcvUnmapped(s, ps);
      forall q, a: Mid | q in s.requests && q != r && Needs(s.requests[q], a)
        ensures Needed(s, a) && Needed(t, a)
      {
        assert Needs(t.requests[q], a);
      }
    }
  }

  /** A run in which every step spares the maps that requests need. */
  ghost predicate Careful(s: State, ops: seq<Op>, t: State)
    requires Good(s)
    decreases |ops|
  {
    if ops == [] then t == s
    else
      Enabled(s, ops[0]) && Spares(s, ops[0]) &&
      (Typed(s);
       StepGood(s, ops[0]);
       Careful(Step(s, ops[0]), ops[1..], t))
  }

  /** Such a run never uses a freed map. */
  lemma {:induction false} CarefulNeverFaults(s: State, ops: seq<Op>, t: State)
    requires Good(s) && Held(s) && !s.fault && Careful(s, ops, t)
    ensures Good(t) && Held(t) && !t.fault
    decreases |ops|
  {
    if ops != [] {
      Typed(s);
      StepGood(s, ops[0]);
      HeldSafe(s, ops[0]);
      HeldIff(s, ops[0]);
      hide Good, WellTyped, Enabled, Step, Held, Needed, Spares;
      CarefulNeverFaults(Step(s, ops[0]), ops[1..], t);
    }
  }

  /** A sender that unmaps what it sent before the receiver maps it makes `request_mapShm` follow a freed map. */
  lemma SenderUnmapsFirst(s: State, r: Rid, i: nat, t: State, b: Mid, pos: int)
    requires Good(s) && Mappable(s, r, i) && s.requests[r].params[i].rcv.None?
    requires Unmappable(s, s.requests[r].params[i].sndr)
    requires t == Unmap(s, s.requests[r].params[i].sndr)
    ensures Good(t) && Dangles(t, MapParameter(r, i, b, pos)) && MapParam(t, r, i, b, pos).fault
  {
    hide Unmap, Good;
    var a := s.requests[r].params[i].sndr;
    RootedUnmap(s, a);
    UnmapMapped(s, a);
  }

  /** A receiver that unmaps what it mapped before answering makes `request_answer` unmap it once more. */
  lemma ReceiverUnmapsFirst(s: State, r: Rid, i: nat, a: Mid, t: State)
    requires Good(s) && !s.fault && Mappable(s, r, i) && s.requests[r].blocking
    requires s.requests[r].params[i].rcv == Some(a) && Unmappable(s, a) && t == Unmap(s, a)
    ensures Good(t) && Dangles(t, AnswerRequest(r)) && Answer(t, r).fault
  {
    hide Unmap, Answer, Inv;
    RootedUnmap(s, a);
    UnmapMapped(s, a);
    AnswerFaultsIff(t, r);
  }

  /** A parameter mapped a second time leaves its segment with one reference too few. */
  lemma MappedTwice(s: State, r: Rid, i: nat, a: Mid, pos: int)
    requires Good(s) && Mappable(s, r, i) && Reachable(s, r, i) && s.requests[r].params[i].sndr in s.maps
    requires s.requests[r].blocking
    requires MayMap(s, s.requests[r].params[i].seg, a, s.requests[r].to, pos)
    ensures CountsOk(MapParam(s, r, i, a, pos)) <==> s.requests[r].params[i].rcv.None?
  {
    hide Inv, MayMap, CountsOk;
    MarkedCountsIff(s, r, i, a, pos);
    assert MapParam(s, r, i, a, pos) == Marked(s, r, i, a, pos);
  }
}
