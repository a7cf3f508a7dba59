/**
 Shared memory handed over with requests: what `mkrequest`, `request_get`, `request_mapShm` and `request_answer` do to
 segments, maps and counts, and where they use a map that has been freed.
 */
module FrameRequests {
  import opened Common
  import opened FrameModel
  import opened FrameInv

  // ---------------------------------------------------------------- the operations

  /** A reference for what `shmseg_getByOff` found in the sender's directory, if the parameter carries shared memory. */
  function AddParam(s: State, r: Rid, found: Option<Mid>): (t: State)
    requires r in s.requests && Findable(s, found)
    ensures r in t.requests && forall f :: Findable(t, f) <==> Findable(s, f)
  {
    var rq := s.requests[r];
    if found.None? then s.(requests := s.requests[r := rq.(params := rq.params + [Nothing])])
    else
      var sid := s.maps[found.value].seg;
      s.(requests := s.requests[r := rq.(params := rq.params + [Shm(found.value, sid, None)])],
         mappings := s.mappings[sid := s.mappings[sid] + 1])
  }

  predicate Findable(s: State, found: Option<Mid>)
  {
    found.Some? ==> found.value in s.maps && s.maps[found.value].seg in s.mappings
  }

  /** The loop of `mkrequest` over the parameters. */
  function AddParams(s: State, r: Rid, found: seq<Option<Mid>>): State
    requires r in s.requests && forall i :: 0 <= i < |found| ==> Findable(s, found[i])
    decreases |found|
  {
    if found == [] then s
    else
      assert forall i :: 0 <= i < |found[1..]| ==> Findable(s, found[i + 1]) && found[1..][i] == found[i + 1];
      AddParams(AddParam(s, r, found[0]), r, found[1..])
  }

  /** `mkrequest`: within one process nothing is handed over. */
  function Post(s: State, r: Rid, from: Pd, to: Pd, blocking: bool, found: seq<Option<Mid>>): State
    requires forall i :: 0 <= i < |found| ==> Findable(s, found[i])
  {
    var t := s.(requests := s.requests[r := Request(from, to, blocking, false, [])]);
    assert forall f :: Findable(t, f) <==> Findable(s, f);
    AddParams(t, r, if from == to then [None, None, None] else found)
  }

  predicate HasShm(rq: Request) { exists i :: 0 <= i < |rq.params| && rq.params[i].Shm? }

  predicate HasOpen(rq: Request) { exists i :: 0 <= i < |rq.params| && rq.params[i].Shm? && rq.params[i].rcv.None? }

  /** `request_get`: a message without shared memory is done with. */
  function Get(s: State, r: Rid): State
  {
    if r !in s.requests || s.requests[r].processed then s
    else if s.requests[r].blocking || HasShm(s.requests[r]) then
      s.(requests := s.requests[r := s.requests[r].(processed := true)])
    else s.(requests := s.requests - {r})
  }

  predicate Mappable(s: State, r: Rid, i: nat)
  {
    r in s.requests && s.requests[r].processed && i < |s.requests[r].params| && s.requests[r].params[i].Shm?
  }

  predicate Reachable(s: State, r: Rid, i: nat)
    requires Mappable(s, r, i)
  {
    var a := s.requests[r].params[i].sndr;
    a in s.maps ==> s.maps[a].seg in s.segs && s.maps[a].seg in s.mappings && s.requests[r].to in s.mapped
  }

  /**
   `request_mapShm` on parameter `i`, as it is written: it does not look whether the parameter has been mapped before.
   */
  function MapParam(s: State, r: Rid, i: nat, a: Mid, pos: int): State
    requires Mappable(s, r, i) ==> Reachable(s, r, i)
  {
    if !Mappable(s, r, i) then s
    else if s.requests[r].params[i].sndr !in s.maps then s.(fault := true)
    else
      var rq := s.requests[r];
      var p := rq.params[i];
      var t := Mapped(s, s.maps[p.sndr].seg, a, rq.to, pos);
      var rq1 := rq.(params := rq.params[i := p.(rcv := Some(a))]);
      if rq1.blocking || HasOpen(rq1) then t.(requests := t.requests[r := rq1]) else t.(requests := t.requests - {r})
  }

  /** A map made and the reference that stood for it given up. */
  function Mapped(s: State, sid: Sid, a: Mid, pd: Pd, pos: int): State
    requires sid in s.segs && sid in s.mappings && pd in s.mapped
  {
    var t := Map(s, sid, a, pd, pos);
    t.(mappings := t.mappings[sid := t.mappings[sid] - 1])
  }

  predicate Unmappable(s: State, a: Mid)
  {
    a in s.maps && s.maps[a].pd in s.mapped && s.maps[a].seg in s.mappings && s.maps[a].seg in s.segs
  }

  /** The loop of `request_answer` over the receiver's maps. */
  function UnmapRcv(s: State, params: seq<Param>): State
    decreases |params|
  {
    if params == [] then s else UnmapRcv(UnmapOne(s, params[0]), params[1..])
  }

  function UnmapOne(s: State, p: Param): State
  {
    if !p.Shm? || p.rcv.None? then s else if Unmappable(s, p.rcv.value) then Unmap(s, p.rcv.value)
        else s.(fault := true)
  }

  /** `request_answer`. */
  function Answer(s: State, r: Rid): State
  {
    if r !in s.requests || !s.requests[r].processed || !s.requests[r].blocking then s
    else
      var t := UnmapRcv(s, s.requests[r].params);
      t.(requests := t.requests - {r}, answered := t.answered[r := s.requests[r]])
  }

  // ---------------------------------------------------------------- open parameters

  /** Only what is open in request `r` differs. */
  ghost predicate OpenBut(rs: map<Rid, Request>, qs: map<Rid, Request>, r: Rid)
  {
    forall sid, k: (Rid, nat) :: k.0 != r ==> (k in Open(qs, sid) <==> k in Open(rs, sid))
  }

  lemma OpenIn(rs: map<Rid, Request>, sid: Sid, r: Rid, i: nat)
    ensures (r, i) in Open(rs, sid) <==>
              r in rs && i < |rs[r].params| && rs[r].params[i].Shm? && rs[r].params[i].seg == sid &&
                  rs[r].params[i].rcv.None?
  {
  }

  lemma OpenUpdated(rs: map<Rid, Request>, qs: map<Rid, Request>, r: Rid)
    requires forall q :: q != r ==> (q in qs <==> q in rs) && (q in rs && q in qs ==> qs[q] == rs[q])
    ensures OpenBut(rs, qs, r)
  {
    forall sid, k: (Rid, nat) | k.0 != r
      ensures k in Open(qs, sid) <==> k in Open(rs, sid)
    {
      assert k == (k.0, k.1);
      OpenIn(rs, sid, k.0, k.1);
      OpenIn(qs, sid, k.0, k.1);
    }
  }

  /** Requests that carry the same open parameters at the same places. */
  ghost predicate SameOpen(rq: Request, rq1: Request)
  {
    forall sid, i :: OpenAt(rq, sid, i) <==> OpenAt(rq1, sid, i)
  }

  predicate OpenAt(rq: Request, sid: Sid, i: int)
  {
    0 <= i < |rq.params| && rq.params[i].Shm? && rq.params[i].seg == sid && rq.params[i].rcv.None?
  }

  lemma OpenEqual(rs: map<Rid, Request>, qs: map<Rid, Request>, r: Rid)
    requires OpenBut(rs, qs, r) && r in rs
    requires if r in qs then SameOpen(rs[r], qs[r]) else !HasOpen(rs[r])
    ensures forall sid :: Open(qs, sid) == Open(rs, sid)
  {
    forall sid, k: (Rid, nat)
      ensures k in Open(qs, sid) <==> k in Open(rs, sid)
    {
      assert k == (k.0, k.1);
      OpenIn(rs, sid, k.0, k.1);
      OpenIn(qs, sid, k.0, k.1);
      if k.0 == r && r in qs {
        assert OpenAt(rs[r], sid, k.1) <==> OpenAt(qs[r], sid, k.1);
      }
    }
  }

  // ---------------------------------------------------------------- keeping the invariant

  /** Requests, counts and the fault flag do not touch frames, pages and maps. */
  lemma SameBody(s: State, t: State)
    requires Exact(s) && PagesOk(s) && MapsOk(s)
    requires t == s.(mappings := t.mappings, requests := t.requests, answered := t.answered, fault := t.fault)
    ensures Exact(t) && PagesOk(t) && MapsOk(t)
  {
    hide NamesOk, Exact, MapsOk, Covers, First;
    assert forall h, f :: Holds(t, h, f) <==> Holds(s, h, f);
    ExactSame(s, t);
    MapsSame(s, t);
  }

  lemma FaultSet(s: State)
    requires Inv(s)
    ensures Inv(s.(fault := true))
  {
    hide NamesOk, Exact, PagesOk, MapsOk, CountsOk;
    var t := s.(fault := true);
    SameBody(s, t);
    CountsSame(s, t);
    NamesSame(s, t);
  }

  /** A request replaced by one with the same open parameters, or removed when it has none. */
  lemma Replaced(s: State, t: State, r: Rid)
    requires Inv(s) && r in s.requests && t == s.(requests := t.requests)
    requires forall q :: q != r ==>
             (q in t.requests <==> q in s.requests) &&
             (q in s.requests && q in t.requests ==> t.requests[q] == s.requests[q])
    requires if r in t.requests then t.requests[r].params == s.requests[r].params else !HasOpen(s.requests[r])
    ensures Inv(t)
  {
    hide NamesOk, Exact, PagesOk, MapsOk, CountsOk, HasOpen;
    SameBody(s, t);
    OpenUpdated(s.requests, t.requests, r);
    OpenEqual(s.requests, t.requests, r);
    CountsMoved(s, t);
    NamesReplaced(s, t, r);
  }

  lemma NamesReplaced(s: State, t: State, r: Rid)
    requires NamesOk(s) && r in s.requests && t == s.(requests := t.requests)
    requires forall q :: q != r ==>
             (q in t.requests <==> q in s.requests) &&
             (q in s.requests && q in t.requests ==> t.requests[q] == s.requests[q])
    requires r in t.requests ==> t.requests[r].params == s.requests[r].params
    ensures NamesOk(t)
  {
    forall q | q in t.requests
      ensures RequestOk(t, t.requests[q])
    {
      assert RequestOk(s, s.requests[q]);
    }
  }

  /** The same maps, and counts that follow the open parameters. */
  lemma CountsMoved(s: State, t: State)
    requires CountsOk(s) && t.maps == s.maps && t.segs.Keys == s.segs.Keys && t.mappings.Keys == s.mappings.Keys
    requires forall sid :: sid in s.segs && sid in s.mappings && sid in t.mappings ==>
               t.mappings[sid] - |Open(t.requests, sid)| - |Open(t.answered, sid)| ==
               s.mappings[sid] - |Open(s.requests, sid)| - |Open(s.answered, sid)|
    requires forall sid :: sid !in s.segs ==>
             Open(t.requests, sid) == Open(s.requests, sid) && Open(t.answered, sid) == Open(s.answered, sid)
    ensures CountsOk(t)
  {
    hide Open;
    assert forall sid :: MapsOf(t, sid) == MapsOf(s, sid);
  }

  /** Receiving changes the request alone, not its parameters. */
  lemma GetKeeps(s: State, r: Rid)
    ensures var t := Get(s, r);
            && t == s.(requests := t.requests)
            && forall q :: q in t.requests ==>
                 q in s.requests && t.requests[q].params == s.requests[q].params &&
                     t.requests[q].blocking == s.requests[q].blocking
  {
    hide HasShm;
  }

  lemma OpenIsShm(s: State, r: Rid)
    ensures r in s.requests && HasOpen(s.requests[r]) ==> HasShm(s.requests[r])
  {
  }

  lemma GetInv(s: State, r: Rid)
    requires Inv(s)
    ensures Inv(Get(s, r))
  {
    hide Inv, HasShm, HasOpen;
    OpenIsShm(s, r);
    var t := Get(s, r);
    if t != s {
      Replaced(s, t, r);
    }
  }

  lemma BeginInv(s: State, r: Rid, rq: Request)
    requires Inv(s) && r !in s.requests && r !in s.answered && rq.params == []
    ensures Inv(s.(requests := s.requests[r := rq]))
  {
    hide NamesOk, Exact, PagesOk, MapsOk, CountsOk;
    var t := s.(requests := s.requests[r := rq]);
    SameBody(s, t);
    assert forall sid :: Open(t.requests, sid) == Open(s.requests, sid);
    CountsMoved(s, t);
    BeginNames(s, t, r);
  }

  lemma BeginNames(s: State, t: State, r: Rid)
    requires NamesOk(s) && r !in s.requests && r !in s.answered && r in t.requests && t.requests[r].params == []
    requires t == s.(requests := s.requests[r := t.requests[r]])
    ensures NamesOk(t)
  {
    forall q | q in t.requests
      ensures RequestOk(t, t.requests[q])
    {
      assert q != r ==> RequestOk(s, s.requests[q]);
    }
  }

  lemma OpenAdded(s: State, t: State, r: Rid, found: Option<Mid>)
    requires r in s.requests && Findable(s, found) && t == AddParam(s, r, found)
    ensures found.None? ==> forall sid :: Open(t.requests, sid) == Open(s.requests, sid)
    ensures found.Some? ==>
              var k, seg := (r, |s.requests[r].params|), s.maps[found.value].seg;
              && k !in Open(s.requests, seg)
              && forall sid :: Open(t.requests, sid) == if sid == seg then Open(s.requests, sid) + {k}
                  else Open(s.requests, sid)
  {
    OpenUpdated(s.requests, t.requests, r);
    hide OpenBut;
    var n := |s.requests[r].params|;
    forall sid, k: (Rid, nat)
      ensures k in Open(t.requests, sid) <==>
              k in Open(s.requests, sid) || (k == (r, n) && found.Some? && sid == s.maps[found.value].seg)
    {
      AddedAt(s, t, r, found, sid, k);
    }
    if found.Some? {
      OpenIn(s.requests, s.maps[found.value].seg, r, n);
    }
    hide Open;
  }

  lemma AddedAt(s: State, t: State, r: Rid, found: Option<Mid>, sid: Sid, k: (Rid, nat))
    requires r in s.requests && Findable(s, found) && t == AddParam(s, r, found) && OpenBut(s.requests, t.requests, r)
    ensures k in Open(t.requests, sid) <==>
              k in Open(s.requests, sid) ||
                  (k == (r, |s.requests[r].params|) && found.Some? && sid == s.maps[found.value].seg)
  {
    assert k == (k.0, k.1);
    OpenIn(s.requests, sid, k.0, k.1);
    OpenIn(t.requests, sid, k.0, k.1);
  }

  lemma AddParamInv(s: State, r: Rid, found: Option<Mid>)
    requires Inv(s) && r in s.requests && Findable(s, found)
    ensures Inv(AddParam(s, r, found))
  {
    hide NamesOk, Exact, PagesOk, MapsOk, CountsOk, Open;
    var t := AddParam(s, r, found);
    SameBody(s, t);
    OpenAdded(s, t, r, found);
    CountsAdded(s, t, r, found);
    AddParamNames(s, t, r, found);
  }

  lemma CountsAdded(s: State, t: State, r: Rid, found: Option<Mid>)
    requires CountsOk(s) && r in s.requests && Findable(s, found) && t == AddParam(s, r, found)
    requires found.None? ==> forall sid :: Open(t.requests, sid) == Open(s.requests, sid)
    requires found.Some? ==>
               var k, seg := (r, |s.requests[r].params|), s.maps[found.value].seg;
               && k !in Open(s.requests, seg)
               && forall sid :: Open(t.requests, sid) == if sid == seg then Open(s.requests, sid) + {k}
                   else Open(s.requests, sid)
    ensures CountsOk(t)
  {
    hide Open, CountsOk;
    KeysOf(s);
    CountsMoved(s, t);
  }

  lemma KeysOf(s: State)
    requires CountsOk(s)
    ensures s.mappings.Keys == s.segs.Keys
  {
  }

  lemma AddParamNames(s: State, t: State, r: Rid, found: Option<Mid>)
    requires NamesOk(s) && r in s.requests && Findable(s, found) && t == AddParam(s, r, found)
    ensures NamesOk(t)
  {
    forall q | q in t.requests
      ensures RequestOk(t, t.requests[q])
    {
      assert RequestOk(s, s.requests[q]);
      assert forall i :: 0 <= i < |s.requests[q].params| ==>
             ParamOk(s, s.requests[q].params[i]) && ParamOk(t, s.requests[q].params[i]);
    }
  }

  lemma {:induction false} AddParamsInv(s: State, r: Rid, found: seq<Option<Mid>>)
    requires Inv(s) && r in s.requests && forall i :: 0 <= i < |found| ==> Findable(s, found[i])
    ensures Inv(AddParams(s, r, found))
    decreases |found|
  {
    hide Inv;
    if found != [] {
      AddParamInv(s, r, found[0]);
      AddParamsInv(AddParam(s, r, found[0]), r, found[1..]);
    }
  }

  lemma PostInv(s: State, r: Rid, from: Pd, to: Pd, blocking: bool, found: seq<Option<Mid>>)
    requires Inv(s) && r !in s.requests && r !in s.answered && forall i :: 0 <= i < |found| ==> Findable(s, found[i])
    ensures Inv(Post(s, r, from, to, blocking, found))
  {
    hide Inv;
    var rq := Request(from, to, blocking, false, []);
    BeginInv(s, r, rq);
    AddParamsInv(s.(requests := s.requests[r := rq]), r, if from == to then [None, None, None] else found);
  }

  // ---------------------------------------------------------------- mapping a parameter

  /** The map is made and the parameter marked, the request staying. */
  ghost function Marked(s: State, r: Rid, i: nat, a: Mid, pos: int): State
    requires Mappable(s, r, i) && Reachable(s, r, i) && s.requests[r].params[i].sndr in s.maps
  {
    var rq := s.requests[r];
    var t := Mapped(s, s.maps[rq.params[i].sndr].seg, a, rq.to, pos);
    t.(requests := t.requests[r := rq.(params := rq.params[i := rq.params[i].(rcv := Some(a))])])
  }

  lemma OpenMarked(s: State, r: Rid, i: nat, a: Mid, pos: int)
    requires Mappable(s, r, i) && Reachable(s, r, i) && s.requests[r].params[i].sndr in s.maps
    ensures var t, p := Marked(s, r, i, a, pos), s.requests[r].params[i];
            forall sid :: Open(t.requests, sid) == if sid == p.seg && p.rcv.None? then Open(s.requests, sid) - {(r, i)}
                else Open(s.requests, sid)
    ensures s.requests[r].params[i].rcv.None? ==> (r, i) in Open(s.requests, s.requests[r].params[i].seg)
  {
    var t, p := Marked(s, r, i, a, pos), s.requests[r].params[i];
    OpenUpdated(s.requests, t.requests, r);
    OpenIn(s.requests, p.seg, r, i);
    forall sid, k: (Rid, nat)
      ensures k in Open(t.requests, sid) <==> k in Open(s.requests, sid) && k != (r, i)
    {
      assert k == (k.0, k.1);
      OpenIn(s.requests, sid, k.0, k.1);
      OpenIn(t.requests, sid, k.0, k.1);
    }
    forall sid | sid != p.seg || p.rcv.Some?
      ensures (r, i) !in Open(s.requests, sid)
    {
      OpenIn(s.requests, sid, r, i);
    }
    hide Open, OpenBut;
  }

  lemma SenderSeg(s: State, r: Rid, i: nat)
    requires NamesOk(s) && Mappable(s, r, i) && s.requests[r].params[i].sndr in s.maps
    ensures s.maps[s.requests[r].params[i].sndr].seg == s.requests[r].params[i].seg
  {
    assert RequestOk(s, s.requests[r]);
    assert ParamOk(s, s.requests[r].params[i]);
  }

  /** The counts stay right exactly if the parameter had not been mapped before. */
  lemma MarkedCountsIff(s: State, r: Rid, i: nat, a: Mid, pos: int)
    requires Inv(s) && Mappable(s, r, i) && Reachable(s, r, i) && s.requests[r].params[i].sndr in s.maps
    requires MayMap(s, s.requests[r].params[i].seg, a, s.requests[r].to, pos)
    ensures CountsOk(Marked(s, r, i, a, pos)) <==> s.requests[r].params[i].rcv.None?
  {
    hide NamesOk, Exact, PagesOk, MapsOk, CountsOk, Open, Apart;
    var p := s.requests[r].params[i];
    SenderSeg(s, r, i);
    OpenMarked(s, r, i, a, pos);
    var m := Map(s, p.seg, a, s.requests[r].to, pos);
    MapCounts(s, p.seg, a, s.requests[r].to, pos);
    var t := Marked(s, r, i, a, pos);
    KeysOf(m);
    if p.rcv.None? {
      CountsMoved(m, t);
    } else {
      TooMany(m, t, p.seg);
    }
  }

  lemma TooMany(m: State, t: State, sid: Sid)
    requires CountsOk(m) && sid in m.segs && sid in m.mappings && t.maps == m.maps && t.segs == m.segs
    requires t.answered == m.answered
    requires t.mappings == m.mappings[sid := m.mappings[sid] - 1] && Open(t.requests, sid) == Open(m.requests, sid)
    ensures !CountsOk(t)
  {
    hide Open;
    assert MapsOf(t, sid) == MapsOf(m, sid);
  }

  lemma MarkedNames(s: State, r: Rid, i: nat, a: Mid, pos: int)
    requires NamesOk(s) && Mappable(s, r, i) && Reachable(s, r, i) && s.requests[r].params[i].sndr in s.maps
    requires MayMap(s, s.requests[r].params[i].seg, a, s.requests[r].to, pos)
    ensures NamesOk(Marked(s, r, i, a, pos))
  {
    hide Apart, NamesOk;
    SenderSeg(s, r, i);
    var sid := s.requests[r].params[i].seg;
    MapNames(s, sid, a, s.requests[r].to, pos);
    var m, t := Map(s, sid, a, s.requests[r].to, pos), Marked(s, r, i, a, pos);
    MarkNames(s, m, t, r, i, a, sid);
  }

  lemma MarkNames(s: State, m: State, t: State, r: Rid, i: nat, a: Mid, sid: Sid)
    requires NamesOk(s) && NamesOk(m) && r in s.requests && i < |s.requests[r].params| && s.requests[r].params[i].Shm?
    requires a !in s.maps && a !in s.freed && m.requests == s.requests && s.requests[r].params[i].seg == sid
    requires Names(m, a, sid)
    requires t.maps == m.maps && t.freed == m.freed && t.answered == m.answered
    requires t.requests ==
             m.requests[r := m.requests[r].(params := m.requests[r].params[i := m.requests[r].params[i].(rcv := Some(a))])]
    ensures NamesOk(t)
  {
    assert forall b, q :: Names(m, b, q) ==> Names(t, b, q);
    forall q | q in t.requests
      ensures RequestOk(t, t.requests[q])
    {
      assert RequestOk(s, s.requests[q]) && RequestOk(m, m.requests[q]);
      if q == r {
        OnceMarked(s, m, t, s.requests[r], i, a, sid);
      }
    }
  }

  lemma OnceMarked(s: State, m: State, t: State, rq: Request, i: nat, a: Mid, sid: Sid)
    requires RequestOk(s, rq) && RequestOk(m, rq) && i < |rq.params| && rq.params[i].Shm? && rq.params[i].seg == sid
    requires a !in s.maps && a !in s.freed && t.maps == m.maps && t.freed == m.freed && Names(m, a, sid)
    ensures RequestOk(t, rq.(params := rq.params[i := rq.params[i].(rcv := Some(a))]))
  {
    var ps := rq.params[i := rq.params[i].(rcv := Some(a))];
    forall j | 0 <= j < |ps|
      ensures ParamOk(t, ps[j])
    {
      assert ParamOk(m, rq.params[j]);
    }
    forall j | 0 <= j < |ps| && j != i && rq.params[j].Shm? && rq.params[j].rcv.Some?
      ensures rq.params[j].rcv.value != a
    {
      assert ParamOk(s, rq.params[j]);
    }
  }

  lemma MarkedInv(s: State, r: Rid, i: nat, a: Mid, pos: int)
    requires Inv(s) && Mappable(s, r, i) && Reachable(s, r, i) && s.requests[r].params[i].sndr in s.maps
    requires s.requests[r].params[i].rcv.None? && MayMap(s, s.requests[r].params[i].seg, a, s.requests[r].to, pos)
    ensures Inv(Marked(s, r, i, a, pos))
  {
    hide NamesOk, Exact, PagesOk, MapsOk, CountsOk, MayMap, Map;
    SenderSeg(s, r, i);
    MarkedCountsIff(s, r, i, a, pos);
    MarkedNames(s, r, i, a, pos);
    MapInv(s, s.requests[r].params[i].seg, a, s.requests[r].to, pos);
    SameBody(Map(s, s.requests[r].params[i].seg, a, s.requests[r].to, pos), Marked(s, r, i, a, pos));
  }

  /** Mapping a parameter, each at most once, turns its reference into a map. */
  lemma MapParamInv(s: State, r: Rid, i: nat, a: Mid, pos: int)
    requires Inv(s) && (Mappable(s, r, i) ==> Reachable(s, r, i))
    requires Mappable(s, r, i) && s.requests[r].params[i].sndr in s.maps ==>
               s.requests[r].params[i].rcv.None? && MayMap(s, s.requests[r].params[i].seg, a, s.requests[r].to, pos)
    ensures Inv(MapParam(s, r, i, a, pos))
  {
    hide Inv, MayMap, Map, HasOpen;
    if Mappable(s, r, i) {
      if s.requests[r].params[i].sndr !in s.maps {
        FaultSet(s);
      } else {
        MarkedInv(s, r, i, a, pos);
        var m, t := Marked(s, r, i, a, pos), MapParam(s, r, i, a, pos);
        if t != m {
          Replaced(m, t, r);
        }
      }
    }
  }

  // ---------------------------------------------------------------- answering

  lemma UnmapOneInv(s: State, p: Param)
    requires Inv(s)
    ensures var t := UnmapOne(s, p);
            && Inv(t) && t.requests == s.requests && t.answered == s.answered && t.kernel == s.kernel
            && (t == s || t == s.(fault := true) ||
                (p.Shm? && p.rcv.Some? && Unmappable(s, p.rcv.value) && t == Unmap(s, p.rcv.value)))
            && (forall a :: a in t.maps ==> a in s.maps && t.maps[a] == s.maps[a])
  {
    hide Inv, Unmap;
    FaultSet(s);
    if p.Shm? && p.rcv.Some? && Unmappable(s, p.rcv.value) {
      UnmapInv(s, p.rcv.value);
      UnmapKeeps(s, p.rcv.value);
    }
  }

  lemma {:induction false} UnmapRcvInv(s: State, params: seq<Param>)
    requires Inv(s)
    ensures var t := UnmapRcv(s, params);
            && Inv(t) && t.requests == s.requests && t.answered == s.answered && t.kernel == s.kernel
            && (forall a :: a in t.maps ==> a in s.maps && t.maps[a] == s.maps[a])
    decreases |params|
  {
    hide Inv, UnmapOne;
    if params != [] {
      UnmapOneInv(s, params[0]);
      UnmapRcvInv(UnmapOne(s, params[0]), params[1..]);
    }
  }

  lemma UnmapKeeps(s: State, a: Mid)
    requires Unmappable(s, a)
    ensures var t := Unmap(s, a);
            && t.requests == s.requests && t.answered == s.answered && t.kernel == s.kernel && t.fault == s.fault
            && t.maps == s.maps - {a} && t.segs.Keys <= s.segs.Keys
  {
  }

  lemma OpenOfMoved(s: State, r: Rid, sid: Sid)
    requires r in s.requests && r !in s.answered
    ensures var mine := set k | k in Open(s.requests, sid) && k.0 == r;
            && Open(s.requests - {r}, sid) == Open(s.requests, sid) - mine
            && Open(s.answered[r := s.requests[r]], sid) == Open(s.answered, sid) + mine
            && mine !! Open(s.answered, sid) && mine <= Open(s.requests, sid)
  {
    var mine := set k | k in Open(s.requests, sid) && k.0 == r;
    forall k: (Rid, nat)
      ensures k in Open(s.requests - {r}, sid) <==> k in Open(s.requests, sid) - mine
      ensures k in Open(s.answered[r := s.requests[r]], sid) <==> k in Open(s.answered, sid) + mine
      ensures k in mine ==> k !in Open(s.answered, sid)
    {
      assert k == (k.0, k.1);
      OpenIn(s.requests - {r}, sid, k.0, k.1);
      OpenIn(s.requests, sid, k.0, k.1);
      OpenIn(s.answered, sid, k.0, k.1);
      OpenIn(s.answered[r := s.requests[r]], sid, k.0, k.1);
    }
    hide Open;
  }

  /** An answered request keeps what it left unmapped. */
  lemma MovedInv(s: State, r: Rid)
    requires Inv(s) && r in s.requests
    ensures Inv(s.(requests := s.requests - {r}, answered := s.answered[r := s.requests[r]]))
  {
    hide NamesOk, Exact, PagesOk, MapsOk, CountsOk, Open;
    var t := s.(requests := s.requests - {r}, answered := s.answered[r := s.requests[r]]);
    MovedNames(s, t, r);
    SameBody(s, t);
    forall sid
      ensures |Open(t.requests, sid)| + |Open(t.answered, sid)| == |Open(s.requests, sid)| + |Open(s.answered, sid)|
      ensures Open(s.requests, sid) == {} && Open(s.answered, sid) == {} ==>
              Open(t.requests, sid) == {} && Open(t.answered, sid) == {}
    {
      OpenOfMoved(s, r, sid);
    }
    KeysOf(s);
    NothingOutside(s);
    CountsMoved(s, t);
  }

  lemma NothingOutside(s: State)
    requires CountsOk(s)
    ensures forall sid :: sid !in s.segs ==> Open(s.requests, sid) == {} && Open(s.answered, sid) == {}
  {
    hide Open;
  }

  lemma MovedNames(s: State, t: State, r: Rid)
    requires NamesOk(s) && r in s.requests
    requires t == s.(requests := s.requests - {r}, answered := s.answered[r := s.requests[r]])
    ensures NamesOk(t) && r !in s.answered
  {
    forall q | q in t.requests
      ensures RequestOk(t, t.requests[q])
    {
      assert RequestOk(s, s.requests[q]);
    }
  }

  lemma AnswerInv(s: State, r: Rid)
    requires Inv(s)
    ensures Inv(Answer(s, r))
  {
    hide Inv, UnmapRcv;
    if r in s.requests && s.requests[r].processed && s.requests[r].blocking {
      UnmapRcvInv(s, s.requests[r].params);
      MovedInv(UnmapRcv(s, s.requests[r].params), r);
    }
  }

  // ---------------------------------------------------------------- where freed maps are used

  /** Some map that the receiver made for these parameters is no more. */
  predicate RcvGone(s: State, params: seq<Param>)
  {
    exists i :: 0 <= i < |params| && params[i].Shm? && params[i].rcv.Some? && params[i].rcv.value !in s.maps
  }

  /** Two maps that the receiver made are never the same. */
  predicate RcvApart(params: seq<Param>)
  {
    forall i, j :: 0 <= i < j < |params| && params[i].Shm? && params[j].Shm? && params[i].rcv.Some? ==>
        params[i].rcv != params[j].rcv
  }

  lemma {:induction false} UnmapRcvFaults(s: State, params: seq<Param>)
    requires Inv(s) && RcvApart(params)
    ensures UnmapRcv(s, params).fault <==> s.fault || RcvGone(s, params)
    decreases |params|
  {
    if params != [] {
      hide Inv, Unmap;
      var p, rest := params[0], params[1..];
      assert forall i :: 0 <= i < |rest| ==> rest[i] == params[i + 1];
      if p.Shm? && p.rcv.Some? {
        if Unmappable(s, p.rcv.value) {
          UnmapInv(s, p.rcv.value);
          UnmapKeeps(s, p.rcv.value);
          UnmapRcvFaults(Unmap(s, p.rcv.value), rest);
          GoneRest(s, Unmap(s, p.rcv.value), params);
        } else {
          GoneFirst(s, params);
          FaultSet(s);
          UnmapRcvFaults(s.(fault := true), rest);
        }
      } else {
        UnmapRcvFaults(s, rest);
        GoneLater(s, params);
      }
    }
  }

  lemma GoneRest(s: State, t: State, params: seq<Param>)
    requires params != [] && params[0].Shm? && params[0].rcv.Some? && params[0].rcv.value in s.maps
    requires RcvApart(params) && t.maps == s.maps - {params[0].rcv.value}
    ensures RcvGone(t, params[1..]) <==> RcvGone(s, params)
  {
    if RcvGone(t, params[1..]) {
      var i :| 0 <= i < |params[1..]| && params[1..][i].Shm? && params[1..][i].rcv.Some? &&
          params[1..][i].rcv.value !in t.maps;
      assert params[i + 1] == params[1..][i] && params[0].rcv != params[i + 1].rcv;
    }
    if RcvGone(s, params) {
      var i :| 0 <= i < |params| && params[i].Shm? && params[i].rcv.Some? && params[i].rcv.value !in s.maps;
      assert params[1..][i - 1] == params[i];
    }
  }

  lemma GoneFirst(s: State, params: seq<Param>)
    requires Inv(s) && params != [] && params[0].Shm? && params[0].rcv.Some? && !Unmappable(s, params[0].rcv.value)
    ensures RcvGone(s, params)
  {
    hide Inv;
    if params[0].rcv.value in s.maps {
      MapHasSeg(s, params[0].rcv.value);
    }
  }

  lemma GoneLater(s: State, params: seq<Param>)
    requires params != [] && !(params[0].Shm? && params[0].rcv.Some?)
    ensures RcvGone(s, params[1..]) <==> RcvGone(s, params)
  {
    if RcvGone(s, params) {
      var i :| 0 <= i < |params| && params[i].Shm? && params[i].rcv.Some? && params[i].rcv.value !in s.maps;
      assert params[1..][i - 1] == params[i];
    }
    if RcvGone(s, params[1..]) {
      var i :| 0 <= i < |params[1..]| && params[1..][i].Shm? && params[1..][i].rcv.Some? &&
          params[1..][i].rcv.value !in s.maps;
      assert params[i + 1] == params[1..][i];
    }
  }

  /** `request_answer` uses a freed map exactly if the receiver has unmapped one of those it made for the request. */
  lemma AnswerFaultsIff(s: State, r: Rid)
    requires Inv(s) && !s.fault
    ensures Answer(s, r).fault <==>
              r in s.requests && s.requests[r].processed && s.requests[r].blocking && RcvGone(s, s.requests[r].params)
  {
    hide Exact, PagesOk, MapsOk, CountsOk, UnmapRcv;
    if r in s.requests && s.requests[r].processed && s.requests[r].blocking {
      assert RequestOk(s, s.requests[r]);
      UnmapRcvFaults(s, s.requests[r].params);
    }
  }
}
