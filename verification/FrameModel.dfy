/**
 Physical frames, segments and page mappings: who holds which frame, and what mapping, faulting,
 resizing, unmapping and handing shared memory to another process do to it.
 */
module FrameModel {
  import opened Common
  import opened Lists


  type Pd = nat
  type Sid = nat
  type Mid = nat
  type Rid = nat

  /** A simple segment keeps no frames of its own; a shared one has a table, 0 for a page not touched yet. */
  datatype Segment = Simple(start: int, len: int, writable: bool) | Shared(frames: seq<nat>)

  /** A segment in a page directory. */
  datatype SegMap = SegMap(seg: Sid, pd: Pd, start: int, len: int)

  /** A present page; `via` is the map through which it was faulted in, a note of the model only. */
  datatype Page = Page(frame: nat, via: Mid)

  /**
   A parameter of a request: `sndr` is the sender's map, `seg` its segment, `rcv` the map the receiver has made of it.
   */
  datatype Param = Nothing | Shm(sndr: Mid, seg: Sid, rcv: Option<Mid>)

  datatype Request = Request(from: Pd, to: Pd, blocking: bool, processed: bool, params: seq<Param>)

  datatype State = State(
    used: set<nat>,                 // the frames marked in the bitset
    kernel: set<nat>,               // those the kernel has for itself, frame 0 among them
    pages: map<(Pd, int), Page>,    // by page directory and page number
    segs: map<Sid, Segment>,
    mappings: map<Sid, int>,
    maps: map<Mid, SegMap>,
    mapped: map<Pd, seq<Mid>>,      // newest first
    freed: set<Mid>,                // maps that are no more
    requests: map<Rid, Request>,    // the requests under way
    answered: map<Rid, Request>,    // the blocking ones that have been answered, as they then were
    fault: bool)                    // a freed map has been used

  // ---------------------------------------------------------------- pages of a map

  function First(m: SegMap): int { m.start / PAGE }

  /** The number of pages that the loops over [start, start + len) visit. */
  function Pages(len: int): int { if len <= 0 then 0 else (len + PAGE - 1) / PAGE }

  predicate Covers(m: SegMap, v: int) { First(m) <= v < First(m) + Pages(m.len) }

  ghost predicate Private(s: State, k: (Pd, int))
  {
    && k in s.pages && s.pages[k].via in s.maps
    && s.maps[s.pages[k].via].seg in s.segs && s.segs[s.maps[s.pages[k].via].seg].Simple?
  }

  // ---------------------------------------------------------------- who holds a frame

  datatype Holder = OfPage(k: (Pd, int)) | OfTable(sid: Sid, i: nat)

  ghost predicate Holds(s: State, h: Holder, f: nat)
  {
    f != 0 &&
    match h
    case OfPage(k) => Private(s, k) && s.pages[k].frame == f
    case OfTable(sid, i) =>
      sid in s.segs && s.segs[sid].Shared? && i < |s.segs[sid].frames| && s.segs[sid].frames[i] == f
  }

  /** The used frames are exactly the kernel's and the held ones, and each is held once. */
  ghost predicate Exact(s: State)
  {
    && 0 in s.kernel && s.kernel <= s.used
    && (forall h, f :: Holds(s, h, f) ==> f in s.used && f !in s.kernel)
    && (forall h, g, f :: Holds(s, h, f) && Holds(s, g, f) ==> h == g)
    && (forall f :: f in s.used && f !in s.kernel ==> exists h :: Holds(s, h, f))
  }

  /** A page lies in the map that brought it in; if the segment is shared it shows the frame of the table. */
  ghost predicate PageOk(s: State, k: (Pd, int))
    requires k in s.pages
  {
    && s.pages[k].via in s.maps && s.pages[k].frame != 0
    && var m := s.maps[s.pages[k].via];
       && m.pd == k.0 && Covers(m, k.1) && m.seg in s.segs
       && (s.segs[m.seg].Shared? ==>
             k.1 - First(m) < |s.segs[m.seg].frames| && s.segs[m.seg].frames[k.1 - First(m)] == s.pages[k].frame)
  }

  ghost predicate PagesOk(s: State) { forall k :: k in s.pages ==> PageOk(s, k) }

  ghost predicate Apart(m: SegMap, n: SegMap)
  {
    m.pd == n.pd ==> m.start + m.len <= n.start || n.start + n.len <= m.start
  }

  /** Maps are page-aligned, listed once in their directory, and do not overlap. */
  ghost predicate MapsOk(s: State)
  {
    && (forall a :: a in s.maps ==>
          && s.maps[a].seg in s.segs && 0 <= s.maps[a].start && s.maps[a].start % PAGE == 0 && 0 <= s.maps[a].len
          && s.maps[a].pd in s.mapped && a in s.mapped[s.maps[a].pd]
          && (s.segs[s.maps[a].seg].Shared? ==> Pages(s.maps[a].len) == |s.segs[s.maps[a].seg].frames|))
    && (forall d, a :: d in s.mapped && a in s.mapped[d] ==> a in s.maps && s.maps[a].pd == d)
    && (forall d :: d in s.mapped ==> NoTwice(s.mapped[d]))
    && (forall a, b :: a in s.maps && b in s.maps && a != b ==> Apart(s.maps[a], s.maps[b]))
  }

  ghost function MapsOf(s: State, sid: Sid): set<Mid> { set a | a in s.maps && s.maps[a].seg == sid }

  /** The parameters, by request and place, that carry segment `sid` and have not been mapped. */
  ghost function Open(rs: map<Rid, Request>, sid: Sid): set<(Rid, nat)>
  {
    set r, i | r in rs && 0 <= i < |rs[r].params| && rs[r].params[i].Shm? && rs[r].params[i].seg == sid &&
        rs[r].params[i].rcv.None? :: (r, i)
  }

  /** References of requests under way, and those left behind by requests that were answered without mapping. */
  ghost function Inflight(s: State, sid: Sid): nat { |Open(s.requests, sid)| }

  ghost function Abandoned(s: State, sid: Sid): nat { |Open(s.answered, sid)| }

  /** A segment's count is its maps and the parameters that carry it unmapped. */
  ghost predicate CountsOk(s: State)
  {
    && s.mappings.Keys == s.segs.Keys
    && (forall sid :: sid in s.segs ==> s.mappings[sid] == |MapsOf(s, sid)| + Inflight(s, sid) + Abandoned(s, sid))
    && (forall sid :: sid !in s.segs ==> Open(s.requests, sid) == {} && Open(s.answered, sid) == {})
  }

  /** Map `a` is one of segment `sid`, or is no more. */
  predicate Names(s: State, a: Mid, sid: Sid)
  {
    if a in s.maps then s.maps[a].seg == sid else a in s.freed
  }

  ghost predicate ParamOk(s: State, p: Param)
  {
    p.Shm? ==> Names(s, p.sndr, p.seg) && (p.rcv.Some? ==> Names(s, p.rcv.value, p.seg))
  }

  ghost predicate RequestOk(s: State, rq: Request)
  {
    && (forall i :: 0 <= i < |rq.params| ==> ParamOk(s, rq.params[i]))
    && (forall i, j :: 0 <= i < j < |rq.params| && rq.params[i].Shm? && rq.params[j].Shm? && rq.params[i].rcv.Some? ==>
          rq.params[i].rcv != rq.params[j].rcv)
  }

  /** Requests name maps of the segments they carry; no map is made twice. */
  ghost predicate NamesOk(s: State)
  {
    && s.freed !! s.maps.Keys
    && (forall r :: r in s.requests ==> RequestOk(s, s.requests[r]) && r !in s.answered)
  }

  ghost predicate Inv(s: State) { Exact(s) && PagesOk(s) && MapsOk(s) && CountsOk(s) && NamesOk(s) }

  // ---------------------------------------------------------------- adding and removing holders

  lemma ExactSame(s: State, t: State)
    requires Exact(s) && t.used == s.used && t.kernel == s.kernel && forall h, f :: Holds(t, h, f) <==> Holds(s, h, f)
    ensures Exact(t)
  {
    hide Holds;
  }

  lemma ExactAdd(s: State, t: State, g: Holder, f: nat)
    requires Exact(s) && f !in s.used && t.used == s.used + {f} && t.kernel == s.kernel
    requires forall h, x :: Holds(t, h, x) <==> Holds(s, h, x) || (h == g && x == f)
    ensures Exact(t)
  {
    hide Holds;
    assert Holds(t, g, f);
    forall x | x in t.used && x !in t.kernel
      ensures exists h :: Holds(t, h, x)
    {
      if x != f {
        var h :| Holds(s, h, x);
        assert Holds(t, h, x);
      }
    }
  }

  lemma ExactRemove(s: State, t: State, gone: set<nat>)
    requires Exact(s) && t.used == s.used - gone && t.kernel == s.kernel && gone !! s.kernel
    requires forall h, f :: Holds(t, h, f) <==> Holds(s, h, f) && f !in gone
    ensures Exact(t)
  {
    hide Holds;
    forall x | x in t.used && x !in t.kernel
      ensures exists h :: Holds(t, h, x)
    {
      var h :| Holds(s, h, x);
      assert Holds(t, h, x);
    }
  }

  // ---------------------------------------------------------------- operations

  predicate InRange(k: (Pd, int), pd: Pd, lo: int, hi: int) { k.0 == pd && lo <= k.1 < hi }

  /** The pages of directory `pd` with numbers in [lo, hi) taken out. */
  function Cleared(pages: map<(Pd, int), Page>, pd: Pd, lo: int, hi: int): map<(Pd, int), Page>
  {
    map k | k in pages && !InRange(k, pd, lo, hi) :: pages[k]
  }

  /** The frames shown by those pages. */
  function Shown(pages: map<(Pd, int), Page>, pd: Pd, lo: int, hi: int): set<nat>
  {
    set k | k in pages && InRange(k, pd, lo, hi) :: pages[k].frame
  }

  /** `unmap` of either kind of segment: a simple one frees the frames of its pages, a shared one only unmaps them. */
  function UnmapPages(s: State, a: Mid): State
    requires a in s.maps && s.maps[a].seg in s.segs
  {
    var m := s.maps[a];
    var lo, hi := First(m), First(m) + Pages(m.len);
    s.(pages := Cleared(s.pages, m.pd, lo, hi),
       used := if s.segs[m.seg].Simple? then s.used - Shown(s.pages, m.pd, lo, hi) else s.used)
  }

  function Unlisted(l: seq<Mid>, a: Mid): seq<Mid>
  {
    if l == [] then [] else if l[0] == a then l[1..] else [l[0]] + Unlisted(l[1..], a)
  }

  /** The map is taken out of its directory and counted off. */
  function Unlist(s: State, a: Mid): State
    requires a in s.maps && s.maps[a].pd in s.mapped && s.maps[a].seg in s.mappings
  {
    var m := s.maps[a];
    s.(maps := s.maps - {a}, freed := s.freed + {a}, mapped := s.mapped[m.pd := Unlisted(s.mapped[m.pd], a)],
       mappings := s.mappings[m.seg := s.mappings[m.seg] - 1])
  }

  function Nonzero(frames: seq<nat>): set<nat> { set i | 0 <= i < |frames| && frames[i] != 0 :: frames[i] }

  /** A segment whose count has come down to 0 is deleted; a shared one frees its frames. */
  function Reap(s: State, sid: Sid): State
    requires sid in s.segs && sid in s.mappings
  {
    if s.mappings[sid] != 0 then s
    else s.(segs := s.segs - {sid}, mappings := s.mappings - {sid},
            used := if s.segs[sid].Shared? then s.used - Nonzero(s.segs[sid].frames) else s.used)
  }

  /** `seg_unmap`. */
  function Unmap(s: State, a: Mid): State
    requires a in s.maps && s.maps[a].pd in s.mapped && s.maps[a].seg in s.mappings && s.maps[a].seg in s.segs
  {
    Reap(Unlist(UnmapPages(s, a), a), s.maps[a].seg)
  }

  /** The map that `map` of either kind of segment makes. */
  function NewMap(s: State, sid: Sid, pd: Pd, offset: int): SegMap
    requires sid in s.segs
  {
    match s.segs[sid]
    case Simple(start, len, _) => SegMap(sid, pd, start, len)
    case Shared(frames) => SegMap(sid, pd, offset, PAGE * |frames|)
  }

  /** `seg_map`. */
  function Map(s: State, sid: Sid, a: Mid, pd: Pd, offset: int): State
    requires sid in s.segs && sid in s.mappings && pd in s.mapped
  {
    s.(maps := s.maps[a := NewMap(s, sid, pd, offset)], mapped := s.mapped[pd := [a] + s.mapped[pd]],
       mappings := s.mappings[sid := s.mappings[sid] + 1])
  }

  /** Segments start on a page and do not overlap within a directory. */
  ghost predicate MayMap(s: State, sid: Sid, a: Mid, pd: Pd, offset: int)
  {
    && sid in s.segs && sid in s.mappings && pd in s.mapped && a !in s.maps && a !in s.freed
    && var m := NewMap(s, sid, pd, offset);
       && 0 <= m.start && m.start % PAGE == 0 && 0 <= m.len
       && forall b :: b in s.maps ==> Apart(m, s.maps[b])
  }

  /** The lookup of `paging_fault`: the first map of the directory that contains the address. */
  function Hit(s: State, l: seq<Mid>, addr: int): Option<Mid>
  {
    if l == [] then None
    else if l[0] in s.maps && s.maps[l[0]].start <= addr < s.maps[l[0]].start + s.maps[l[0]].len then Some(l[0])
    else Hit(s, l[1..], addr)
  }

  /** `handle_fault` of the segment of map `a`; `f` is the frame that an allocation would give. */
  function HandleFault(s: State, a: Mid, addr: int, write: bool, f: nat): (t: State)
    requires a in s.maps && s.maps[a].seg in s.segs
    ensures t == s.(pages := t.pages, used := t.used, segs := t.segs) && t.segs.Keys == s.segs.Keys
  {
    var m := s.maps[a];
    var v := addr / PAGE;
    if (m.pd, v) in s.pages then s
    else
      match s.segs[m.seg]
      case Simple(_, _, writable) =>
        if write && !writable then s
        else s.(pages := s.pages[(m.pd, v) := Page(f, a)], used := s.used + {f})
      case Shared(frames) =>
        var i := v - First(m);
        if !(0 <= i < |frames|) then s
        else if frames[i] != 0 then s.(pages := s.pages[(m.pd, v) := Page(frames[i], a)])
        else s.(pages := s.pages[(m.pd, v) := Page(f, a)], used := s.used + {f},
                segs := s.segs[m.seg := Shared(frames[i := f])])
  }

  /** The segment part of `paging_fault`. */
  function Fault(s: State, pd: Pd, addr: int, write: bool, f: nat): State
  {
    if pd !in s.mapped then s
    else
      var a := Hit(s, s.mapped[pd], addr);
      if a.None? || a.value !in s.maps || s.maps[a.value].seg !in s.segs then s
          else HandleFault(s, a.value, addr, write, f)
  }

  function RoundUp(len: int): (r: int)
    requires 0 <= len
    ensures r % PAGE == 0 && len <= r < len + PAGE
  {
    if len % PAGE != 0 then len - len % PAGE + PAGE else len
  }

  /** `simpleseg_resize`: pages beyond a smaller length are freed. */
  function Resize(s: State, a: Mid, len: int): (t: State)
    requires a in s.maps && s.maps[a].seg in s.segs && 0 <= len
    ensures t == s.(pages := t.pages, used := t.used, segs := t.segs, maps := t.maps)
    ensures t.segs.Keys == s.segs.Keys && t.maps.Keys == s.maps.Keys && forall b :: b in s.maps ==>
            t.maps[b].seg == s.maps[b].seg
  {
    var m := s.maps[a];
    var n := RoundUp(len);
    if s.segs[m.seg].Shared? || n == m.len then s
    else
      var s1 := if n < m.len then
                  s.(pages := Cleared(s.pages, m.pd, First(m) + n / PAGE, First(m) + Pages(m.len)),
                     used := s.used - Shown(s.pages, m.pd, First(m) + n / PAGE, First(m) + Pages(m.len)))
                else s;
      s1.(maps := s1.maps[a := m.(len := n)], segs := s1.segs[m.seg := s1.segs[m.seg].(len := n)])
  }

  ghost predicate MayResize(s: State, a: Mid, len: int)
  {
    && a in s.maps && s.maps[a].seg in s.segs && 0 <= len
    && forall b :: b in s.maps && b != a ==> Apart(s.maps[a].(len := RoundUp(len)), s.maps[b])
  }

  /** `simpleseg_make` and `shmseg_make`. */
  function Make(s: State, sid: Sid, seg: Segment): State
  {
    s.(segs := s.segs[sid := seg], mappings := s.mappings[sid := 0])
  }
}
