/**
 Runs from boot to the states in which the kernel goes wrong over shared memory: process 1 makes a segment and sends it
 to process 2, and one of the two unmaps it too early, maps it twice, or never.
 */
module FrameScenarios {
  import opened Common
  import opened FrameModel
  import opened FrameRequests
  import opened FrameRuns
  import opened FrameTheorems
  import opened FrameSafety

  const AT: int := 0x1000_0000

  /** The request: the sender's map is 1, of segment 7. */
  function Asked(processed: bool, rcv: Option<Mid>): Request
  {
    Request(1, 2, true, processed, [Shm(1, 7, rcv), Nothing, Nothing])
  }

  /** From the boot state `b`, segment 7 of one page, with the maps and requests given; nothing has been touched. */
  function With(b: State, maps: map<Mid, SegMap>, mapped: map<Pd, seq<Mid>>, count: int,
                requests: map<Rid, Request>): State
  {
    b.(segs := map[7 := Shared([0])], mappings := map[7 := count], maps := maps, mapped := mapped,
       requests := requests)
  }

  function Sender(): SegMap { SegMap(7, 1, AT, PAGE) }

  function Receiver(): SegMap { SegMap(7, 2, AT, PAGE) }

  function Made(b: State): State { With(b, map[1 := Sender()], map[1 := [1], 2 := []], 1, map[]) }

  function Posted(b: State, processed: bool): State
  {
    With(b, map[1 := Sender()], map[1 := [1], 2 := []], 2, map[5 := Asked(processed, None)])
  }

  function Received(b: State): State
  {
    With(b, map[1 := Sender(), 2 := Receiver()], map[1 := [1], 2 := [2]], 2, map[5 := Asked(true, Some(2))])
  }

  const SENT: seq<Op> := [NewDir(1), NewDir(2), NewSegment(7, Shared([0]), 1, 1, AT),
                          PostRequest(5, 1, 2, true, [Some(1), None, None]), GetRequest(5)]

  /** The operation can happen in `s` and leads to `t`. */
  ghost predicate Does(s: State, op: Op, t: State)
  {
    WellTyped(s) && Enabled(s, op) && Step(s, op) == t
  }

  lemma {:induction false} Then(s: State, ops: seq<Op>, t: State, op: Op, u: State)
    requires Good(s) && Runs(s, ops, t) && Does(t, op, u)
    ensures Runs(s, ops + [op], u)
    decreases |ops|
  {
    hide Good, WellTyped, Enabled, Step;
    GoodTyped(s);
    if ops == [] {
      StepGood(s, op);
      assert (ops + [op])[1..] == [];
    } else {
      StepGood(s, ops[0]);
      Then(Step(s, ops[0]), ops[1..], t, op, u);
      assert (ops + [op])[1..] == ops[1..] + [op];
    }
  }

  lemma MakeDirs(b: State)
    requires Boot(b)
    ensures Does(b, NewDir(1), b.(mapped := map[1 := []]))
    ensures Does(b.(mapped := map[1 := []]), NewDir(2), b.(mapped := map[1 := [], 2 := []]))
  {
  }

  lemma MakeSegment(b: State)
    requires Boot(b)
    ensures Does(b.(mapped := map[1 := [], 2 := []]), NewSegment(7, Shared([0]), 1, 1, AT), Made(b))
  {
    var s := b.(mapped := map[1 := [], 2 := []]);
    var t := Map(Make(s, 7, Shared([0])), 7, 1, 1, AT);
    assert t.segs == map[7 := Shared([0])] && t.maps == map[1 := Sender()];
    var l: seq<Mid> := [1];
    assert l + [] == l;
    assert t.mapped == map[1 := l, 2 := []];
    assert t.mappings == map[7 := 1];
  }

  lemma PostIt(b: State)
    requires Boot(b)
    ensures Does(Made(b), PostRequest(5, 1, 2, true, [Some(1), None, None]), Posted(b, false))
  {
    hide AddParams;
    var found: seq<Option<Mid>> := [Some(1), None, None];
    var s := Made(b).(requests := map[5 := Request(1, 2, true, false, [])]);
    assert Made(b).requests[5 := Request(1, 2, true, false, [])] == s.requests;
    AddAll(b, s);
  }

  lemma AddAll(b: State, s: State)
    requires Boot(b) && s == Made(b).(requests := map[5 := Request(1, 2, true, false, [])])
    ensures AddParams(s, 5, [Some(1), None, None]) == Posted(b, false)
  {
    hide Boot;
    var found: seq<Option<Mid>> := [Some(1), None, None];
    var t := s.(requests := map[5 := Request(1, 2, true, false, [Shm(1, 7, None)])], mappings := map[7 := 2]);
    FirstAdded(b, s, t);
    assert found[1..] == [None, None];
    TwoMore(t);
    assert [Shm(1, 7, None)] + [Nothing, Nothing] == Asked(false, None).params;
    assert t.requests[5 := Asked(false, None)] == Posted(b, false).requests;
  }

  lemma FirstAdded(b: State, s: State, t: State)
    requires s == Made(b).(requests := map[5 := Request(1, 2, true, false, [])])
    requires t == s.(requests := map[5 := Request(1, 2, true, false, [Shm(1, 7, None)])], mappings := map[7 := 2])
    ensures AddParam(s, 5, Some(1)) == t
  {
    var p: seq<Param> := [Shm(1, 7, None)];
    assert [] + p == p;
    assert AddParam(s, 5, Some(1)).requests == t.requests;
    assert AddParam(s, 5, Some(1)).mappings == t.mappings;
  }

  lemma TwoMore(s: State)
    requires 5 in s.requests
    ensures AddParams(s, 5, [None, None]) ==
            s.(requests := s.requests[5 := s.requests[5].(params := s.requests[5].params + [Nothing, Nothing])])
  {
    var two: seq<Option<Mid>> := [None, None];
    var t := AddParam(s, 5, None);
    assert two[1..] == [None] && two[1..][1..] == [];
    assert s.requests[5].params + [Nothing] + [Nothing] == s.requests[5].params + [Nothing, Nothing];
    assert AddParams(AddParam(t, 5, None), 5, []) == AddParam(t, 5, None);
    assert AddParam(t, 5, None).requests ==
           s.requests[5 := s.requests[5].(params := s.requests[5].params + [Nothing, Nothing])];
  }

  lemma GetIt(b: State)
    requires Boot(b)
    ensures Does(Posted(b, false), GetRequest(5), Posted(b, true))
  {
  }

  lemma MapIt(b: State)
    requires Boot(b)
    ensures Does(Posted(b, true), MapParameter(5, 0, 2, AT), Received(b))
  {
    var t := Mapped(Posted(b, true), 7, 2, 2, AT);
    assert t.maps == map[1 := Sender(), 2 := Receiver()];
    var l: seq<Mid> := [2];
    assert l + [] == l;
    assert t.mapped == map[1 := [1], 2 := l];
    assert t.mappings == map[7 := 2];
    assert Asked(true, None).params[0 := Shm(1, 7, Some(2))] == Asked(true, Some(2)).params;
  }

  /** The request has been taken by process 2. */
  lemma SentRun(b: State)
    requires Boot(b)
    ensures Good(b) && Runs(b, SENT, Posted(b, true))
  {
    hide Boot, Good, Does, Made, Posted;
    BootGood(b);
    MakeDirs(b);
    MakeSegment(b);
    PostIt(b);
    GetIt(b);
    var o1: seq<Op> := [] + [NewDir(1)];
    var o2 := o1 + [NewDir(2)];
    var o3 := o2 + [SENT[2]];
    var o4 := o3 + [SENT[3]];
    assert Runs(b, [], b);
    Then(b, [], b, NewDir(1), b.(mapped := map[1 := []]));
    Then(b, o1, b.(mapped := map[1 := []]), NewDir(2), b.(mapped := map[1 := [], 2 := []]));
    Then(b, o2, b.(mapped := map[1 := [], 2 := []]), SENT[2], Made(b));
    Then(b, o3, Made(b), SENT[3], Posted(b, false));
    Then(b, o4, Posted(b, false), SENT[4], Posted(b, true));
    assert o4 + [SENT[4]] == SENT;
  }

  lemma UnmapDoes(s: State, a: Mid)
    requires WellTyped(s) && a in s.maps
    ensures Does(s, UnmapSegment(a), Unmap(s, a))
  {
    hide WellTyped, Unmap;
  }

  /** The sender unmaps before the receiver maps: `request_mapShm` follows a freed map. */
  lemma SenderFaults(b: State)
    requires Boot(b)
    ensures Good(b)
    ensures exists t :: Runs(b, SENT + [UnmapSegment(1)] + [MapParameter(5, 0, 2, AT)], t) && t.fault
  {
    hide Boot, Good, Unmap;
    var s := Posted(b, true);
    SentRun(b);
    RunGood(b, SENT, s);
    GoodTyped(s);
    var t := Unmap(s, 1);
    UnmapDoes(s, 1);
    Then(b, SENT, s, UnmapSegment(1), t);
    UnmapMapped(s, 1);
    SenderUnmapsFirst(s, 5, 0, t, 2, AT);
    GoodTyped(t);
    var op := MapParameter(5, 0, 2, AT);
    MapDoes(t);
    Then(b, SENT + [UnmapSegment(1)], t, op, MapParam(t, 5, 0, 2, AT));
  }

  lemma MapDoes(t: State)
    requires WellTyped(t) && Mappable(t, 5, 0) && t.requests[5] == Asked(true, None) && 2 in t.mapped && 1 !in t.maps
    ensures Does(t, MapParameter(5, 0, 2, AT), MapParam(t, 5, 0, 2, AT))
  {
    hide WellTyped;
  }

  lemma MapRun(b: State)
    requires Boot(b)
    ensures Good(b) && Runs(b, SENT + [MapParameter(5, 0, 2, AT)], Received(b)) && Good(Received(b))
  {
    hide Boot, Good, Posted, Received, Does;
    SentRun(b);
    MapIt(b);
    Then(b, SENT, Posted(b, true), MapParameter(5, 0, 2, AT), Received(b));
    RunGood(b, SENT + [MapParameter(5, 0, 2, AT)], Received(b));
  }

  /** The receiver unmaps before it answers: `request_answer` unmaps a freed map. */
  lemma ReceiverFaults(b: State)
    requires Boot(b)
    ensures Good(b)
    ensures exists t: State :: t.fault &&
              Runs(b, SENT + [MapParameter(5, 0, 2, AT)] + [UnmapSegment(2)] + [AnswerRequest(5)], t)
  {
    hide Good, Unmap, Answer;
    var s, ops := Received(b), SENT + [MapParameter(5, 0, 2, AT)];
    MapRun(b);
    GoodTyped(s);
    var t := Unmap(s, 2);
    UnmapDoes(s, 2);
    Then(b, ops, s, UnmapSegment(2), t);
    UnmapMapped(s, 2);
    ReceiverUnmapsFirst(s, 5, 0, 2, t);
    GoodTyped(t);
    Then(b, ops + [UnmapSegment(2)], t, AnswerRequest(5), Answer(t, 5));
  }

  /** The receiver maps a second time: the count of the segment is one too low. */
  lemma CountFails(b: State)
    requires Boot(b)
    ensures Good(b) && Runs(b, SENT + [MapParameter(5, 0, 2, AT)], Received(b))
    ensures Mappable(Received(b), 5, 0) && Reachable(Received(b), 5, 0)
    ensures !CountsOk(MapParam(Received(b), 5, 0, 3, 2 * AT))
  {
    hide Good, CountsOk;
    MapRun(b);
    MappedTwice(Received(b), 5, 0, 3, 2 * AT);
  }

  /** The receiver answers without mapping: the segment outlives its last map on every run that follows. */
  lemma Leaks(b: State)
    requires Boot(b)
    ensures Good(b)
    ensures exists t :: && Runs(b, SENT + [AnswerRequest(5)] + [UnmapSegment(1)], t) && t.maps == map[] && Good(t)
                        && forall ops, u :: Runs(t, ops, u) ==> 7 in u.segs
  {
    hide Good, Unmap;
    var s := Posted(b, true);
    SentRun(b);
    RunGood(b, SENT, s);
    GoodTyped(s);
    var s1 := Answer(s, 5);
    AnswerUnmapped(b);
    Then(b, SENT, s, AnswerRequest(5), s1);
    RunGood(b, SENT + [AnswerRequest(5)], s1);
    GoodTyped(s1);
    var t := Unmap(s1, 1);
    UnmapDoes(s1, 1);
    Then(b, SENT + [AnswerRequest(5)], s1, UnmapSegment(1), t);
    RunGood(b, SENT + [AnswerRequest(5)] + [UnmapSegment(1)], t);
    UnmapMapped(s1, 1);
    assert t.maps == map[];
    forall ops, u | Runs(t, ops, u)
      ensures 7 in u.segs
    {
      LeftBehindForever(t, ops, u, 5, 0, 7);
    }
  }

  lemma AnswerUnmapped(b: State)
    ensures Answer(Posted(b, true), 5) ==
            Posted(b, true).(requests := map[], answered := b.answered[5 := Asked(true, None)])
  {
    var ps := Asked(true, None).params;
    assert ps[1..] == [Nothing, Nothing] && ps[1..][1..] == [Nothing] && ps[1..][1..][1..] == [];
    var s := Posted(b, true);
    assert UnmapRcv(s, ps[1..][1..][1..]) == s;
    assert UnmapRcv(s, ps[1..][1..]) == s;
    assert UnmapRcv(s, ps[1..]) == s;
    assert UnmapRcv(s, ps) == s;
    assert s.requests - {5} == map[];
  }
}
