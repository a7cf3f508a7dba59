/**
 From sending a request to answering it: whatever other processes do in between, a receiver that leaves its table alone
 gets it back; and what becomes of that with the removal as it is written.
 */
module ObjectAnswers {
  import opened Common
  import opened ObjectTables
  import opened ObjectPassing

  /** A run in which no step changes the table of process `p`. */
  ghost predicate Spares(s: State, ops: seq<Op>, r: State, p: Pid)
    requires p in s.tables
    decreases |ops|
  {
    if ops == [] then s == r
    else
      Enabled(s, ops[0]) &&
      var s1 := Step(s, ops[0]);
      p in s1.tables && s1.tables[p] == s.tables[p] && Spares(s1, ops[1..], r, p)
  }

  /** What the numbers stand for exists and is not the process's own. */
  ghost predicate Foreign(s: State, p: Pid, ids: seq<int>)
    requires p in s.tables
  {
    forall id, o :: id in ids && id != 0 && Read(s.tables[p].entries, id) == Some(o) ==>
        o in s.objects && s.objects[o].owner != Some(p)
  }

  // ---------------------------------------------------------------- closing several descriptors

  function WithoutAll(es: seq<Desc>, ids: seq<int>): seq<Desc>
    decreases |ids|
  {
    if ids == [] then es else WithoutAll(if ids[0] == 0 then es else Without(es, ids[0]), ids[1..])
  }

  lemma ReadWithout(es: seq<Desc>, next: int, id: int, k: int)
    requires Distinct(es, next)
    ensures Read(Without(es, id), k) == if k == id then None else Read(es, k)
  {
    hide Distinct, Without;
    WithoutSpec(es, next, id);
    ReadSpec(es, next, k);
    ReadSpec(Without(es, id), next, k);
    var r, w := Read(es, k), Read(Without(es, id), k);
    if r.Some? {
      assert Desc(k, r.value) in es;
    }
    if w.Some? {
      assert Desc(k, w.value) in Without(es, id);
    }
  }

  /** One close, the others staying possible. */
  lemma CloseForeign(s: State, p: Pid, ids: seq<int>)
    requires Inv(s) && p in s.tables && ids != [] && ids[0] != 0 && Foreign(s, p, ids)
    ensures var t := Close(s, p, ids[0]);
            && Inv(t) && p in t.tables && Foreign(t, p, ids[1..])
            && t.tables == s.tables[p := s.tables[p].(entries := Without(s.tables[p].entries, ids[0]))]
  {
    hide Holders, Distinct, Without, Close;
    var t, es := Close(s, p, ids[0]), s.tables[p].entries;
    assert ids[0] in ids;
    CloseInv(s, p, ids[0]);
    CloseOwners(s, p, ids[0]);
    forall id, o | id in ids[1..] && id != 0 && Read(t.tables[p].entries, id) == Some(o)
      ensures o in t.objects && t.objects[o].owner != Some(p)
    {
      ReadWithout(es, s.tables[p].next, ids[0], id);
      assert id in ids;
      OpenedObject(t, p, id, o);
    }
  }

  /** The loop of `request_answer` takes exactly these entries out of the table, and keeps every count exact. */
  lemma {:induction false} CloseListEntries(s: State, p: Pid, ids: seq<int>)
    requires Inv(s) && p in s.tables && Foreign(s, p, ids)
    ensures var t := CloseList(s, p, ids);
            Inv(t) && t.tables == s.tables[p := s.tables[p].(entries := WithoutAll(s.tables[p].entries, ids))]
    decreases |ids|
  {
    hide Inv, Close, Without;
    if ids != [] {
      var s1 := if ids[0] == 0 then s else Close(s, p, ids[0]);
      if ids[0] == 0 {
        assert forall id :: id in ids[1..] ==> id in ids;
      } else {
        CloseForeign(s, p, ids);
      }
      CloseListEntries(s1, p, ids[1..]);
    } else {
      assert s.tables == s.tables[p := s.tables[p].(entries := s.tables[p].entries)];
    }
  }

  // ---------------------------------------------------------------- what happens meanwhile

  /** Another process may close the object: the entry of `p` keeps it in being, and nobody makes `p` its owner. */
  lemma StepForeign(s: State, op: Op, p: Pid, ids: seq<int>)
    requires Inv(s) && Enabled(s, op) && p in s.tables && Foreign(s, p, ids)
    requires p in Step(s, op).tables && Step(s, op).tables[p] == s.tables[p]
    ensures Foreign(Step(s, op), p, ids)
  {
    hide Inv, Step, Enabled;
    var t := Step(s, op);
    StepInv(s, op);
    forall id, o | id in ids && id != 0 && Read(t.tables[p].entries, id) == Some(o)
      ensures o in t.objects && t.objects[o].owner != Some(p)
    {
      OpenedObject(t, p, id, o);
      StepOwners(s, op, o);
    }
  }

  lemma {:induction false} RunForeign(s: State, ops: seq<Op>, r: State, p: Pid, ids: seq<int>)
    requires Inv(s) && p in s.tables && Spares(s, ops, r, p) && Foreign(s, p, ids)
    ensures Inv(r) && p in r.tables && r.tables[p] == s.tables[p] && Foreign(r, p, ids)
    decreases |ops|
  {
    hide Inv, Step, Enabled, Foreign;
    if ops != [] {
      StepInv(s, ops[0]);
      StepForeign(s, ops[0], p, ids);
      RunForeign(Step(s, ops[0]), ops[1..], r, p, ids);
    }
  }

  lemma PassForeign(s: State, from: Pid, to: Pid, xs: seq<Param>)
    requires Inv(s) && from in s.tables && to in s.tables
    requires forall i :: 0 <= i < |xs| ==> Passable(s, from, to, xs[i])
    ensures var r := Pass(s, from, to, xs); Inv(r.state) && Foreign(r.state, to, r.closes)
  {
    hide Opened, Inv, Pass;
    var r := Pass(s, from, to, xs);
    if from == to {
      PassWithin(s, to, xs);
    } else {
      var added := PassOpens(s, from, to, xs);
      OpenedSound(s, r.state, from, to, added);
      forall id | id in r.closes && id != 0
        ensures var o := Read(r.state.tables[to].entries, id);
                o.Some? ==> o.value in r.state.objects && r.state.objects[o.value].owner != Some(to)
      {
        OpenedReads(s, r.state, from, to, added, id);
      }
    }
  }

  /**
   However other processes go on after the request was sent (the sender may even close what it lent), if the receiver's
   table is left alone then answering gives it back exactly, leaves the other tables as they have become, and keeps
   every count exact.
   */
  lemma AnswerRestores(s: State, from: Pid, to: Pid, xs: seq<Param>, ops: seq<Op>, q: State)
    requires Inv(s) && from in s.tables && to in s.tables
    requires forall i :: 0 <= i < |xs| ==> Passable(s, from, to, xs[i])
    requires Spares(Pass(s, from, to, xs).state, ops, q, to)
    ensures to in q.tables
    ensures var t := CloseList(q, to, Pass(s, from, to, xs).closes);
            Inv(t) && t.tables == q.tables[to := q.tables[to].(entries := s.tables[to].entries)]
  {
    hide Inv, Pass, Passable, Foreign, CloseList, Spares;
    var r := Pass(s, from, to, xs);
    PassForeign(s, from, to, xs);
    RunForeign(r.state, ops, q, to, r.closes);
    CloseListEntries(q, to, r.closes);
    CloseListEntries(r.state, to, r.closes);
    AnswerUndoes(s, from, to, xs);
    var undone := CloseList(r.state, to, r.closes);
    assert undone.tables[to].entries == s.tables[to].entries;
  }

  // ---------------------------------------------------------------- with the removal as it is written

  /** How many descriptors were opened for the request. */
  function Count(ids: seq<int>): nat
  {
    if ids == [] then 0 else Count(ids[..|ids| - 1]) + if ids[|ids| - 1] == 0 then 0 else 1
  }

  /** The loop of `request_answer` with the removal as it is written: it stops making sense at the first mistake. */
  function ListAsWritten(s: State, p: Pid, ids: seq<int>): RmResult
    requires p in s.tables
    decreases |ids|
  {
    if ids == [] then Done(s)
    else if ids[0] == 0 then ListAsWritten(s, p, ids[1..])
    else
      match CloseAsWritten(s, p, ids[0])
      case Done(t) => if p in t.tables then ListAsWritten(t, p, ids[1..]) else Done(t)
      case r => r
  }

  /** The first and the last descriptor opened, 0 for none. */
  function FirstOpened(ids: seq<int>): int
  {
    if ids == [] then 0
    else
      var f := FirstOpened(ids[..|ids| - 1]);
      if f != 0 then f else ids[|ids| - 1]
  }

  function LastOpened(ids: seq<int>): int
  {
    if ids == [] then 0 else if ids[|ids| - 1] != 0 then ids[|ids| - 1] else LastOpened(ids[..|ids| - 1])
  }

  /** Descriptors are opened with rising numbers, each in front of the list. */
  ghost predicate Rising(es: seq<Desc>, next: int, ids: seq<int>)
  {
    && 1 <= next && (forall id :: id in ids && id != 0 ==> id < next && Read(es, id).Some?)
    && FirstOpened(ids) < next && LastOpened(ids) < next
    && (Count(ids) > 0 ==> FirstOpened(ids) != 0 && es != [] && es[0].id == LastOpened(ids))
    && (Count(ids) == 0 ==> FirstOpened(ids) == 0) && (Count(ids) == 1 ==> FirstOpened(ids) == LastOpened(ids))
    && (Count(ids) > 1 ==> FirstOpened(ids) < LastOpened(ids))
  }

  lemma {:induction false} PassRising(s: State, from: Pid, to: Pid, xs: seq<Param>)
    requires Inv(s) && from in s.tables && to in s.tables
    requires forall i :: 0 <= i < |xs| ==> Passable(s, from, to, xs[i])
    ensures var r := Pass(s, from, to, xs); Rising(r.state.tables[to].entries, r.state.tables[to].next, r.closes)
    decreases |xs|
  {
    if xs != [] {
      hide Inv, Rising, PassOne;
      var n := |xs| - 1;
      var r := Pass(s, from, to, xs[..n]);
      PassRising(s, from, to, xs[..n]);
      assert Passable(s, from, to, xs[n]);
      hide Passable;
      PassOneRising(r.state, from, to, xs[n], r.closes);
    }
  }

  lemma PassOneRising(r: State, from: Pid, to: Pid, x: Param, ids: seq<int>)
    requires from in r.tables && to in r.tables && Passable(r, from, to, x)
    requires Rising(r.tables[to].entries, r.tables[to].next, ids)
    ensures var one := PassOne(r, from, to, x);
            Rising(one.0.tables[to].entries, one.0.tables[to].next, ids + [one.2])
  {
    hide Rising;
    var es, next := r.tables[to].entries, r.tables[to].next;
    RisingSame(es, next, ids);
    if !(x.Plain? || x.v < 0 || from == to) {
      RisingMore(es, next, ids, Read(r.tables[from].entries, x.v).value);
    }
  }

  lemma RisingSame(es: seq<Desc>, next: int, ids: seq<int>)
    requires Rising(es, next, ids)
    ensures Rising(es, next, ids + [0])
  {
    assert (ids + [0])[..|ids|] == ids;
  }

  lemma RisingMore(es: seq<Desc>, next: int, ids: seq<int>, o: Oid)
    requires Rising(es, next, ids)
    ensures Rising([Desc(next, o)] + es, next + 1, ids + [next])
  {
    var l, fs := ids + [next], [Desc(next, o)] + es;
    assert l[..|ids|] == ids && fs[1..] == es;
    forall id | id in l && id != 0
      ensures id < next + 1 && Read(fs, id).Some?
    {
      assert id == next || id in ids;
    }
  }

  lemma {:induction false} FromFront(ids: seq<int>)
    requires ids != []
    ensures Count(ids) == Count(ids[1..]) + if ids[0] == 0 then 0 else 1
    ensures FirstOpened(ids) == if ids[0] == 0 then FirstOpened(ids[1..]) else ids[0]
    decreases |ids|
  {
    var n := |ids| - 1;
    if n > 0 {
      FromFront(ids[..n]);
      assert ids[..n][1..] == ids[1..][..n - 1];
    } else {
      assert ids[..0] == [] && ids[1..] == [];
    }
  }

  /** As written, closing works while the descriptor to close is the newest, and not once it is another. */
  lemma {:induction false} ListAsWrittenIs(s: State, p: Pid, ids: seq<int>)
    requires p in s.tables && Inv(s) && forall id :: id in ids && id != 0 ==> Read(s.tables[p].entries, id).Some?
    ensures Count(ids) == 0 ||
            (Count(ids) == 1 && s.tables[p].entries != [] && s.tables[p].entries[0].id == FirstOpened(ids)) ==>
              ListAsWritten(s, p, ids) == Done(CloseList(s, p, ids))
    ensures Count(ids) > 0 && s.tables[p].entries != [] && s.tables[p].entries[0].id != FirstOpened(ids) ==>
              !ListAsWritten(s, p, ids).Done?
    decreases |ids|
  {
    assert Count([]) == 0;
    hide Inv, Close, CloseAsWritten, FirstOpened, Count;
    if ids != [] {
      FromFront(ids);
      if ids[0] == 0 {
        ListAsWrittenIs(s, p, ids[1..]);
      } else {
        var o := Read(s.tables[p].entries, ids[0]).value;
        OpenedObject(s, p, ids[0], o);
        CloseAsWrittenIff(s, p, ids[0]);
        if Count(ids[1..]) == 0 {
          ZerosDo(Close(s, p, ids[0]), p, ids[1..]);
        }
      }
    }
  }

  lemma {:induction false} ZerosDo(s: State, p: Pid, ids: seq<int>)
    requires Count(ids) == 0
    ensures p in s.tables ==> ListAsWritten(s, p, ids) == Done(s) && CloseList(s, p, ids) == s
    decreases |ids|
  {
    if ids != [] {
      FromFront(ids);
      hide Count;
      ZerosDo(s, p, ids[1..]);
    }
  }

  /**
   With the removal as it is written, answering gives the table back if and only if at most one descriptor was opened.
   */
  lemma AnswerAsWrittenIff(s: State, from: Pid, to: Pid, xs: seq<Param>)
    requires Inv(s) && from in s.tables && to in s.tables
    requires forall i :: 0 <= i < |xs| ==> Passable(s, from, to, xs[i])
    ensures var r := Pass(s, from, to, xs);
            ListAsWritten(r.state, to, r.closes) == Done(CloseList(r.state, to, r.closes)) <==> Count(r.closes) <= 1
  {
    hide Inv, Pass, Passable, Foreign, CloseList, ListAsWritten;
    var r := Pass(s, from, to, xs);
    PassForeign(s, from, to, xs);
    PassRising(s, from, to, xs);
    ListAsWrittenIs(r.state, to, r.closes);
  }
}
