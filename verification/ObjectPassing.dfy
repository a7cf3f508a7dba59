/**
 Passing object descriptors with a request: each is translated into the receiver's table, and what
 was opened for the request is closed again when it is answered.
 */
module ObjectPassing {
  import opened Common
  import opened ObjectTables

  datatype Param = Plain(v: int) | Handle(v: int)

  /** The state after translation, the parameters the receiver sees, and the descriptors to close later (0 for none). */
  datatype Passed = Passed(state: State, params: seq<int>, closes: seq<int>)

  /** What the source demands of a descriptor parameter: negative, within one process, or valid. */
  predicate Passable(s: State, from: Pid, to: Pid, x: Param)
    requires from in s.tables && to in s.tables
  {
    x.Plain? || x.v < 0 || from == to ||
    (var o := Read(s.tables[from].entries, x.v); o.Some? && o.value in s.objects)
  }

  function PassOne(s: State, from: Pid, to: Pid, x: Param): (State, int, int)
    requires from in s.tables && to in s.tables && Passable(s, from, to, x)
  {
    if x.Plain? || x.v < 0 || from == to then (s, x.v, 0)
    else
      var o := Read(s.tables[from].entries, x.v).value;
      var d := Lookup(s.tables[to].entries, o);
      if d == -1 then var r := Add(s, to, o); (r.0, r.1, r.1) else (s, d, 0)
  }

  /** The loop of `mkrequest` over the parameters. */
  function Pass(s: State, from: Pid, to: Pid, xs: seq<Param>): (r: Passed)
    requires from in s.tables && to in s.tables && forall i :: 0 <= i < |xs| ==> Passable(s, from, to, xs[i])
    ensures from in r.state.tables && to in r.state.tables
    ensures (from != to ==> r.state.tables[from] == s.tables[from]) && r.state.objects.Keys == s.objects.Keys
    ensures |r.params| == |r.closes| == |xs|
  {
    if xs == [] then Passed(s, [], [])
    else
      var n := |xs| - 1;
      var r := Pass(s, from, to, xs[..n]);
      assert Passable(s, from, to, xs[n]);
      var one := PassOne(r.state, from, to, xs[n]);
      Passed(one.0, r.params + [one.1], r.closes + [one.2])
  }

  /** The loop of `request_answer` over the descriptors to close. */
  function CloseList(s: State, p: Pid, ids: seq<int>): State
    requires p in s.tables
    decreases |ids|
  {
    if ids == [] then s
    else
      var s1 := if ids[0] == 0 then s else Close(s, p, ids[0]);
      if p in s1.tables then CloseList(s1, p, ids[1..]) else s1
  }

  // ---------------------------------------------------------------- what a passed state looks like

  /** `added` are the entries opened for the request; everything else is as it was. */
  ghost predicate Opened(s: State, r: State, from: Pid, to: Pid, added: seq<Desc>)
  {
    && Inv(r) && from in s.tables && to in s.tables && to in r.tables
    && r.tables == s.tables[to := Table(added + s.tables[to].entries, r.tables[to].next)]
    && r.objects.Keys == s.objects.Keys
    && (forall o :: o in s.objects ==>
        r.objects[o].owner == s.objects[o].owner && r.objects[o].busy == s.objects[o].busy)
    && (forall d :: d in added ==> d.id >= s.tables[to].next && Lent(s, from, to, d.obj))
  }

  /** The sender names the object, and the receiver is not its owner. */
  ghost predicate Lent(s: State, from: Pid, to: Pid, o: Oid)
  {
    from in s.tables && Has(s.tables[from].entries, o) && o in s.objects && s.objects[o].owner != Some(to)
  }

  lemma OpenedNone(s: State, from: Pid, to: Pid)
    requires Inv(s) && from in s.tables && to in s.tables
    ensures Opened(s, s, from, to, [])
  {
    assert [] + s.tables[to].entries == s.tables[to].entries;
    assert s.tables == s.tables[to := Table([] + s.tables[to].entries, s.tables[to].next)];
  }

  lemma OpenedOne(s: State, r: State, from: Pid, to: Pid, added: seq<Desc>, o: Oid)
    requires Inv(s) && Opened(s, r, from, to, added) && from != to && o in r.objects && to in r.tables
    requires Has(s.tables[from].entries, o) && !Has(r.tables[to].entries, o) && s.tables[to].next <= r.tables[to].next
    ensures Opened(s, Add(r, to, o).0, from, to, [Desc(r.tables[to].next, o)] + added)
    ensures Add(r, to, o).1 == r.tables[to].next && Add(r, to, o).0.tables[to].next == r.tables[to].next + 1
  {
    hide Inv, Has;
    var d := Desc(r.tables[to].next, o);
    var t := Add(r, to, o).0;
    OpenedAdd(r, to, o);
    assert [d] + (added + s.tables[to].entries) == ([d] + added) + s.tables[to].entries;
    assert t.tables == s.tables[to := Table(([d] + added) + s.tables[to].entries, t.tables[to].next)];
    NotOwner(s, r, from, to, added, o);
    forall e | e in [d] + added
      ensures e.id >= s.tables[to].next && Lent(s, from, to, e.obj)
    {
    }
  }

  lemma OpenedAdd(r: State, to: Pid, o: Oid)
    requires Inv(r) && to in r.tables && o in r.objects && !Has(r.tables[to].entries, o)
    ensures Inv(Add(r, to, o).0) && Lookup(r.tables[to].entries, o) == -1
  {
    hide Distinct, Holders;
    LookupSpec(r.tables[to].entries, r.tables[to].next, o);
    AddInv(r, to, o);
  }

  lemma NotOwner(s: State, r: State, from: Pid, to: Pid, added: seq<Desc>, o: Oid)
    requires Opened(s, r, from, to, added) && o in r.objects && !Has(r.tables[to].entries, o)
    ensures s.objects[o].owner != Some(to)
  {
    HolderHas(r, to, o);
  }

  /** Whatever is passed, only new entries for lent objects have been opened, and these are what is to be closed. */
  lemma {:induction false} PassOpens(s: State, from: Pid, to: Pid, xs: seq<Param>) returns (added: seq<Desc>)
    requires Inv(s) && from in s.tables && to in s.tables && from != to
    requires forall i :: 0 <= i < |xs| ==> Passable(s, from, to, xs[i])
    ensures var r := Pass(s, from, to, xs);
            && Opened(s, r.state, from, to, added) && s.tables[to].next <= r.state.tables[to].next
            && Closing(added, r.closes, s.tables[to].next)
    decreases |xs|
  {
    if xs == [] {
      OpenedNone(s, from, to);
      added := [];
    } else {
      hide Opened, Inv, PassOne, Passable, Pass, Closing;
      var n := |xs| - 1;
      var r := Pass(s, from, to, xs[..n]);
      PassLast(s, from, to, xs);
      var front := PassOpens(s, from, to, xs[..n]);
      added := PassOneOpens(s, r.state, from, to, xs[n], front, r.closes);
    }
  }

  /** The new entries are among what is to be closed, and nothing older than `next` is. */
  ghost predicate Closing(added: seq<Desc>, closes: seq<int>, next: int)
  {
    && (forall d :: d in added ==> d.id in closes)
    && (forall id :: id in closes && id != 0 ==> id >= next)
  }

  lemma PassLast(s: State, from: Pid, to: Pid, xs: seq<Param>)
    requires from in s.tables && to in s.tables && from != to && xs != []
    requires forall i :: 0 <= i < |xs| ==> Passable(s, from, to, xs[i])
    ensures var r, x := Pass(s, from, to, xs[..|xs| - 1]), xs[|xs| - 1];
            && Passable(s, from, to, x) && Passable(r.state, from, to, x)
            && var one := PassOne(r.state, from, to, x);
               Pass(s, from, to, xs) == Passed(one.0, r.params + [one.1], r.closes + [one.2])
  {
    hide PassOne;
  }

  lemma PassOneOpens(s: State, r: State, from: Pid, to: Pid, x: Param, front: seq<Desc>, closes: seq<int>)
    returns (added: seq<Desc>)
    requires Inv(s) && Opened(s, r, from, to, front) && from != to && from in s.tables && from in r.tables
    requires to in r.tables && to in s.tables
    requires r.tables[from] == s.tables[from] && r.objects.Keys == s.objects.Keys
    requires s.tables[to].next <= r.tables[to].next
    requires Passable(s, from, to, x) && Passable(r, from, to, x) && Closing(front, closes, s.tables[to].next)
    ensures var one := PassOne(r, from, to, x);
            && Opened(s, one.0, from, to, added) && to in one.0.tables && s.tables[to].next <= one.0.tables[to].next
            && Closing(added, closes + [one.2], s.tables[to].next)
  {
    hide Opened, Inv, Has;
    added := front;
    if x.Handle? && x.v >= 0 {
      var o := Read(s.tables[from].entries, x.v).value;
      PassedEntries(s, r, from, to, front, x.v, o);
      if !Has(r.tables[to].entries, o) {
        OpenedOne(s, r, from, to, front, o);
        added := [Desc(r.tables[to].next, o)] + front;
      }
    }
  }

  lemma PassedEntries(s: State, r: State, from: Pid, to: Pid, added: seq<Desc>, v: int, o: Oid)
    requires Inv(s) && Opened(s, r, from, to, added) && Read(s.tables[from].entries, v) == Some(o) && to in r.tables
    ensures Has(s.tables[from].entries, o)
    ensures Lookup(r.tables[to].entries, o) == -1 <==> !Has(r.tables[to].entries, o)
    ensures Inv(r)
  {
    hide Distinct, Holders;
    ReadSpec(s.tables[from].entries, s.tables[from].next, v);
    assert Desc(v, o) in s.tables[from].entries;
    LookupSpec(r.tables[to].entries, r.tables[to].next, o);
  }

  // ---------------------------------------------------------------- a passed descriptor denotes the same object

  /**
   In the receiver's table the parameter stands for the very object that the sender's descriptor
   stands for; plain and negative values, and values within one process, are passed as they are.
   */
  lemma {:induction false} PassDenotes(s: State, from: Pid, to: Pid, xs: seq<Param>, i: nat)
    requires Inv(s) && from in s.tables && to in s.tables && i < |xs|
    requires forall j :: 0 <= j < |xs| ==> Passable(s, from, to, xs[j])
    ensures var r := Pass(s, from, to, xs);
            if xs[i].Plain? || xs[i].v < 0 || from == to then r.params[i] == xs[i].v
            else Read(r.state.tables[to].entries, r.params[i]) == Read(s.tables[from].entries, xs[i].v)
    decreases |xs|
  {
    var n := |xs| - 1;
    var front := xs[..n];
    var r := Pass(s, from, to, front);
    assert Passable(s, from, to, xs[n]);
    if i < n {
      PassDenotes(s, from, to, front, i);
      assert front[i] == xs[i];
    }
    if from != to {
      hide Opened, Inv, Has;
      var added := PassOpens(s, from, to, front);
      OpenedSound(s, r.state, from, to, added);
      if xs[n].Handle? && xs[n].v >= 0 {
        var o := Read(s.tables[from].entries, xs[n].v).value;
        PassOneReads(r.state, to, o);
      }
    }
  }

  lemma OpenedSound(s: State, r: State, from: Pid, to: Pid, added: seq<Desc>)
    requires Opened(s, r, from, to, added)
    ensures Inv(r) && from in s.tables && to in s.tables && to in r.tables
  {
    hide Inv;
  }

  /** Looking up or adding an object gives a number that reads back as it, and no other number changes its meaning. */
  lemma PassOneReads(r: State, to: Pid, o: Oid)
    requires Inv(r) && to in r.tables && o in r.objects
    ensures var d := Lookup(r.tables[to].entries, o);
            if d == -1 then
              var a := Add(r, to, o);
              && Read(a.0.tables[to].entries, a.1) == Some(o)
              && forall id :: Read(r.tables[to].entries, id).Some? ==>
                  Read(a.0.tables[to].entries, id) == Read(r.tables[to].entries, id)
            else Read(r.tables[to].entries, d) == Some(o)
  {
    hide Holders;
    var t := r.tables[to];
    LookupSpec(t.entries, t.next, o);
    var d := Lookup(t.entries, o);
    if d == -1 {
      var es := [Desc(t.next, o)] + t.entries;
      assert es[1..] == t.entries;
      forall id | Read(t.entries, id).Some?
        ensures id != t.next
      {
        ReadSpec(t.entries, t.next, id);
        DistinctMembers(t.entries, t.next);
        assert Desc(id, Read(t.entries, id).value) in t.entries;
      }
    } else {
      ReadSpec(t.entries, t.next, d);
    }
  }

  // ---------------------------------------------------------------- answering undoes the passing

  lemma {:induction false} WithoutAppend(a: seq<Desc>, b: seq<Desc>, id: int)
    requires forall d :: d in b ==> d.id != id
    ensures Without(a + b, id) == Without(a, id) + b
  {
    if a == [] {
      assert a + b == b;
      WithoutNone(b, id);
    } else {
      assert (a + b)[1..] == a[1..] + b;
      WithoutAppend(a[1..], b, id);
    }
  }

  lemma {:induction false} WithoutNone(b: seq<Desc>, id: int)
    requires forall d :: d in b ==> d.id != id
    ensures Without(b, id) == b && Read(b, id) == None
  {
    if b != [] {
      assert b[0] in b;
      WithoutNone(b[1..], id);
    }
  }

  lemma {:induction false} WithoutSubset(a: seq<Desc>, id: int)
    ensures forall d :: d in Without(a, id) ==> d in a
    ensures forall d :: d in a && d.id != id ==> d in Without(a, id)
  {
    if a != [] {
      WithoutSubset(a[1..], id);
      assert a == [a[0]] + a[1..];
    }
  }

  /** Closing a lent object that the sender still names takes away the entry and nothing else. */
  lemma CloseLent(r: State, from: Pid, to: Pid, id: int)
    requires Inv(r) && to in r.tables && from in r.tables && from != to
    requires var o := Read(r.tables[to].entries, id);
             o.Some? ==>
                 Has(r.tables[from].entries, o.value) && o.value in r.objects && r.objects[o.value].owner != Some(to)
    ensures MayClose(r, to, id)
    ensures Close(r, to, id).objects.Keys == r.objects.Keys
    ensures forall o :: o in r.objects ==>
            Close(r, to, id).objects[o].owner == r.objects[o].owner &&
            Close(r, to, id).objects[o].busy == r.objects[o].busy
  {
    hide Holders, Has, Distinct;
    var ro := Read(r.tables[to].entries, id);
    if ro.Some? {
      RmInv(r, to, id, ro.value);
      HolderHas(r, from, ro.value);
      assert from in Holders(Rm(r, to, id), ro.value);
    }
  }

  lemma CloseOpenedOne(s: State, r: State, from: Pid, to: Pid, added: seq<Desc>, id: int)
    requires Inv(s) && Opened(s, r, from, to, added) && from != to && id >= s.tables[to].next
    ensures Opened(s, Close(r, to, id), from, to, Without(added, id))
    ensures to in Close(r, to, id).tables && Close(r, to, id).tables[to].next == r.tables[to].next
  {
    hide Inv, Has;
    var prior := s.tables[to].entries;
    OldIds(s, to);
    WithoutAppend(added, prior, id);
    WithoutSubset(added, id);
    OpenedReads(s, r, from, to, added, id);
    CloseLent(r, from, to, id);
    CloseInv(r, to, id);
    var c := Close(r, to, id);
    assert c.tables[to].entries == Without(added, id) + prior;
    assert c.tables == s.tables[to := Table(Without(added, id) + prior, c.tables[to].next)];
  }

  lemma OldIds(s: State, p: Pid)
    requires Inv(s) && p in s.tables
    ensures forall d :: d in s.tables[p].entries ==> d.id < s.tables[p].next
  {
    hide Holders, Distinct;
    DistinctMembers(s.tables[p].entries, s.tables[p].next);
  }

  /** A number not given out before stands for a lent object, if for anything. */
  lemma OpenedReads(s: State, r: State, from: Pid, to: Pid, added: seq<Desc>, id: int)
    requires Inv(s) && Opened(s, r, from, to, added) && from != to && id >= s.tables[to].next
    ensures from in r.tables && r.tables[from] == s.tables[from]
    ensures var o := Read(r.tables[to].entries, id);
            o.Some? ==>
                Has(r.tables[from].entries, o.value) && o.value in r.objects && r.objects[o.value].owner != Some(to)
  {
    hide Has, Holders, Distinct;
    OldIds(s, to);
    ReadSpec(r.tables[to].entries, r.tables[to].next, id);
    var o := Read(r.tables[to].entries, id);
    if o.Some? {
      assert Desc(id, o.value) in added;
    }
  }

  lemma SameHolders(s: State, r: State, to: Pid)
    requires to in s.tables && to in r.tables && r.tables == s.tables[to := r.tables[to]]
    requires r.tables[to].entries == s.tables[to].entries
    ensures forall o :: Holders(r, o) == Holders(s, o)
  {
  }

  lemma CountIs(s: State, o: Oid)
    requires Inv(s) && o in s.objects
    ensures s.objects[o].descriptors == |Holders(s, o)|
  {
    hide Holders, Distinct;
  }

  lemma SomeMember(es: seq<Desc>)
    ensures es != [] ==> exists d :: d in es
  {
    if es != [] {
      assert es[0] in es;
    }
  }

  /** With nothing added any more, only the next number has moved. */
  lemma NothingOpened(s: State, r: State, from: Pid, to: Pid)
    requires Inv(s) && Opened(s, r, from, to, [])
    ensures r == s.(tables := s.tables[to := s.tables[to].(next := r.tables[to].next)])
  {
    hide Inv, Holders;
    assert [] + s.tables[to].entries == s.tables[to].entries;
    SameHolders(s, r, to);
    forall o | o in s.objects
      ensures r.objects[o] == s.objects[o]
    {
      CountIs(s, o);
      CountIs(r, o);
    }
    assert r.objects == s.objects;
  }

  lemma {:induction false} CloseOpened(s: State, r: State, from: Pid, to: Pid, added: seq<Desc>, ids: seq<int>)
    requires Inv(s) && Opened(s, r, from, to, added) && from != to && to in r.tables && to in s.tables
    requires (forall d :: d in added ==> d.id in ids) && forall id :: id in ids && id != 0 ==> id >= s.tables[to].next
    ensures CloseList(r, to, ids) == s.(tables := s.tables[to := s.tables[to].(next := r.tables[to].next)])
    decreases |ids|
  {
    hide Opened, Inv;
    if ids == [] {
      SomeMember(added);
      NothingOpened(s, r, from, to);
    } else {
      assert ids == [ids[0]] + ids[1..] && ids[0] in ids;
      assert forall id :: id in ids[1..] ==> id in ids;
      AddedPositive(s, r, from, to, added);
      if ids[0] == 0 {
        CloseOpened(s, r, from, to, added, ids[1..]);
      } else {
        CloseOpenedOne(s, r, from, to, added, ids[0]);
        WithoutSubset(added, ids[0]);
        WithoutGone(s, r, from, to, added, ids[0]);
        CloseOpened(s, Close(r, to, ids[0]), from, to, Without(added, ids[0]), ids[1..]);
      }
    }
  }

  lemma AddedPositive(s: State, r: State, from: Pid, to: Pid, added: seq<Desc>)
    requires Inv(s) && Opened(s, r, from, to, added)
    ensures forall d :: d in added ==> d.id >= 1
  {
    hide InvBut;
  }

  lemma WithoutGone(s: State, r: State, from: Pid, to: Pid, added: seq<Desc>, id: int)
    requires Opened(s, r, from, to, added)
    ensures forall d :: d in Without(added, id) ==> d.id != id
  {
    hide Holders;
    PrefixDistinct(added, s.tables[to].entries, r.tables[to].next);
    WithoutSpec(added, r.tables[to].next, id);
  }

  lemma {:induction false} PrefixDistinct(a: seq<Desc>, b: seq<Desc>, next: int)
    requires Distinct(a + b, next)
    ensures Distinct(a, next)
  {
    if a != [] {
      assert (a + b)[1..] == a[1..] + b;
      PrefixDistinct(a[1..], b, next);
    }
  }

  /**
   Answering at once undoes passing: entries, counts and owners are as before, also when one object was passed several
   times or was known already. Only the next number to give out has moved on.
   */
  lemma AnswerUndoes(s: State, from: Pid, to: Pid, xs: seq<Param>)
    requires Inv(s) && from in s.tables && to in s.tables
    requires forall i :: 0 <= i < |xs| ==> Passable(s, from, to, xs[i])
    ensures var r := Pass(s, from, to, xs);
            CloseList(r.state, to, r.closes) ==
                s.(tables := s.tables[to := s.tables[to].(next := r.state.tables[to].next)])
  {
    hide Opened, Inv;
    var r := Pass(s, from, to, xs);
    if from == to {
      PassWithin(s, to, xs);
      CloseNone(s, to, r.closes);
      assert s.tables == s.tables[to := s.tables[to].(next := s.tables[to].next)];
    } else {
      var added := PassOpens(s, from, to, xs);
      CloseOpened(s, r.state, from, to, added, r.closes);
    }
  }

  lemma {:induction false} PassWithin(s: State, p: Pid, xs: seq<Param>)
    requires p in s.tables && forall i :: 0 <= i < |xs| ==> Passable(s, p, p, xs[i])
    ensures Pass(s, p, p, xs).state == s && forall id :: id in Pass(s, p, p, xs).closes ==> id == 0
    decreases |xs|
  {
    if xs != [] {
      PassWithin(s, p, xs[..|xs| - 1]);
    }
  }

  lemma {:induction false} CloseNone(s: State, p: Pid, ids: seq<int>)
    requires p in s.tables && forall id :: id in ids ==> id == 0
    ensures CloseList(s, p, ids) == s
    decreases |ids|
  {
    if ids != [] {
      assert ids[0] in ids && forall id :: id in ids[1..] ==> id in ids;
      CloseNone(s, p, ids[1..]);
    }
  }

  // ---------------------------------------------------------------- an object as the answer

  /** The answer of a request that returns an object: -1 for a descriptor that the server does not have. */
  function AnswerHandle(s: State, from: Pid, to: Pid, v: int): (State, int)
    requires from in s.tables && to in s.tables
  {
    if v < 0 || from == to then (s, v)
    else
      var o := Read(s.tables[from].entries, v);
      if o.None? || o.value !in s.objects then (s, -1)
      else
        var d := Lookup(s.tables[to].entries, o.value);
        if d == -1 then Add(s, to, o.value) else (s, d)
  }

  /** What the requester gets stands for the server's object, and its other descriptors keep their meaning. */
  lemma AnswerDenotes(s: State, from: Pid, to: Pid, v: int, o: Oid)
    requires Inv(s) && from in s.tables && to in s.tables && from != to && v >= 0
    requires Read(s.tables[from].entries, v) == Some(o)
    ensures var r := AnswerHandle(s, from, to, v);
            && Inv(r.0) && to in r.0.tables && Read(r.0.tables[to].entries, r.1) == Some(o)
            && forall id :: Read(s.tables[to].entries, id).Some? ==>
                Read(r.0.tables[to].entries, id) == Read(s.tables[to].entries, id)
  {
    hide Inv, Has;
    OpenedNone(s, from, to);
    OpenedObject(s, from, v, o);
    PassedEntries(s, s, from, to, [], v, o);
    PassOneReads(s, to, o);
    if !Has(s.tables[to].entries, o) {
      OpenedAdd(s, to, o);
    }
  }

  lemma OpenedObject(s: State, p: Pid, v: int, o: Oid)
    requires Inv(s) && p in s.tables && Read(s.tables[p].entries, v) == Some(o)
    ensures o in s.objects
  {
    hide Holders, Distinct;
    ReadSpec(s.tables[p].entries, s.tables[p].next, v);
    assert Desc(v, o) in s.tables[p].entries;
  }
}
