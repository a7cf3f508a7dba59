/**
 Objects and the descriptor tables of processes: what each operation does to them, what all of them
 keep, and what passing descriptors from one process to another and back amounts to.
 */
module ObjectTables {
  import opened Common

  type Pid = nat
  type Oid = nat

  datatype Desc = Desc(id: int, obj: Oid)

  /** The descriptors of a process, newest first, and the number the next one will get. */
  datatype Table = Table(entries: seq<Desc>, next: int)

  /** `busy` stands for a locked mutex or an attached request. */
  datatype Object = Object(owner: Option<Pid>, descriptors: int, busy: bool)

  datatype State = State(tables: map<Pid, Table>, objects: map<Oid, Object>)

  // ---------------------------------------------------------------- one table

  /** `objdesc_get`: the descriptor of an object, or -1. */
  function Lookup(es: seq<Desc>, o: Oid): int
  {
    if es == [] then -1 else if es[0].obj == o then es[0].id else Lookup(es[1..], o)
  }

  /** `objdesc_read`: the object of a descriptor. */
  function Read(es: seq<Desc>, id: int): Option<Oid>
  {
    if es == [] then None else if es[0].id == id then Some(es[0].obj) else Read(es[1..], id)
  }

  /** The entries without the first one with this number. */
  function Without(es: seq<Desc>, id: int): seq<Desc>
  {
    if es == [] then [] else if es[0].id == id then es[1..] else [es[0]] + Without(es[1..], id)
  }

  /** Numbers and objects occur once each, and numbers have been given out already. */
  ghost predicate Distinct(es: seq<Desc>, next: int)
  {
    es != [] ==>
      && 0 <= es[0].id < next
      && (forall d :: d in es[1..] ==> d.id != es[0].id && d.obj != es[0].obj)
      && Distinct(es[1..], next)
  }

  lemma {:induction false} DistinctMembers(es: seq<Desc>, next: int)
    requires Distinct(es, next)
    ensures forall d :: d in es ==> 0 <= d.id < next
    ensures forall d, e :: d in es && e in es && (d.id == e.id || d.obj == e.obj) ==> d == e
  {
    if es != [] {
      DistinctMembers(es[1..], next);
      assert es == [es[0]] + es[1..];
    }
  }

  lemma {:induction false} DistinctLater(es: seq<Desc>, next: int, more: int)
    requires Distinct(es, next) && next <= more
    ensures Distinct(es, more)
  {
    if es != [] {
      DistinctLater(es[1..], next, more);
    }
  }

  ghost predicate Has(es: seq<Desc>, o: Oid) { exists d :: d in es && d.obj == o }

  lemma {:induction false} LookupSpec(es: seq<Desc>, next: int, o: Oid)
    requires Distinct(es, next)
    ensures Lookup(es, o) == -1 <==> !Has(es, o)
    ensures Lookup(es, o) != -1 ==> Desc(Lookup(es, o), o) in es
  {
    if es != [] {
      LookupSpec(es[1..], next, o);
      assert es[0] in es && es == [es[0]] + es[1..];
    }
  }

  lemma {:induction false} ReadSpec(es: seq<Desc>, next: int, id: int)
    requires Distinct(es, next)
    ensures forall o: Oid :: Read(es, id) == Some(o) <==> Desc(id, o) in es
  {
    if es != [] {
      ReadSpec(es[1..], next, id);
      assert es == [es[0]] + es[1..];
    }
  }

  lemma {:induction false} WithoutSpec(es: seq<Desc>, next: int, id: int)
    requires Distinct(es, next)
    ensures Distinct(Without(es, id), next)
    ensures forall d :: d in Without(es, id) <==> d in es && d.id != id
  {
    if es != [] {
      WithoutSpec(es[1..], next, id);
      assert es == [es[0]] + es[1..];
      if es[0].id != id {
        assert Without(es, id)[1..] == Without(es[1..], id);
      }
    }
  }

  // ---------------------------------------------------------------- the system

  /** The processes that have a descriptor for an object. */
  ghost function Holders(s: State, o: Oid): set<Pid> { set p | p in s.tables && Has(s.tables[p].entries, o) }

  /** The owner of an object of `loose` need not have a descriptor for it. */
  ghost predicate InvBut(s: State, loose: set<Oid>)
  {
    && (forall p :: p in s.tables ==> s.tables[p].next >= 0 && Distinct(s.tables[p].entries, s.tables[p].next))
    && (forall p, d :: p in s.tables && d in s.tables[p].entries ==> d.obj in s.objects)
    && (forall o :: o in s.objects ==> s.objects[o].descriptors == |Holders(s, o)|)
    && (forall o :: o in s.objects && o !in loose && s.objects[o].owner.Some? ==>
        s.objects[o].owner.value in Holders(s, o))
  }

  /** Every process has been given descriptor 0 for its root object, so later numbers are never 0. */
  ghost predicate Rooted(s: State)
  {
    forall p :: p in s.tables ==> s.tables[p].next >= 1
  }

  ghost predicate Inv(s: State) { InvBut(s, {}) && Rooted(s) }

  /** `objdesc_add`: -1 when the object is known already. */
  function Add(s: State, p: Pid, o: Oid): (State, int)
    requires p in s.tables && o in s.objects
  {
    var t := s.tables[p];
    if Lookup(t.entries, o) != -1 then (s, -1)
    else
      (State(s.tables[p := Table([Desc(t.next, o)] + t.entries, t.next + 1)],
             s.objects[o := s.objects[o].(descriptors := s.objects[o].descriptors + 1)]), t.next)
  }

  /** `objdesc_rm` as it is meant: unlink the entry and count one descriptor less for its object. */
  function Rm(s: State, p: Pid, id: int): State
    requires p in s.tables
  {
    var t := s.tables[p];
    var o := Read(t.entries, id);
    if o.None? || o.value !in s.objects then s
    else State(s.tables[p := t.(entries := Without(t.entries, id))],
               s.objects[o.value := s.objects[o.value].(descriptors := s.objects[o.value].descriptors - 1)])
  }

  /** `obj_delete`. */
  function Delete(s: State, o: Oid): State
    requires o in s.objects
  {
    if s.objects[o].descriptors > 0 || s.objects[o].busy then s else s.(objects := s.objects - {o})
  }

  /** `obj_closeP`. */
  function Close(s: State, p: Pid, id: int): State
    requires p in s.tables
  {
    var o := Read(s.tables[p].entries, id);
    if o.None? || o.value !in s.objects then s
    else Closed(Rm(s, p, id), p, o.value)
  }

  /** The rest of `obj_closeP`, after the descriptor is gone. */
  function Closed(s: State, p: Pid, o: Oid): State
    requires o in s.objects
  {
    var ob := s.objects[o];
    if ob.owner == Some(p) then
      if ob.descriptors > 0 then s.(objects := s.objects[o := ob.(owner := None)]) else Delete(s, o)
    else if ob.descriptors == 0 && ob.owner == None then Delete(s, o)
    else s
  }

  /** `obj_createP`: a new object, owned and named by the process. */
  function Create(s: State, p: Pid, o: Oid): (State, int)
    requires p in s.tables && o !in s.objects
  {
    Add(s.(objects := s.objects[o := Object(Some(p), 0, false)]), p, o)
  }

  // ---------------------------------------------------------------- what they keep

  /** Only process `p`'s descriptor for `o` has come or gone. */
  ghost predicate HoldersChange(s: State, r: State, p: Pid, o: Oid, holds: bool)
  {
    && Holders(r, o) == (if holds then Holders(s, o) + {p} else Holders(s, o) - {p})
    && forall q :: q != o ==> Holders(r, q) == Holders(s, q)
  }

  lemma TableHolders(s: State, p: Pid, es: seq<Desc>, next: int, o: Oid, objects: map<Oid, Object>)
    requires p in s.tables && (forall q :: q != o ==> (Has(es, q) <==> Has(s.tables[p].entries, q)))
    ensures HoldersChange(s, State(s.tables[p := Table(es, next)], objects), p, o, Has(es, o))
  {
    hide Has;
    var r := State(s.tables[p := Table(es, next)], objects);
    forall q | q != o
      ensures Holders(r, q) == Holders(s, q)
    {
      assert forall x :: x in Holders(r, q) <==> x in Holders(s, q);
    }
    assert forall x :: x in Holders(r, o) <==> x in (if Has(es, o) then Holders(s, o) + {p} else Holders(s, o) - {p});
  }

  lemma AddInv(s: State, p: Pid, o: Oid)
    requires p in s.tables && o in s.objects && InvBut(s, {o})
    requires s.objects[o].owner.Some? ==> s.objects[o].owner.value in Holders(s, o) + {p}
    ensures InvBut(Add(s, p, o).0, {})
    ensures Add(s, p, o).1 == -1 <==> Has(s.tables[p].entries, o)
  {
    hide Holders, Has, HoldersChange;
    var r, t := Add(s, p, o).0, s.tables[p];
    LookupSpec(t.entries, t.next, o);
    HolderHas(s, p, o);
    if !Has(t.entries, o) {
      var es := [Desc(t.next, o)] + t.entries;
      AddedEntry(t.entries, t.next, o);
      TableHolders(s, p, es, t.next + 1, o, r.objects);
      HolderHas(r, p, o);
      AddedHolder(s, r, p, o);
      ChangeInv(s, r, p, o);
    }
  }

  lemma HolderHas(s: State, p: Pid, o: Oid)
    requires p in s.tables
    ensures p in Holders(s, o) <==> Has(s.tables[p].entries, o)
  {
  }

  lemma AddedHolder(s: State, r: State, p: Pid, o: Oid)
    requires HoldersChange(s, r, p, o, true) && p !in Holders(s, o)
    ensures |Holders(r, o)| == |Holders(s, o)| + 1 && Holders(r, o) == Holders(s, o) + {p}
  {
  }

  lemma AddedEntry(es: seq<Desc>, next: int, o: Oid)
    requires Distinct(es, next) && next >= 0 && !Has(es, o)
    ensures Distinct([Desc(next, o)] + es, next + 1)
    ensures Has([Desc(next, o)] + es, o) && forall q :: q != o ==> (Has([Desc(next, o)] + es, q) <==> Has(es, q))
  {
    var fs := [Desc(next, o)] + es;
    assert fs[0] in fs && fs[1..] == es;
    assert forall d :: d in fs <==> d == Desc(next, o) || d in es;
    DistinctMembers(es, next);
    DistinctLater(es, next, next + 1);
  }

  /** One descriptor more or less, the count moved with it. */
  lemma ChangeInv(s: State, r: State, p: Pid, o: Oid)
    requires InvBut(s, {o}) && p in s.tables && o in s.objects && p in r.tables && o in r.objects
    requires r.tables == s.tables[p := r.tables[p]] && r.objects == s.objects[o := r.objects[o]]
    requires r.tables[p].next >= 0 && Distinct(r.tables[p].entries, r.tables[p].next)
    requires forall d :: d in r.tables[p].entries ==> d in s.tables[p].entries || d.obj == o
    requires HoldersChange(s, r, p, o, p in Holders(r, o))
    requires r.objects[o].descriptors == s.objects[o].descriptors + |Holders(r, o)| - |Holders(s, o)|
    ensures InvBut(r, {o})
    ensures (r.objects[o].owner.Some? ==> r.objects[o].owner.value in Holders(r, o)) ==> InvBut(r, {})
  {
    hide Holders, Distinct;
  }

  lemma RmInv(s: State, p: Pid, id: int, o: Oid)
    requires Inv(s) && p in s.tables && Read(s.tables[p].entries, id) == Some(o)
    ensures o in s.objects && InvBut(Rm(s, p, id), {o})
    ensures Holders(Rm(s, p, id), o) == Holders(s, o) - {p} && p in Holders(s, o)
    ensures (forall q :: q != o ==> Holders(Rm(s, p, id), q) == Holders(s, q))
  {
    var r, t := Rm(s, p, id), s.tables[p];
    var es := Without(t.entries, id);
    ReadSpec(t.entries, t.next, id);
    WithoutSpec(t.entries, t.next, id);
    DistinctMembers(t.entries, t.next);
    assert Desc(id, o) in t.entries;
    assert p in Holders(s, o);
    RmHas(t.entries, es, id, o);
    TableHolders(s, p, es, t.next, o, r.objects);
    ChangeInv(s, r, p, o);
  }

  lemma RmHas(es: seq<Desc>, rest: seq<Desc>, id: int, o: Oid)
    requires Desc(id, o) in es && (forall d :: d in rest <==> d in es && d.id != id)
    requires forall d, e :: d in es && e in es && (d.id == e.id || d.obj == e.obj) ==> d == e
    ensures !Has(rest, o) && forall q :: q != o ==> (Has(rest, q) <==> Has(es, q))
  {
  }

  /** The owner does not close an object that has a request in progress. */
  predicate MayClose(s: State, p: Pid, id: int)
    requires p in s.tables
  {
    var o := Read(s.tables[p].entries, id);
    o.Some? && o.value in s.objects && s.objects[o.value].owner == Some(p) ==> !s.objects[o.value].busy
  }

  /** `obj_closeP` keeps the counts exact, and frees an object only when no process names it and no request holds it. */
  lemma CloseInv(s: State, p: Pid, id: int)
    requires Inv(s) && p in s.tables && MayClose(s, p, id)
    ensures Inv(Close(s, p, id))
    ensures Close(s, p, id).tables == s.tables[p := s.tables[p].(entries := Without(s.tables[p].entries, id))]
    ensures forall o :: o in s.objects && o !in Close(s, p, id).objects ==>
            Holders(Close(s, p, id), o) == {} && !s.objects[o].busy
  {
    hide Holders, Distinct, Without;
    var t := s.tables[p];
    ReadSpec(t.entries, t.next, id);
    var ro := Read(t.entries, id);
    if ro.None? {
      WithoutAbsent(t.entries, id);
    } else {
      RmInv(s, p, id, ro.value);
      ClosedInv(Rm(s, p, id), p, ro.value);
      assert Close(s, p, id) == Closed(Rm(s, p, id), p, ro.value);
    }
  }

  /**
   A close frees the object exactly when that leaves nobody naming it and no request holds it; no other object
   changes, and the owner's close leaves the object without an owner.
   */
  lemma CloseFreesIff(s: State, p: Pid, id: int, o: Oid)
    requires Inv(s) && p in s.tables && MayClose(s, p, id) && Read(s.tables[p].entries, id) == Some(o)
    ensures var t := Close(s, p, id);
            && o in s.objects && Holders(t, o) == Holders(s, o) - {p}
            && (o !in t.objects <==> Holders(s, o) == {p} && !s.objects[o].busy)
            && (forall q :: q != o ==>
                (q in t.objects <==> q in s.objects) && (q in s.objects ==> t.objects[q] == s.objects[q]))
            && (o in t.objects ==>
                && t.objects[o].busy == s.objects[o].busy
                && t.objects[o].owner == if s.objects[o].owner == Some(p) then None else s.objects[o].owner)
  {
    hide Holders, Distinct, Without, InvBut;
    RmInv(s, p, id, o);
    var r := Rm(s, p, id);
    OwnerHolds(s, p, id, o);
    ClosedIff(r, p, o);
    assert Close(s, p, id) == Closed(r, p, o);
    assert Holders(r, o) == {} <==> Holders(s, o) == {p};
  }

  lemma OwnerHolds(s: State, p: Pid, id: int, o: Oid)
    requires Inv(s) && p in s.tables && o in s.objects && Read(s.tables[p].entries, id) == Some(o)
    requires Holders(Rm(s, p, id), o) == Holders(s, o) - {p}
    ensures var r := Rm(s, p, id);
            r.objects[o].owner.Some? && r.objects[o].owner != Some(p) ==> r.objects[o].owner.value in Holders(r, o)
  {
    hide Holders, Distinct;
  }

  lemma ClosedIff(s: State, p: Pid, o: Oid)
    requires InvBut(s, {o}) && o in s.objects && p !in Holders(s, o)
    requires s.objects[o].owner.Some? && s.objects[o].owner != Some(p) ==> s.objects[o].owner.value in Holders(s, o)
    requires s.objects[o].owner == Some(p) ==> !s.objects[o].busy
    ensures var t := Closed(s, p, o);
            && (forall q :: Holders(t, q) == Holders(s, q))
            && (o in t.objects <==> Holders(s, o) != {} || s.objects[o].busy)
            && (forall q :: q != o ==>
                (q in t.objects <==> q in s.objects) && (q in s.objects ==> t.objects[q] == s.objects[q]))
            && (o in t.objects ==>
                t.objects[o].owner == if s.objects[o].owner == Some(p) then None else s.objects[o].owner)
  {
    hide Distinct, Has;
    assert s.objects[o].descriptors == |Holders(s, o)|;
    assert Holders(s, o) == {} <==> |Holders(s, o)| == 0;
    assert forall q :: Holders(Closed(s, p, o), q) == Holders(s, q);
  }

  lemma {:induction false} WithoutAbsent(es: seq<Desc>, id: int)
    requires Read(es, id) == None
    ensures Without(es, id) == es
  {
    if es != [] {
      WithoutAbsent(es[1..], id);
    }
  }

  lemma ClosedInv(s: State, p: Pid, o: Oid)
    requires InvBut(s, {o}) && o in s.objects && p !in Holders(s, o)
    requires s.objects[o].owner.Some? && s.objects[o].owner != Some(p) ==> s.objects[o].owner.value in Holders(s, o)
    requires s.objects[o].owner == Some(p) ==> !s.objects[o].busy
    ensures Closed(s, p, o).tables == s.tables && InvBut(Closed(s, p, o), {})
    ensures forall q :: q in s.objects && q !in Closed(s, p, o).objects ==>
            Holders(Closed(s, p, o), q) == {} && !s.objects[q].busy
    ensures forall q :: Holders(Closed(s, p, o), q) == Holders(s, q)
  {
    hide Distinct, Has;
    var r := Closed(s, p, o);
    assert forall q :: Holders(r, q) == Holders(s, q);
    if o !in r.objects {
      assert Holders(s, o) == {};
      NobodyNames(s, o);
    }
  }

  lemma NobodyNames(s: State, o: Oid)
    requires Holders(s, o) == {}
    ensures forall x, d :: x in s.tables && d in s.tables[x].entries ==> d.obj != o
  {
    forall x, d | x in s.tables && d in s.tables[x].entries
      ensures d.obj != o
    {
      assert x !in Holders(s, o);
    }
  }

  /** A close takes away an owner at most. */
  lemma CloseOwners(s: State, p: Pid, id: int)
    requires p in s.tables
    ensures var t := Close(s, p, id);
            forall o :: o in t.objects ==> o in s.objects && t.objects[o].owner in {s.objects[o].owner, None}
  {
  }

  // ---------------------------------------------------------------- objdesc_rm as it is written

  /** A list with the entry unlinked but its successor freed in its stead, or a null pointer followed. */
  datatype RmResult = Done(state: State) | NullDeref | Dangling(state: State, freed: Desc)

  /** The position of a number in the list, or its length. */
  function Place(es: seq<Desc>, id: int): (i: nat)
    ensures i <= |es| && (i < |es| ==> es[i].id == id) && forall j :: 0 <= j < i ==> es[j].id != id
  {
    if es == [] || es[0].id == id then 0 else 1 + Place(es[1..], id)
  }

  /**
   For an entry that is not the first, the pointer that was just redirected is used once more: the
   successor is counted down and freed, or a null pointer is followed when there is none.
   */
  function RmAsWritten(s: State, p: Pid, id: int): RmResult
    requires p in s.tables
  {
    var t := s.tables[p];
    var i := Place(t.entries, id);
    if t.entries == [] then NullDeref
    else if i == 0 then Done(Rm(s, p, id))
    else if i == |t.entries| then Done(s)
    else if i + 1 == |t.entries| || t.entries[i + 1].obj !in s.objects then NullDeref
    else
      var v := t.entries[i + 1];
      Dangling(State(s.tables[p := t.(entries := t.entries[..i] + t.entries[i + 1..])],
                     s.objects[v.obj := s.objects[v.obj].(descriptors := s.objects[v.obj].descriptors - 1)]), v)
  }

  /** It does what it is meant to do exactly for the newest descriptor of the process. */
  lemma RmAsWrittenIff(s: State, p: Pid, id: int)
    requires p in s.tables && Read(s.tables[p].entries, id).Some?
    ensures RmAsWritten(s, p, id) == Done(Rm(s, p, id)) <==> s.tables[p].entries[0].id == id
  {
    ReadPlace(s.tables[p].entries, id);
  }

  lemma {:induction false} ReadPlace(es: seq<Desc>, id: int)
    ensures Read(es, id).Some? <==> Place(es, id) < |es|
  {
    if es != [] {
      ReadPlace(es[1..], id);
    }
  }

  /** `obj_closeP` with the removal as it is written. */
  function CloseAsWritten(s: State, p: Pid, id: int): RmResult
    requires p in s.tables
  {
    var o := Read(s.tables[p].entries, id);
    if o.None? || o.value !in s.objects then Done(s)
    else
      match RmAsWritten(s, p, id)
      case Done(t) => if o.value in t.objects then Done(Closed(t, p, o.value)) else Done(t)
      case r => r
  }

  /** Closing, too, does what it is meant to do exactly for the newest descriptor, and with it `obj_closeall` always. */
  lemma CloseAsWrittenIff(s: State, p: Pid, id: int)
    requires p in s.tables && Read(s.tables[p].entries, id).Some? && Read(s.tables[p].entries, id).value in s.objects
    ensures CloseAsWritten(s, p, id) == Done(Close(s, p, id)) <==> s.tables[p].entries[0].id == id
    ensures s.tables[p].entries[0].id != id ==> !CloseAsWritten(s, p, id).Done?
  {
    ReadPlace(s.tables[p].entries, id);
  }

  /** Removing the older of two descriptors follows a null pointer. */
  lemma RmOlder(a: Oid, b: Oid, ob: Object)
    ensures var s := State(map[0 := Table([Desc(1, b), Desc(0, a)], 2)], map[a := ob, b := ob]);
            RmAsWritten(s, 0, 0) == NullDeref
  {
    var es := [Desc(1, b), Desc(0, a)];
    assert es[1..] == [Desc(0, a)];
    assert Place(es[1..], 0) == 0;
    assert Place(es, 0) == 1;
  }

  // ---------------------------------------------------------------- the end of a process

  /** `obj_closeall`: close the newest descriptor until none is left. */
  function CloseAll(s: State, p: Pid): (r: State)
    requires p in s.tables
    ensures p in r.tables
    decreases |s.tables[p].entries|
  {
    var es := s.tables[p].entries;
    if es == [] then s
    else
      var s1 := Close(s, p, es[0].id);
      if p in s1.tables && |s1.tables[p].entries| < |es| then CloseAll(s1, p) else s
  }

  /** None of the objects that the process owns has a request in progress. */
  ghost predicate MayExit(s: State, p: Pid)
  {
    forall o :: o in s.objects && s.objects[o].owner == Some(p) ==> !s.objects[o].busy
  }

  lemma CloseHead(s: State, p: Pid)
    requires Inv(s) && p in s.tables && s.tables[p].entries != [] && MayExit(s, p)
    ensures var s1 := Close(s, p, s.tables[p].entries[0].id);
            Inv(s1) && s1.tables == s.tables[p := s.tables[p].(entries := s.tables[p].entries[1..])] && MayExit(s1, p)
  {
    hide InvBut, Rooted, Without;
    var es := s.tables[p].entries;
    assert Without(es, es[0].id) == es[1..] by {
      WithoutHead(es);
    }
    HeadOwned(s, p);
    CloseInv(s, p, es[0].id);
  }

  lemma WithoutHead(es: seq<Desc>)
    requires es != []
    ensures Without(es, es[0].id) == es[1..] && Read(es, es[0].id) == Some(es[0].obj)
  {
  }

  /** Closing never makes a process an owner nor an object busy. */
  lemma HeadOwned(s: State, p: Pid)
    requires p in s.tables && s.tables[p].entries != [] && MayExit(s, p)
    ensures MayClose(s, p, s.tables[p].entries[0].id) && MayExit(Close(s, p, s.tables[p].entries[0].id), p)
  {
    WithoutHead(s.tables[p].entries);
  }

  /** It ends with an empty table, the other tables untouched and all counts exact. */
  lemma {:induction false} CloseAllEmpties(s: State, p: Pid)
    requires Inv(s) && p in s.tables && MayExit(s, p)
    ensures Inv(CloseAll(s, p)) && CloseAll(s, p).tables == s.tables[p := s.tables[p].(entries := [])]
    decreases |s.tables[p].entries|
  {
    hide Inv, Close, MayExit;
    if s.tables[p].entries != [] {
      CloseHead(s, p);
      CloseAllEmpties(Close(s, p, s.tables[p].entries[0].id), p);
    }
  }

  /** So no object is left owned by the process, or counted as named by it. */
  lemma GoneForGood(s: State, p: Pid, o: Oid)
    requires Inv(s) && p in s.tables && MayExit(s, p) && o in CloseAll(s, p).objects
    ensures CloseAll(s, p).objects[o].owner != Some(p)
  {
    CloseAllEmpties(s, p);
    assert p !in Holders(CloseAll(s, p), o);
  }

  /**
   Exactly the objects that only this process names and no request holds are gone; of the others those that it owned are
   without an owner, and nothing else has changed.
   */
  lemma {:induction false} CloseAllExactly(s: State, p: Pid, o: Oid)
    requires Inv(s) && p in s.tables && MayExit(s, p) && o in s.objects
    ensures var t := CloseAll(s, p);
            && (o !in t.objects <==> Holders(s, o) == {p} && !s.objects[o].busy)
            && (o in t.objects ==>
                && t.objects[o].busy == s.objects[o].busy
                && t.objects[o].owner == if s.objects[o].owner == Some(p) then None else s.objects[o].owner)
    decreases |s.tables[p].entries|
  {
    hide Inv, Close, MayExit, Holders;
    if s.tables[p].entries == [] {
      NamesNothing(s, p, o);
    } else {
      var d := s.tables[p].entries[0];
      var s1 := Close(s, p, d.id);
      CloseHead(s, p);
      WithoutHead(s.tables[p].entries);
      HeadMay(s, p);
      CloseFreesIff(s, p, d.id, d.obj);
      CloseAllOwners(s1, p);
      if d.obj != o {
        HeadHolders(s, s1, p, o);
      }
      if o in s1.objects {
        CloseAllExactly(s1, p, o);
      }
    }
  }

  lemma HeadMay(s: State, p: Pid)
    requires p in s.tables && s.tables[p].entries != [] && MayExit(s, p)
    ensures MayClose(s, p, s.tables[p].entries[0].id)
  {
    HeadOwned(s, p);
  }

  lemma NamesNothing(s: State, p: Pid, o: Oid)
    requires Inv(s) && p in s.tables && s.tables[p].entries == [] && o in s.objects
    ensures p !in Holders(s, o) && s.objects[o].owner != Some(p)
  {
  }

  lemma HeadHolders(s: State, t: State, p: Pid, o: Oid)
    requires p in s.tables && s.tables[p].entries != [] && s.tables[p].entries[0].obj != o
    requires t.tables == s.tables[p := s.tables[p].(entries := s.tables[p].entries[1..])]
    ensures Holders(t, o) == Holders(s, o)
  {
    var es := s.tables[p].entries;
    assert es == [es[0]] + es[1..];
    assert Has(es, o) <==> Has(es[1..], o);
  }

  // ---------------------------------------------------------------- runs

  datatype Op =
    | NewProcess(p: Pid, root: Oid, manager: Option<Oid>)
    | NewObject(p: Pid, o: Oid)
    | Share(p: Pid, o: Oid)
    | CloseDesc(p: Pid, id: int)
    | SetBusy(o: Oid, busy: bool)
    | Exit(p: Pid)

  ghost predicate Enabled(s: State, op: Op)
  {
    match op
    case NewProcess(p, root, m) => p !in s.tables && root !in s.objects && (m.Some? ==> m.value in s.objects)
    case NewObject(p, o) => p in s.tables && o !in s.objects
    case Share(p, o) => p in s.tables && o in s.objects
    case CloseDesc(p, id) => p in s.tables && MayClose(s, p, id)
    case SetBusy(o, _) => o in s.objects
    case Exit(p) => p in s.tables && MayExit(s, p)
  }

  /** `process_new`: descriptor 0 for the root object, then one for the manager's. */
  function Spawn(s: State, p: Pid, root: Oid, m: Option<Oid>): State
    requires p !in s.tables && root !in s.objects && (m.Some? ==> m.value in s.objects)
  {
    var s1 := Create(s.(tables := s.tables[p := Table([], 0)]), p, root).0;
    if m.Some? && p in s1.tables && m.value in s1.objects then Add(s1, p, m.value).0 else s1
  }

  function Step(s: State, op: Op): State
    requires Enabled(s, op)
  {
    match op
    case NewProcess(p, root, m) => Spawn(s, p, root, m)
    case NewObject(p, o) => Create(s, p, o).0
    case Share(p, o) => Add(s, p, o).0
    case CloseDesc(p, id) => Close(s, p, id)
    case SetBusy(o, b) => s.(objects := s.objects[o := s.objects[o].(busy := b)])
    case Exit(p) => var r := CloseAll(s, p); r.(tables := r.tables - {p})
  }

  lemma CreateInv(s: State, p: Pid, o: Oid)
    requires InvBut(s, {}) && p in s.tables && o !in s.objects
    ensures InvBut(Create(s, p, o).0, {}) && Create(s, p, o).1 == s.tables[p].next
    ensures Create(s, p, o).0.tables ==
            s.tables[p := Table([Desc(s.tables[p].next, o)] + s.tables[p].entries, s.tables[p].next + 1)]
    ensures Create(s, p, o).0.objects == s.objects[o := Object(Some(p), 1, false)]
  {
    hide Distinct, Holders, InvBut;
    var s1 := s.(objects := s.objects[o := Object(Some(p), 0, false)]);
    NotKnown(s, p, o);
    StillNobody(s, s1, p, o);
    AddInv(s1, p, o);
  }

  lemma NotKnown(s: State, p: Pid, o: Oid)
    requires InvBut(s, {}) && p in s.tables && o !in s.objects
    ensures Lookup(s.tables[p].entries, o) == -1
  {
    hide Distinct, Holders;
    Unnamed(s, o);
    HolderHas(s, p, o);
    LookupSpec(s.tables[p].entries, s.tables[p].next, o);
  }

  lemma StillNobody(s: State, s1: State, p: Pid, o: Oid)
    requires InvBut(s, {}) && o !in s.objects && s1 == s.(objects := s.objects[o := Object(Some(p), 0, false)])
    ensures InvBut(s1, {o})
  {
    hide Distinct;
    Unnamed(s, o);
    assert forall q :: Holders(s1, q) == Holders(s, q);
    hide Holders;
  }

  lemma Unnamed(s: State, o: Oid)
    requires InvBut(s, {}) && o !in s.objects
    ensures Holders(s, o) == {}
  {
    hide Distinct;
  }

  lemma EmptyTable(s: State, p: Pid)
    requires InvBut(s, {}) && p !in s.tables
    ensures InvBut(s.(tables := s.tables[p := Table([], 0)]), {})
  {
    var r := s.(tables := s.tables[p := Table([], 0)]);
    assert forall o :: Holders(r, o) == Holders(s, o);
    hide Holders;
  }

  lemma SpawnInv(s: State, p: Pid, root: Oid, m: Option<Oid>)
    requires Inv(s) && p !in s.tables && root !in s.objects && (m.Some? ==> m.value in s.objects)
    ensures Inv(Spawn(s, p, root, m))
    ensures var t := Spawn(s, p, root, m);
            && t.tables == s.tables[p := if m.None? then Table([Desc(0, root)], 1)
                                         else Table([Desc(1, m.value), Desc(0, root)], 2)]
            && root in t.objects && t.objects[root] == Object(Some(p), 1, false)
            && (forall o :: o != root ==> (o in t.objects <==> o in s.objects))
            && (forall o :: o in s.objects ==>
                 t.objects[o] == s.objects[o].(descriptors := s.objects[o].descriptors + if m == Some(o) then 1 else 0))
  {
    hide Holders, Distinct, InvBut;
    var s0 := s.(tables := s.tables[p := Table([], 0)]);
    EmptyTable(s, p);
    CreateInv(s0, p, root);
    var s1 := Create(s0, p, root).0;
    var one := [Desc(0, root)];
    assert one + [] == one && one[1..] == [];
    if m.Some? {
      AddKnown(s1, p, m.value);
      assert Lookup(one, m.value) == -1;
      assert [Desc(1, m.value)] + one == [Desc(1, m.value), Desc(0, root)];
    }
  }

  /** A process that is given an object has one new descriptor for it, or none if it knows it. */
  lemma ShareExactly(s: State, p: Pid, o: Oid)
    requires Inv(s) && Enabled(s, Share(p, o))
    ensures var t, was := Step(s, Share(p, o)), s.tables[p];
            if Has(was.entries, o) then t == s
            else
              && t.tables == s.tables[p := Table([Desc(was.next, o)] + was.entries, was.next + 1)]
              && t.objects == s.objects[o := s.objects[o].(descriptors := s.objects[o].descriptors + 1)]
  {
    hide Holders, Distinct;
    LookupSpec(s.tables[p].entries, s.tables[p].next, o);
  }

  /** The end of a process: its table is gone, with what `CloseAllExactly` says of every object. */
  lemma ExitExactly(s: State, p: Pid, o: Oid)
    requires Inv(s) && Enabled(s, Exit(p)) && o in s.objects
    ensures var t := Step(s, Exit(p));
            && t.tables == s.tables - {p}
            && (o !in t.objects <==> Holders(s, o) == {p} && !s.objects[o].busy)
            && (o in t.objects ==>
                t.objects[o].owner == if s.objects[o].owner == Some(p) then None else s.objects[o].owner)
  {
    hide Inv, CloseAll, Holders;
    CloseAllEmpties(s, p);
    CloseAllExactly(s, p, o);
    assert s.tables[p := s.tables[p].(entries := [])] - {p} == s.tables - {p};
  }

  lemma AddKnown(s: State, p: Pid, o: Oid)
    requires InvBut(s, {}) && p in s.tables && o in s.objects
    ensures InvBut(Add(s, p, o).0, {})
  {
    hide Holders, Distinct;
    AddInv(s, p, o);
  }

  lemma BusyInv(s: State, o: Oid, b: bool)
    requires Inv(s) && o in s.objects
    ensures Inv(s.(objects := s.objects[o := s.objects[o].(busy := b)]))
  {
    hide Has, Distinct;
    var r := s.(objects := s.objects[o := s.objects[o].(busy := b)]);
    assert forall q :: Holders(r, q) == Holders(s, q);
  }

  lemma ForgetProcess(s: State, p: Pid)
    requires Inv(s) && p in s.tables && s.tables[p].entries == []
    ensures Inv(s.(tables := s.tables - {p}))
  {
    var r := s.(tables := s.tables - {p});
    assert forall o :: Holders(r, o) == Holders(s, o);
    hide Holders, Distinct;
  }

  lemma {:induction false} CloseAllOwners(s: State, p: Pid)
    requires p in s.tables
    ensures var t := CloseAll(s, p);
            forall o :: o in t.objects ==> o in s.objects && t.objects[o].owner in {s.objects[o].owner, None}
    decreases |s.tables[p].entries|
  {
    hide Close;
    var es := s.tables[p].entries;
    if es != [] {
      CloseOwners(s, p, es[0].id);
      var s1 := Close(s, p, es[0].id);
      if p in s1.tables && |s1.tables[p].entries| < |es| {
        CloseAllOwners(s1, p);
      }
    }
  }

  /** Nothing makes a process the owner of an object that was there before. */
  lemma StepOwners(s: State, op: Op, o: Oid)
    requires Inv(s) && Enabled(s, op) && o in s.objects && o in Step(s, op).objects
    ensures Step(s, op).objects[o].owner in {s.objects[o].owner, None}
  {
    hide Close, CloseAll, Inv;
    match op
    case CloseDesc(p, id) => CloseOwners(s, p, id);
    case Exit(p) => CloseAllOwners(s, p);
    case _ =>
  }

  /** Every operation keeps numbers unique, every count exact and every owner a holder. */
  lemma StepInv(s: State, op: Op)
    requires Inv(s) && Enabled(s, op)
    ensures Inv(Step(s, op))
  {
    hide InvBut, Close, CloseAll, Spawn;
    match op
    case NewProcess(p, root, m) => SpawnInv(s, p, root, m);
    case NewObject(p, o) => CreateInv(s, p, o);
    case Share(p, o) => AddKnown(s, p, o);
    case CloseDesc(p, id) => CloseInv(s, p, id);
    case SetBusy(o, b) => BusyInv(s, o, b);
    case Exit(p) =>
      CloseAllEmpties(s, p);
      ForgetProcess(CloseAll(s, p), p);
  }

  ghost predicate Reaches(s: State, ops: seq<Op>, r: State)
    decreases |ops|
  {
    if ops == [] then s == r else Enabled(s, ops[0]) && Reaches(Step(s, ops[0]), ops[1..], r)
  }

  lemma {:induction false} EveryRun(s: State, ops: seq<Op>, r: State)
    requires Inv(s) && Reaches(s, ops, r)
    ensures Inv(r)
    decreases |ops|
  {
    hide Inv, Step, Enabled;
    if ops != [] {
      StepInv(s, ops[0]);
      EveryRun(Step(s, ops[0]), ops[1..], r);
    }
  }

  /**
   From an empty system: an object's count is the number of processes with an entry for it, no table
   has a number or an object twice, numbers are below the next one, and what is named exists.
   */
  lemma CountsExact(ops: seq<Op>, r: State)
    requires Reaches(State(map[], map[]), ops, r)
    ensures forall o :: o in r.objects ==> r.objects[o].descriptors == |Holders(r, o)|
    ensures forall o :: o in r.objects && r.objects[o].owner.Some? ==> r.objects[o].owner.value in Holders(r, o)
    ensures forall p, d :: p in r.tables && d in r.tables[p].entries ==>
            d.obj in r.objects && 0 <= d.id < r.tables[p].next
    ensures forall p, d, e :: p in r.tables && d in r.tables[p].entries && e in r.tables[p].entries && (d.id == e.id || d.obj == e.obj) ==> d == e
  {
    EveryRun(State(map[], map[]), ops, r);
    hide Holders, Distinct;
    forall p | p in r.tables
      ensures forall d :: d in r.tables[p].entries ==> 0 <= d.id < r.tables[p].next
      ensures forall d, e :: d in r.tables[p].entries && e in r.tables[p].entries && (d.id == e.id || d.obj == e.obj) ==> d == e
    {
      DistinctMembers(r.tables[p].entries, r.tables[p].next);
    }
  }
}
