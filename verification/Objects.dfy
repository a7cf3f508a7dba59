/**
 Objects and descriptors as the kernel keeps them: each process has a linked list of descriptors, newest first, which
 `object.c` walks and unlinks from. Every method is proved against `ObjectTables`.
 */
module Objects {
  import opened Common
  import opened ObjectTables

  lemma LookupFrom(es: seq<Desc>, k: nat, o: Oid)
    requires k <= |es| && forall i :: 0 <= i < k ==> es[i].obj != o
    ensures Lookup(es, o) == Lookup(es[k..], o)
  {
    if k > 0 {
      LookupFrom(es[1..], k - 1, o);
      assert es[1..][k - 1..] == es[k..];
    }
  }

  lemma ReadFrom(es: seq<Desc>, k: nat, id: int)
    requires k <= |es| && forall i :: 0 <= i < k ==> es[i].id != id
    ensures Read(es, id) == Read(es[k..], id)
  {
    if k > 0 {
      ReadFrom(es[1..], k - 1, id);
      assert es[1..][k - 1..] == es[k..];
    }
  }

  lemma WithoutAt(es: seq<Desc>, k: nat, id: int)
    requires k < |es| && es[k].id == id && forall i :: 0 <= i < k ==> es[i].id != id
    ensures Without(es, id) == es[..k] + es[k + 1..]
  {
    if k > 0 {
      WithoutAt(es[1..], k - 1, id);
      assert es[..k] == [es[0]] + es[1..][..k - 1] && es[1..][k..] == es[k + 1..];
    }
  }

  class DescNode {
    const id: int
    const obj: Oid
    var next: DescNode?

    constructor (id: int, obj: Oid, next: DescNode?)
      ensures this.id == id && this.obj == obj && this.next == next
    {
      this.id, this.obj, this.next := id, obj, next;
    }
  }

  /** The nodes of `ns`, each once, are what following `next` from `head` meets. */
  ghost predicate Chain(ns: seq<DescNode>, head: DescNode?)
    reads ns`next
  {
    && head == At(ns, 0)
    && (forall i {:trigger ns[i].next} :: 0 <= i < |ns| ==> ns[i].next == At(ns, i + 1))
    && (forall i, j :: 0 <= i < j < |ns| ==> ns[i] != ns[j])
  }

  ghost function At(ns: seq<DescNode>, i: nat): DescNode? { if i < |ns| then ns[i] else null }

  ghost function Entries(ns: seq<DescNode>): (es: seq<Desc>)
    ensures |es| == |ns| && forall i :: 0 <= i < |ns| ==> es[i] == Desc(ns[i].id, ns[i].obj)
  {
    seq(|ns|, i requires 0 <= i < |ns| => Desc(ns[i].id, ns[i].obj))
  }

  /** The descriptors of one process. */
  class DescTable {
    var head: DescNode?
    var nextId: int
    ghost var nodes: seq<DescNode>
    ghost var repr: set<DescNode>   // all nodes there have been

    ghost predicate Valid()
      reads this`head, this`nodes, this`repr, nodes`next
    {
      Chain(nodes, head) && forall i :: 0 <= i < |nodes| ==> nodes[i] in repr
    }

    ghost function Value(): Table
      reads this`nodes, this`nextId
    {
      Table(Entries(nodes), nextId)
    }

    constructor ()
      ensures Valid() && nodes == [] && nextId == 0 && repr == {}
    {
      head, nextId, nodes, repr := null, 0, [], {};
    }

    /** `objdesc_get`. */
    method Get(o: Oid) returns (id: int)
      requires Valid()
      ensures id == Lookup(Entries(nodes), o)
    {
      var it := head;
      ghost var i := 0;
      while it != null
        invariant 0 <= i <= |nodes| && it == At(nodes, i)
        invariant forall j :: 0 <= j < i ==> nodes[j].obj != o
        decreases |nodes| - i
      {
        LookupFrom(Entries(nodes), i, o);
        if it.obj == o {
          return it.id;
        }
        it := it.next;
        i := i + 1;
      }
      LookupFrom(Entries(nodes), i, o);
      return -1;
    }

    /** `objdesc_read`. */
    method Find(id: int) returns (o: Option<Oid>)
      requires Valid()
      ensures o == Read(Entries(nodes), id)
    {
      var it := head;
      ghost var i := 0;
      while it != null
        invariant 0 <= i <= |nodes| && it == At(nodes, i)
        invariant forall j :: 0 <= j < i ==> nodes[j].id != id
        decreases |nodes| - i
      {
        ReadFrom(Entries(nodes), i, id);
        if it.id == id {
          return Some(it.obj);
        }
        it := it.next;
        i := i + 1;
      }
      ReadFrom(Entries(nodes), i, id);
      return None;
    }

    /** The end of `objdesc_add`: a new node in front of the list. */
    method Push(o: Oid) returns (id: int)
      requires Valid()
      modifies this
      ensures Valid() && id == old(nextId) && nextId == id + 1 && Entries(nodes) == [Desc(id, o)] + old(Entries(nodes))
      ensures fresh(repr - old(repr))
    {
      id := nextId;
      var node := new DescNode(id, o, head);
      nodes := [node] + nodes;
      repr := repr + {node};
      head := node;
      nextId := nextId + 1;
    }

    /** `objdesc_rm`, with the node that is unlinked remembered first. */
    method Unlink(id: int) returns (gone: Option<Oid>)
      requires Valid()
      modifies this`head, this`nodes, repr`next
      ensures Valid() && gone == Read(old(Entries(nodes)), id) && Entries(nodes) == Without(old(Entries(nodes)), id)
    {
      hide Without, Read, Chain;
      ghost var es := Entries(nodes);
      Heads();
      if head == null {
        AbsentStays(es, id);
        return None;
      }
      if head.id == id {
        gone := Some(head.obj);
        ReadAt(es, 0, id);
        WithoutAt(es, 0, id);
        PopHead();
        return;
      }
      var e;
      ghost var i;
      e, i := Before(id);
      if e.next == null {
        AbsentStays(es, id);
        return None;
      }
      gone := Some(e.next.obj);
      ReadAt(es, i + 1, id);
      WithoutAt(es, i + 1, id);
      CutOut(e, i);
    }

    lemma Heads()
      requires Valid()
      ensures head == At(nodes, 0)
    {
    }

    method PopHead()
      requires Valid() && head != null
      modifies this`head, this`nodes
      ensures Valid() && |old(nodes)| > 0 && nodes == old(nodes)[1..]
      ensures Entries(nodes) == old(Entries(nodes))[..0] + old(Entries(nodes))[1..]
    {
      head := head.next;
      nodes := nodes[1..];
      assert forall i :: 0 <= i < |nodes| ==> nodes[i].next == old(nodes)[i + 1].next;
    }

    /**
     The walk of `objdesc_rm`, the first node being another: the node before the one with this number, or the last.
     */
    method Before(id: int) returns (e: DescNode, ghost i: nat)
      requires Valid() && nodes != [] && nodes[0].id != id
      ensures i < |nodes| && e == nodes[i] && e.next == At(nodes, i + 1) &&
              (forall j :: 0 <= j <= i ==> nodes[j].id != id)
      ensures e.next != null ==> i + 1 < |nodes| && nodes[i + 1].id == id
    {
      e, i := head, 0;
      while e.next != null && e.next.id != id
        invariant 0 <= i < |nodes| && e == nodes[i] && forall j :: 0 <= j <= i ==> nodes[j].id != id
        decreases |nodes| - i
      {
        e := e.next;
        i := i + 1;
      }
    }

    /** The node behind `e` is bypassed. */
    method CutOut(e: DescNode, ghost i: nat)
      requires Valid() && i + 1 < |nodes| && e == nodes[i]
      modifies this`nodes, repr`next
      ensures Valid() && nodes == old(nodes)[..i + 1] + old(nodes)[i + 2..]
      ensures Entries(nodes) == old(Entries(nodes))[..i + 1] + old(Entries(nodes))[i + 2..]
    {
      ghost var was := nodes;
      hide Chain;
      Heads();
      Bypass(e, was, i);
      nodes := was[..i + 1] + was[i + 2..];
    }
  }

  /** The node behind `e`, number `i` of the list, is bypassed. */
  method Bypass(e: DescNode, ghost ns: seq<DescNode>, ghost i: nat)
    requires i + 1 < |ns| && Chain(ns, ns[0]) && e == ns[i]
    modifies e`next
    ensures Chain(ns[..i + 1] + ns[i + 2..], ns[0])
  {
    ghost var rest := ns[..i + 1] + ns[i + 2..];
    e.next := e.next.next;
    forall j | 0 <= j < |rest|
      ensures rest[j].next == At(rest, j + 1)
    {
      if j < i {
        assert rest[j] == ns[j] && ns[j] != e;
      } else if j > i {
        assert rest[j] == ns[j + 1] && ns[j + 1] != e;
      }
    }
  }

  lemma AbsentStays(es: seq<Desc>, id: int)
    requires forall i :: 0 <= i < |es| ==> es[i].id != id
    ensures Without(es, id) == es && Read(es, id) == None
  {
    ReadFrom(es, |es|, id);
    assert es[|es|..] == [];
    WithoutAbsent(es, id);
  }

  lemma ReadAt(es: seq<Desc>, k: nat, id: int)
    requires k < |es| && es[k].id == id && forall i :: 0 <= i < k ==> es[i].id != id
    ensures Read(es, id) == Some(es[k].obj)
  {
    ReadFrom(es, k, id);
  }

  /** A process and the objects of the system; the tables of the other processes are looked at by none of this. */
  class Process {
    const pid: Pid
    const table: DescTable
    var objects: map<Oid, Object>
    ghost const others: map<Pid, Table>

    ghost predicate Valid()
      reads table, table.nodes`next
    {
      table.Valid() && pid !in others
    }

    ghost function View(): State
      reads this`objects, table
    {
      State(others[pid := table.Value()], objects)
    }

    constructor (pid: Pid, objects: map<Oid, Object>, ghost others: map<Pid, Table>)
      requires pid !in others
      ensures Valid() && fresh(table) && this.pid == pid && View() == State(others[pid := Table([], 0)], objects)
    {
      this.pid, this.objects, this.others := pid, objects, others;
      table := new DescTable();
      new;
      assert Entries(table.nodes) == [];
    }

    /** `objdesc_add`. */
    method AddDesc(o: Oid) returns (id: int)
      requires Valid() && o in objects
      modifies this`objects, table
      ensures Valid() && (View(), id) == Add(old(View()), pid, o)
    {
      hide Lookup;
      var tmp := table.Get(o);
      if tmp != -1 {
        return -1;
      }
      ghost var s := View();
      id := table.Push(o);
      assert others[pid := table.Value()] == s.tables[pid := table.Value()];
      objects := objects[o := objects[o].(descriptors := objects[o].descriptors + 1)];
    }

    /** `objdesc_rm`. */
    method RmDesc(id: int)
      requires Valid() && Inv(View())
      modifies this`objects, table, table.repr`next
      ensures Valid() && View() == Rm(old(View()), pid, id) && table.repr == old(table.repr)
    {
      hide Inv, Without, Read;
      ghost var s := View();
      var gone := table.Unlink(id);
      if gone.Some? {
        var o := gone.value;
        ReadExists(s, pid, id, o);
        objects := objects[o := objects[o].(descriptors := objects[o].descriptors - 1)];
      } else {
        WithoutAbsent(s.tables[pid].entries, id);
        assert table.Value() == s.tables[pid];
      }
    }

    /** `obj_closeP`. */
    method CloseDesc(id: int)
      requires Valid() && Inv(View())
      modifies this`objects, table, table.repr`next
      ensures Valid() && View() == Close(old(View()), pid, id) && table.repr == old(table.repr)
      ensures MayClose(old(View()), pid, id) ==> Inv(View())
    {
      hide Inv, Rm, Read;
      ghost var s := View();
      if MayClose(s, pid, id) {
        CloseInv(s, pid, id);
      }
      var obj := table.Find(id);
      if obj.None? {
        return;
      }
      var o := obj.value;
      ReadExists(s, pid, id, o);
      RmDesc(id);
      RmKeeps(s, pid, id, o);
      if objects[o].owner == Some(pid) {
        if objects[o].descriptors > 0 {
          objects := objects[o := objects[o].(owner := None)];
        } else {
          DeleteObject(o);
        }
      } else {
        if objects[o].descriptors == 0 && objects[o].owner == None {
          DeleteObject(o);
        }
      }
    }

    /** `obj_delete`. */
    method DeleteObject(o: Oid)
      requires o in objects
      modifies this`objects
      ensures View() == Delete(old(View()), o)
    {
      if objects[o].descriptors > 0 {
        return;
      }
      if objects[o].busy {
        return;
      }
      objects := objects - {o};
    }

    /** `obj_closeall`: it terminates, and leaves the process without descriptors. */
    method CloseAllDescs()
      requires Valid() && Inv(View()) && MayExit(View(), pid)
      modifies this`objects, table, table.repr`next
      ensures Valid() && table.head == null && View() == CloseAll(old(View()), pid) && Inv(View())
    {
      hide Inv, Close, MayExit;
      while table.head != null
        invariant Valid() && Inv(View()) && MayExit(View(), pid) && CloseAll(View(), pid) == CloseAll(old(View()), pid)
        invariant table.repr == old(table.repr)
        decreases |table.nodes|
      {
        ghost var s := View();
        CloseHead(s, pid);
        HeadOwned(s, pid);
        CloseDesc(table.head.id);
        assert Entries(table.nodes) == s.tables[pid].entries[1..];
      }
      assert Entries(table.nodes) == [];
    }
  }

  lemma ReadExists(s: State, p: Pid, id: int, o: Oid)
    requires Inv(s) && p in s.tables && Read(s.tables[p].entries, id) == Some(o)
    ensures o in s.objects
  {
    hide Holders, Distinct;
    ReadSpec(s.tables[p].entries, s.tables[p].next, id);
    assert Desc(id, o) in s.tables[p].entries;
  }

  lemma RmKeeps(s: State, p: Pid, id: int, o: Oid)
    requires p in s.tables && o in s.objects
    ensures o in Rm(s, p, id).objects
  {
  }
}
