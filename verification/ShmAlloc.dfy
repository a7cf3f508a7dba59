/**
 The shared-memory address allocator as the library builds it: a doubly linked list of nodes that
 is split, marked and united in place. Every method is tied to `ShmSpace`.
 */
module ShmAlloc {
  import opened Common
  import opened Words
  import opened HeapBlocks
  import ShmSpace

  class Node {
    var start: int
    var size: int
    var isHole: bool
    var prev: Node?
    var next: Node?

    constructor (start: int, size: int, isHole: bool, prev: Node?, next: Node?)
      ensures this.start == start && this.size == size && this.isHole == isHole && this.prev == prev
      ensures this.next == next
    {
      this.start, this.size, this.isHole, this.prev, this.next := start, size, isHole, prev, next;
    }

    ghost function Value(): Block
      reads this`start, this`size, this`isHole
    {
      Block(start, size, isHole)
    }
  }

  /** The nodes are different objects and each points at its neighbours. */
  ghost predicate Chained(ns: seq<Node>)
    reads ns`prev, ns`next
  {
    && (forall i, j :: 0 <= i < j < |ns| ==> ns[i] != ns[j])
    && (forall i {:trigger ns[i].prev} :: 0 <= i < |ns| ==> ns[i].prev == if i == 0 then null else ns[i - 1])
    && (forall i {:trigger ns[i].next} :: 0 <= i < |ns| ==> ns[i].next == if i == |ns| - 1 then null else ns[i + 1])
  }

  /** Link `newb`, whose own links are set, in behind `b`. */
  method LinkAfter(b: Node, newb: Node, ghost ns: seq<Node>, ghost k: nat)
    requires Chained(ns) && k < |ns| && ns[k] == b && newb !in ns && newb.prev == b && newb.next == b.next
    modifies ns`prev, ns`next
    ensures Chained(ns[..k + 1] + [newb] + ns[k + 1..])
  {
    assert b.next == if k == |ns| - 1 then null else ns[k + 1];
    if b.next != null {
      b.next.prev := newb;
    }
    b.next := newb;
    ghost var r := ns[..k + 1] + [newb] + ns[k + 1..];
    assert forall i :: 0 <= i < |r| ==> r[i] == if i <= k then ns[i] else if i == k + 1 then newb else ns[i - 1];
  }

  /** Take the node behind `b` out of the list. */
  method UnlinkAfter(b: Node, ghost ns: seq<Node>, ghost k: nat)
    requires Chained(ns) && k + 1 < |ns| && ns[k] == b && b.next == ns[k + 1]
    modifies ns`prev, ns`next
    ensures Chained(ns[..k + 1] + ns[k + 2..])
  {
    var n := b.next;
    assert n.next == if k + 1 == |ns| - 1 then null else ns[k + 2];
    if n.next != null {
      n.next.prev := b;
    }
    b.next := n.next;
    ghost var r := ns[..k + 1] + ns[k + 2..];
    assert forall i :: 0 <= i < |r| ==> r[i] == if i <= k then ns[i] else ns[i + 1];
  }

  ghost predicate Holds(ns: seq<Node>, bs: seq<Block>)
    reads ns`start, ns`size, ns`isHole
  {
    |ns| == |bs| && forall i :: 0 <= i < |ns| ==> ns[i].Value() == bs[i]
  }

  lemma HoldsInsert(ns: seq<Node>, bs: seq<Block>, k: nat, n: Node)
    requires Holds(ns, bs) && k < |ns|
    ensures Holds(ns[..k + 1] + [n] + ns[k + 1..], bs[..k + 1] + [n.Value()] + bs[k + 1..])
  {
  }

  lemma HoldsCut(ns: seq<Node>, bs: seq<Block>, k: nat)
    requires Holds(ns, bs) && k < |ns|
    ensures Holds(ns[..k] + ns[k + 1..], bs[..k] + bs[k + 1..])
  {
  }

  lemma Halved(bs: seq<Block>, k: nat, x: Block, y: Block)
    requires k < |bs|
    ensures bs[k := x][..k + 1] + [y] + bs[k := x][k + 1..] == bs[..k] + [x, y] + bs[k + 1..]
  {
  }

  class Allocator {
    var blocks: Node?
    ghost var nodes: seq<Node>
    ghost var view: seq<Block>

    /** The list of nodes holds `view`; before the first request there is none, and it stands for one hole. */
    ghost predicate Valid()
      reads this, nodes
    {
      && Chained(nodes)
      && (nodes == [] ==> blocks == null && view == ShmSpace.INITIAL)
      && (nodes != [] ==> blocks == nodes[0] && Holds(nodes, view))
    }

    constructor ()
      ensures Valid() && view == ShmSpace.INITIAL
    {
      blocks, nodes, view := null, [], ShmSpace.INITIAL;
    }

    /** `shm_init`. */
    method Init()
      requires Valid() && nodes == []
      modifies this
      ensures Valid() && fresh(nodes) && nodes != [] && view == old(view)
    {
      var b := new Node(ShmSpace.LOW, ShmSpace.HIGH - ShmSpace.LOW, true, null, null);
      blocks, nodes := b, [b];
    }

    /** The loop of `shm_alloc` that looks at every block for the closest size. */
    method Closest(size: int) returns (block: Node?, ghost k: nat)
      requires Valid() && nodes != []
      ensures |view| == |nodes| && k == ShmSpace.Chosen(view, |view|, size)
      ensures block == if k < |nodes| then nodes[k] else null
    {
      var i := blocks;
      ghost var n := 0;
      block, k := null, 0;
      while i != null
        invariant 0 <= n <= |nodes|
        invariant i == if n < |nodes| then nodes[n] else null
        invariant k == ShmSpace.Chosen(view, n, size)
        invariant block == if k < n then nodes[k] else null
        decreases |nodes| - n
      {
        assert view[n] == nodes[n].Value() && (k < n ==> view[k] == nodes[k].Value());
        if i.size >= size && i.isHole && (block == null || i.size < block.size) {
          block := i;
          k := n;
        } else if block == null {
          k := n + 1;
        }
        assert nodes[n].next == if n == |nodes| - 1 then null else nodes[n + 1];
        i := i.next;
        n := n + 1;
      }
    }

    /** Cut a block in two after `size` bytes; the new node is linked in behind it. */
    method Split(block: Node, size: int, ghost k: nat)
      requires Valid() && k < |nodes| && block == nodes[k]
      modifies this`nodes, this`view, nodes
      ensures Valid() && k < |nodes| && block == nodes[k]
      ensures forall n :: n in nodes ==> n in old(nodes) || fresh(n)
      ensures var b := old(view)[k];
              view ==
                  old(view)[..k] + [b.(size := size), Block(b.addr + size, b.size - size, true)] + old(view)[k + 1..]
    {
      hide Chained, Holds;
      NodeValue(block, k);
      var start, rest := block.start + size, block.size - size;
      SetSize(block, size, k);
      InsertBehind(block, start, rest, k);
      Halved(old(view), k, old(view)[k].(size := size), Block(start, rest, true));
    }

    /** A new hole is linked in behind the node at `k`. */
    method InsertBehind(block: Node, start: int, size: int, ghost k: nat)
      requires Valid() && k < |nodes| && block == nodes[k]
      modifies this`nodes, this`view, nodes
      ensures Valid() && k < |nodes| && block == nodes[k]
      ensures forall n :: n in nodes ==> n in old(nodes) || fresh(n)
      ensures view == old(view)[..k + 1] + [Block(start, size, true)] + old(view)[k + 1..]
    {
      hide Chained, Holds;
      NodeValue(block, k);
      ghost var ns, v := nodes, view;
      var newb := new Node(start, size, true, block, block.next);
      LinkAfter(block, newb, ns, k);
      HoldsInsert(ns, v, k, newb);
      nodes := ns[..k + 1] + [newb] + ns[k + 1..];
      view := v[..k + 1] + [newb.Value()] + v[k + 1..];
    }

    /** Assignment to `size` of the node at `k`. */
    method SetSize(block: Node, size: int, ghost k: nat)
      requires Valid() && k < |nodes| && block == nodes[k]
      modifies this`view, block`size
      ensures Valid() && view == old(view)[k := old(view)[k].(size := size)]
    {
      assert block.Value() == view[k];
      block.size := size;
      view := view[k := view[k].(size := size)];
      forall i | 0 <= i < |nodes|
        ensures nodes[i].Value() == view[i]
      {
        assert old(nodes[i].Value()) == old(view)[i];
      }
    }

    /** `shm_alloc`: 0 when no hole is large enough. */
    method Alloc(request: Word) returns (ptr: int)
      requires Valid()
      modifies this, nodes
      ensures Valid()
      ensures ptr == ShmSpace.Alloc(old(view), request).ptr && view == ShmSpace.Alloc(old(view), request).blocks
    {
      hide Chained, Holds, ShmSpace.Chosen;
      if blocks == null {
        Init();
      }
      var size := if request % PAGE != 0 then Wrap(request - request % PAGE + PAGE) else request;
      var block;
      ghost var k;
      block, k := Closest(size);
      if block == null {
        return 0;
      }
      ghost var bs := view;
      NodeValue(block, k);
      if block.size > size {
        Split(block, size, k);
      }
      SetHole(block, false, k);
      NodeValue(block, k);
      assert view == ShmSpace.Take(bs, k, size);
      ptr := block.start;
    }

    /** Assignment to `is_hole` of the node at `k`. */
    method SetHole(block: Node, h: bool, ghost k: nat)
      requires Valid() && k < |nodes| && block == nodes[k]
      modifies this`view, block`isHole
      ensures Valid() && view == old(view)[k := old(view)[k].(hole := h)]
    {
      assert block.Value() == view[k];
      block.isHole := h;
      view := view[k := view[k].(hole := h)];
      forall i | 0 <= i < |nodes|
        ensures nodes[i].Value() == view[i]
      {
        assert old(nodes[i].Value()) == old(view)[i];
      }
    }

    /** `unify`. */
    method Unify(b: Node, ghost k: nat)
      requires Valid() && k < |nodes| && b == nodes[k]
      modifies this`nodes, this`view, nodes
      ensures Valid() && k < |nodes| && b == nodes[k] && view == ShmSpace.UnifyAt(old(view), k)
      ensures forall i :: 0 <= i < |nodes| ==> nodes[i] in old(nodes)
      ensures k > 0 ==> nodes[k - 1] == old(nodes)[k - 1]
    {
      hide Chained, Holds;
      ghost var ns := nodes;
      NextHole(b, k);
      NodeValue(b, k);
      if b.next == null || !b.isHole || !b.next.isHole {
        return;
      }
      NodeValue(b.next, k + 1);
      SetSize(b, b.size + b.next.size, k);
      ghost var v := view;
      UnlinkAfter(b, ns, k);
      HoldsCut(ns, v, k + 1);
      nodes := ns[..k + 1] + ns[k + 2..];
      view := v[..k + 1] + v[k + 2..];
      assert view == ShmSpace.UnifyAt(old(view), k);
    }

    /** The loop of `shm_free` that looks for the block. */
    method FindNode(p: int) returns (bl: Node?, ghost k: nat)
      requires Valid() && nodes != []
      ensures |view| == |nodes| && k == ShmSpace.Find(view, p)
      ensures bl == if k < |nodes| then nodes[k] else null
    {
      bl, k := blocks, 0;
      while bl != null
        invariant 0 <= k <= |nodes|
        invariant bl == if k < |nodes| then nodes[k] else null
        invariant forall i :: 0 <= i < k ==> view[i].addr != p
        decreases |nodes| - k
      {
        assert nodes[k].Value() == view[k];
        if bl.start == p {
          break;
        }
        assert nodes[k].next == if k == |nodes| - 1 then null else nodes[k + 1];
        bl := bl.next;
        k := k + 1;
      }
      ShmSpace.FindIs(view, p, k);
    }

    /** `shm_free`: nothing for an address at which no block starts. */
    method Free(p: int)
      requires Valid()
      modifies this, nodes
      ensures Valid() && view == ShmSpace.Free(old(view), p)
    {
      hide Holds, Chained, ShmSpace.Find, ShmSpace.GiveBack;
      if blocks == null {
        ShmSpace.FreeInitial(p);
        return;
      }
      var bl;
      ghost var k;
      bl, k := FindNode(p);
      if bl == null {
        return;
      }
      ghost var bs := view;
      SetHole(bl, true, k);
      ShmSpace.UnifyTwice(bs, k);
      NextHole(bl, k);
      if bl.next != null && bl.next.isHole {
        Unify(bl, k);
      }
      assert view == ShmSpace.UnifyAt(bs[k := bs[k].(hole := true)], k);
      PrevHole(bl, k);
      assert forall i :: 0 <= i < |nodes| ==> nodes[i] in old(nodes);
      if bl.prev != null && bl.prev.isHole {
        Unify(bl.prev, k - 1);
      }
    }

    lemma NodeValue(b: Node, k: nat)
      requires Valid() && k < |nodes| && b == nodes[k]
      ensures k < |view| && b.Value() == view[k]
    {
    }

    lemma NextHole(bl: Node, k: nat)
      requires Valid() && k < |nodes| && bl == nodes[k]
      ensures bl.next == if k + 1 < |nodes| then nodes[k + 1] else null
      ensures |view| == |nodes| && (k + 1 < |nodes| ==> view[k + 1].hole == nodes[k + 1].isHole)
    {
      assert nodes[k].next == if k == |nodes| - 1 then null else nodes[k + 1];
      assert k + 1 < |nodes| ==> nodes[k + 1].Value() == view[k + 1];
    }

    lemma PrevHole(bl: Node, k: nat)
      requires Valid() && k < |nodes| && bl == nodes[k]
      ensures bl.prev == if k > 0 then nodes[k - 1] else null
      ensures |view| == |nodes| && (k > 0 ==> view[k - 1].hole == nodes[k - 1].isHole)
    {
      assert nodes[k].prev == if k == 0 then null else nodes[k - 1];
      assert k > 0 ==> nodes[k - 1].Value() == view[k - 1];
    }
  }
}
