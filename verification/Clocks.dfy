/**
 The timer as the kernel keeps it: two counters, and the sleeping threads as a linked list that is walked and relinked.
 */
module Clocks {
  import opened Timer

  class SleepNode {
    const deadline: nat
    const thread: nat
    var next: SleepNode?

    constructor (deadline: nat, thread: nat, next: SleepNode?)
      ensures this.deadline == deadline && this.thread == thread && this.next == next
    {
      this.deadline, this.thread, this.next := deadline, thread, next;
    }
  }

  ghost function At(ns: seq<SleepNode>, i: nat): SleepNode? { if i < |ns| then ns[i] else null }

  /** The nodes of `ns`, each once, are what following `next` from `head` meets. */
  ghost predicate Chain(ns: seq<SleepNode>, head: SleepNode?)
    reads ns`next
  {
    && head == At(ns, 0)
    && (forall i {:trigger ns[i].next} :: 0 <= i < |ns| ==> ns[i].next == At(ns, i + 1))
    && (forall i, j :: 0 <= i < j < |ns| ==> ns[i] != ns[j])
  }

  ghost function Sleepers(ns: seq<SleepNode>): (l: seq<Sleeper>)
    ensures |l| == |ns| && forall i :: 0 <= i < |ns| ==> l[i] == Sleeper(ns[i].deadline, ns[i].thread)
  {
    seq(|ns|, i requires 0 <= i < |ns| => Sleeper(ns[i].deadline, ns[i].thread))
  }

  lemma ChainTail(ns: seq<SleepNode>, head: SleepNode)
    requires Chain(ns, head)
    ensures ns != [] && head == ns[0] && Chain(ns[1..], head.next)
  {
    var r := ns[1..];
    assert forall i :: 0 <= i < |r| ==> r[i] == ns[i + 1];
    assert ns[0].next == At(ns, 1);
  }

  /** Hang `x` in behind `e`, number `i` of the list. */
  method Hang(e: SleepNode, x: SleepNode, ghost ns: seq<SleepNode>, ghost i: nat)
    requires i < |ns| && Chain(ns, ns[0]) && e == ns[i] && x !in ns
    modifies e`next, x`next
    ensures Chain(ns[..i + 1] + [x] + ns[i + 1..], ns[0])
  {
    ghost var r := ns[..i + 1] + [x] + ns[i + 1..];
    x.next := e.next;
    e.next := x;
    forall j | 0 <= j < |r|
      ensures r[j].next == At(r, j + 1)
    {
      if j < i {
        assert r[j] == ns[j] && ns[j] != e;
      } else if j > i + 1 {
        assert r[j] == ns[j - 1] && ns[j - 1] != e;
      }
    }
  }

  class Clock {
    const frequency: nat
    var tick: nat
    var uptime: nat
    var sleeping: SleepNode?
    ghost var ticks: nat
    ghost var nodes: seq<SleepNode>
    ghost var repr: set<SleepNode>   // all nodes there have been

    ghost predicate Counts()
      reads this`tick, this`uptime, this`ticks
    {
      frequency > 0 && tick < frequency && ticks == uptime * frequency + tick
    }

    ghost predicate Listed()
      reads this`sleeping, this`nodes, this`repr, nodes`next
    {
      Chain(nodes, sleeping) && forall i :: 0 <= i < |nodes| ==> nodes[i] in repr
    }

    ghost predicate Valid()
      reads this, nodes`next
    {
      Counts() && Listed() && Sorted(Sleepers(nodes))
    }

    constructor (frequency: nat)
      requires frequency > 0
      ensures Valid() && ticks == 0 && nodes == [] && this.frequency == frequency && repr == {}
    {
      this.frequency := frequency;
      tick, uptime, sleeping := 0, 0, null;
      ticks, nodes, repr := 0, [], {};
    }

    /** `timer_time`. */
    function Time(): (ms: nat)
      requires Valid()
      reads this, nodes`next
      ensures ms == TimeAt(ticks, frequency)
    {
      TimeOfParts(uptime, tick, frequency);
      uptime * 1000 + tick * 1000 / frequency
    }

    /** `timer_callback`: one tick, and the threads whose time has come are woken in list order. */
    method Tick() returns (woken: seq<nat>)
      requires Valid()
      modifies this
      ensures Valid() && ticks == old(ticks) + 1 && repr == old(repr)
      ensures var l, k := old(Sleepers(nodes)), Due(old(Sleepers(nodes)), TimeAt(ticks, frequency));
              Sleepers(nodes) == l[k..] && woken == Threads(l[..k])
      ensures Past(ticks, Sleepers(nodes)) == Next(Past(old(ticks), old(Sleepers(nodes))), frequency, Ticked)
    {
      hide Listed, Sorted, TimeAt, Threads, Due;
      tick := tick + 1;
      ticks := ticks + 1;
      if tick == frequency {
        uptime := uptime + 1;
        tick := 0;
      }
      woken := WakeUpSleepingThreads();
    }

    /** `timer_wakeUpSleepingThreads`: nodes are taken off the front while they are due. */
    method WakeUpSleepingThreads() returns (woken: seq<nat>)
      requires Valid()
      modifies this`sleeping, this`nodes
      ensures Valid()
      ensures var l, k := old(Sleepers(nodes)), Due(old(Sleepers(nodes)), TimeAt(ticks, frequency));
              Sleepers(nodes) == l[k..] && woken == Threads(l[..k])
    {
      hide Counts, Listed, TimeAt, Sorted, Due, Sleepers;
      var time := Time();
      woken := [];
      ghost var l := Sleepers(nodes);
      Front();
      while sleeping != null && sleeping.deadline <= time
        invariant |woken| <= |l| && Sleepers(nodes) == l[|woken|..] && Listed() && sleeping == At(nodes, 0)
        invariant forall i :: 0 <= i < |woken| ==> l[i].deadline <= time && woken[i] == l[i].thread
        decreases |nodes|
      {
        woken := woken + [sleeping.thread];
        TakeFirst();
        Front();
      }
      DueIs(l, time, |woken|);
      SortedRest(l, |woken|);
    }

    method TakeFirst()
      requires Listed() && sleeping != null
      modifies this`sleeping, this`nodes
      ensures Listed() && |old(nodes)| > 0 && nodes == old(nodes)[1..] && Sleepers(nodes) == old(Sleepers(nodes))[1..]
    {
      ChainTail(nodes, sleeping);
      sleeping := sleeping.next;
      nodes := nodes[1..];
    }

    lemma Front()
      requires Listed()
      ensures sleeping == At(nodes, 0)
    {
    }

    /** The part of `thread_sleep` that enters the current thread into the list. */
    method Sleep(thread: nat, msecs: nat)
      requires Valid()
      modifies this`sleeping, this`nodes, this`repr, repr`next
      ensures Valid() && fresh(repr - old(repr))
      ensures Sleepers(nodes) == Entered(old(Sleepers(nodes)), Sleeper(TimeAt(ticks, frequency) + msecs, thread))
      ensures Past(ticks, Sleepers(nodes)) ==
              Next(Past(old(ticks), old(Sleepers(nodes))), frequency, Slept(thread, msecs))
    {
      hide Counts, TimeAt, Entered, Sorted, Chain;
      var sf := new SleepNode(Time() + msecs, thread, null);
      ghost var x, l := Sleeper(sf.deadline, thread), Sleepers(nodes);
      EnteredSorted(l, x);
      Front();
      if sleeping == null || sleeping.deadline >= sf.deadline {
        EnteredAt(l, x, 0);
        PutFirst(sf);
      } else {
        var tmp;
        ghost var i;
        tmp, i := Before(sf.deadline);
        EnteredAt(l, x, i + 1);
        PutBehind(tmp, sf, i);
      }
    }

    method PutBehind(tmp: SleepNode, sf: SleepNode, ghost i: nat)
      requires Listed() && i < |nodes| && tmp == nodes[i] && sf !in repr
      modifies this`nodes, this`repr, tmp`next, sf`next
      ensures Listed() && repr == old(repr) + {sf}
      ensures var l := old(Sleepers(nodes));
              Sleepers(nodes) == l[..i + 1] + [Sleeper(sf.deadline, sf.thread)] + l[i + 1..]
    {
      Front();
      hide Chain;
      Hang(tmp, sf, nodes, i);
      nodes := nodes[..i + 1] + [sf] + nodes[i + 1..];
      repr := repr + {sf};
    }

    method PutFirst(sf: SleepNode)
      requires Listed() && sf !in repr
      modifies this`sleeping, this`nodes, this`repr, sf`next
      ensures Listed() && repr == old(repr) + {sf}
      ensures var l := old(Sleepers(nodes)); Sleepers(nodes) == l[..0] + [Sleeper(sf.deadline, sf.thread)] + l[0..]
    {
      ghost var was := nodes;
      sf.next := sleeping;
      sleeping := sf;
      nodes := [sf] + was;
      repr := repr + {sf};
      forall j | 0 <= j < |nodes|
        ensures nodes[j].next == At(nodes, j + 1)
      {
        if j > 0 {
          assert nodes[j] == was[j - 1];
        }
      }
    }

    /** The walk of `thread_sleep`, the first node being earlier: the last node that is. */
    method Before(deadline: nat) returns (tmp: SleepNode, ghost i: nat)
      requires Valid() && nodes != [] && nodes[0].deadline < deadline
      ensures i < |nodes| && tmp == nodes[i] && (forall j :: 0 <= j <= i ==> nodes[j].deadline < deadline)
      ensures i + 1 < |nodes| ==> nodes[i + 1].deadline >= deadline
    {
      hide Sorted, Counts;
      tmp, i := sleeping, 0;
      while true
        invariant 0 <= i < |nodes| && tmp == nodes[i] && forall j :: 0 <= j <= i ==> nodes[j].deadline < deadline
        decreases |nodes| - i
      {
        if tmp.next == null || tmp.next.deadline >= deadline {
          break;
        }
        tmp := tmp.next;
        i := i + 1;
      }
    }
  }

  lemma SortedRest(l: seq<Sleeper>, k: nat)
    requires Sorted(l) && k <= |l|
    ensures Sorted(l[k..])
  {
  }
}
