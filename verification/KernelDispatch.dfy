/**
 Who runs next: threads that become ready stand behind those that are, each at its priority, in the order in which they
 were woken; a switch puts the thread that gives up the processor behind them and takes the first of the most urgent.
 */
module KernelDispatch {
  import opened Common
  import opened Queues
  import opened Kernel
  import opened Lists

  /** Those of `l`, in their order, that have priority `p`. */
  function OfPriority(threads: map<Tid, Thread>, l: seq<Tid>, p: nat): seq<Tid>
  {
    if l == [] then []
    else (if l[0] in threads && threads[l[0]].priority == p then [l[0]] else []) + OfPriority(threads, l[1..], p)
  }

  /** The ready queues with `l` behind them. */
  function Lined(k: State, l: seq<Tid>): (qs: seq<seq<Tid>>)
    ensures |qs| == |k.queues|
  {
    seq(|k.queues|, p requires 0 <= p < |k.queues| => k.queues[p] + OfPriority(k.threads, l, p))
  }

  /** The current thread, if it could go on and is not the idle one. */
  function Yields(k: State): seq<Tid>
  {
    if k.current.Some? && k.current.value in k.threads && k.threads[k.current.value].running &&
        k.current != Some(k.idle) then [k.current.value] else []
  }

  /** In `l` the first thread of the most urgent queue of `qs` runs and is out of it; the idle one if all are empty. */
  ghost predicate Dispatched(qs: seq<seq<Tid>>, idle: Tid, l: State)
  {
    || ((forall p :: 0 <= p < |qs| ==> qs[p] == []) && l.current == Some(idle) && l.queues == qs)
    || exists p :: FirstOf(qs, p, l)
  }

  ghost predicate FirstOf(qs: seq<seq<Tid>>, p: int, l: State)
  {
    && 0 <= p < |qs| && qs[p] != [] && (forall j :: 0 <= j < p ==> qs[j] == [])
    && l.current == Some(qs[p][0]) && l.queues == qs[p := qs[p][1..]]
  }

  lemma LinedNone(k: State)
    ensures Lined(k, []) == k.queues
  {
    forall p | 0 <= p < |k.queues|
      ensures Lined(k, [])[p] == k.queues[p]
    {
      assert k.queues[p] + [] == k.queues[p];
    }
  }

  lemma LinedOne(k: State, t: Tid)
    requires t in k.threads && k.threads[t].priority < |k.queues|
    ensures Lined(k, [t]) == Append(k.queues, k.threads[t].priority, t)
  {
    var l: seq<Tid> := [t];
    assert l[1..] == [];
    forall p | 0 <= p < |k.queues|
      ensures Lined(k, l)[p] == Append(k.queues, k.threads[t].priority, t)[p]
    {
      assert OfPriority(k.threads, l, p) == if k.threads[t].priority == p then l else [];
      assert k.queues[p] + [] == k.queues[p];
    }
  }

  /** `tasking_switch`. */
  lemma SwitchDispatches(k: State)
    requires forall t :: t in k.threads ==> k.threads[t].priority < |k.queues|
    ensures Dispatched(Lined(k, Yields(k)), k.idle, Switch(k))
  {
    hide Lined;
    var qs := Lined(k, Yields(k));
    if Yields(k) == [] {
      LinedNone(k);
    } else {
      LinedOne(k, k.current.value);
    }
    assert Switch(k).queues == Popped(qs);
    if Level(qs) < |qs| {
      assert FirstOf(qs, Level(qs), Switch(k));
    }
  }

  /** The same away from a thread that has blocked or is gone. */
  lemma BlockedSwitch(k: State)
    requires forall t :: t in k.threads ==> k.threads[t].priority < |k.queues|
    requires k.current.Some? && k.current.value in k.threads ==> !k.threads[k.current.value].running
    ensures Dispatched(k.queues, k.idle, Switch(k))
  {
    hide Switch, Dispatched;
    SwitchDispatches(k);
    LinedNone(k);
  }

  ghost predicate Wakeable(k: State, l: seq<Tid>)
  {
    NoTwice(l) && forall t :: t in l ==>
        t in k.threads && !k.threads[t].running && t != k.idle && k.threads[t].priority < |k.queues|
  }

  lemma WakeLines(k: State, t: Tid)
    requires Wakeable(k, [t])
    ensures WakeUp(k, t).queues == Lined(k, [t])
  {
    hide Lined;
    var l: seq<Tid> := [t];
    assert t in l;
    LinedOne(k, t);
  }

  lemma {:induction false} SamePriorities(ts: map<Tid, Thread>, us: map<Tid, Thread>, l: seq<Tid>, p: nat)
    requires forall t :: t in l ==> t in ts && t in us && us[t].priority == ts[t].priority
    ensures OfPriority(us, l, p) == OfPriority(ts, l, p)
  {
    if l != [] {
      assert l[0] in l;
      SamePriorities(ts, us, l[1..], p);
    }
  }

  lemma {:induction false} OfPriorityAppend(ts: map<Tid, Thread>, l: seq<Tid>, m: seq<Tid>, p: nat)
    ensures OfPriority(ts, l + m, p) == OfPriority(ts, l, p) + OfPriority(ts, m, p)
  {
    if l == [] {
      assert l + m == m;
    } else {
      assert (l + m)[1..] == l[1..] + m && (l + m)[0] == l[0];
      OfPriorityAppend(ts, l[1..], m, p);
    }
  }

  /** Lining up some threads and then others is lining them all up. */
  lemma LinedTwice(k: State, k1: State, l: seq<Tid>, m: seq<Tid>)
    requires k1.queues == Lined(k, l)
    requires forall t :: t in m ==> t in k.threads && t in k1.threads && k1.threads[t].priority == k.threads[t].priority
    ensures Lined(k1, m) == Lined(k, l + m)
  {
    forall p | 0 <= p < |k.queues|
      ensures Lined(k1, m)[p] == Lined(k, l + m)[p]
    {
      SamePriorities(k.threads, k1.threads, m, p);
      OfPriorityAppend(k.threads, l, m, p);
    }
  }

  /** `thread_wakeUp` of each in turn. */
  lemma {:induction false} WakeAllLines(k: State, l: seq<Tid>)
    requires Wakeable(k, l)
    ensures WakeAll(k, l).queues == Lined(k, l)
    decreases |l|
  {
    hide Lined, WakeUp;
    if l == [] {
      LinedNone(k);
    } else {
      var first: seq<Tid> := [l[0]];
      var k1 := WakeUp(k, l[0]);
      assert l[0] in l && first + l[1..] == l;
      WakeLines(k, l[0]);
      forall t | t in l[1..]
        ensures t in k1.threads && t != l[0] && k1.threads[t] == k.threads[t]
      {
        var i :| 0 <= i < |l[1..]| && l[1..][i] == t;
        assert l[i + 1] == t && t in l;
      }
      RestWakeable(k, k1, l);
      WakeAllLines(k1, l[1..]);
      LinedTwice(k, k1, first, l[1..]);
    }
  }

  lemma RestWakeable(k: State, k1: State, l: seq<Tid>)
    requires l != [] && Wakeable(k, l) && k1.idle == k.idle && |k1.queues| == |k.queues|
    requires forall t :: t in l[1..] ==> t in k.threads && t in k1.threads && k1.threads[t] == k.threads[t]
    ensures Wakeable(k1, l[1..])
  {
    assert l == [l[0]] + l[1..];
    NoTwiceFirst(l[0], l[1..]);
  }
}
