/**
 Scheduling: at every step boundary each thread that can run, other than the current and the idle
 one, waits in exactly one ready queue, once, at its priority; blocked threads wait in none; and the
 idle thread is never queued again after it was first taken out.
 */
module KernelSched {
  import opened Common
  import opened Queues
  import opened Kernel

  /** The threads of `loose` may be able to run and still wait nowhere. */
  ghost predicate ScheduledBut(k: State, loose: set<Tid>)
  {
    && |k.queues| == PRIORITIES && Once(k.queues)
    && k.idle in k.threads && k.threads[k.idle].running
    && (k.current.Some? ==> k.current.value in k.threads)
    && (forall t :: t in k.threads ==> k.threads[t].priority < PRIORITIES)
    && (forall q, t :: 0 <= q < |k.queues| && t in k.queues[q] ==> t in k.threads && k.threads[t].priority == q)
    && (forall t :: Waits(k.queues, t) ==> t in k.threads && k.threads[t].running && k.current != Some(t))
    && (forall t :: t in k.threads && k.threads[t].running && k.current != Some(t) && t !in loose ==>
        Waits(k.queues, t))
  }

  /** Inside a step, between blocking the current thread and switching away from it. */
  ghost predicate Scheduled(k: State) { ScheduledBut(k, {k.idle}) }

  /** At a step boundary the current thread can run. */
  ghost predicate SchedInv(k: State)
  {
    && Scheduled(k)
    && (k.current.Some? ==> k.threads[k.current.value].running && !Waits(k.queues, k.idle))
    && (k.current.None? ==> AtBoot(k))
  }

  /** Before the first switch the idle thread stands first in its queue. */
  ghost predicate AtBoot(k: State)
  {
    |k.queues| == PRIORITIES && k.queues[0] != [] && k.queues[0][0] == k.idle
  }

  /** A thread that can run, is not the current one and waits nowhere is put into its queue. */
  lemma EnqueueScheduled(k: State, t: Tid)
    requires ScheduledBut(k, {k.idle, t}) && t in k.threads && t != k.idle
    requires k.threads[t].running && k.current != Some(t) && !Waits(k.queues, t)
    ensures Scheduled(Enqueue(k, t))
    ensures forall u :: Waits(Enqueue(k, t).queues, u) <==> Waits(k.queues, u) || u == t
    ensures AtBoot(k) ==> AtBoot(Enqueue(k, t))
  {
    hide Once, Waits;
    var r := Enqueue(k, t);
    AppendOnce(k.queues, k.threads[t].priority, t);
    forall q, u | 0 <= q < |r.queues| && u in r.queues[q]
      ensures u in r.threads && r.threads[u].priority == q
    {
      assert u in k.queues[q] || u == t;
    }
  }

  lemma WakeUpScheduled(k: State, t: Tid)
    requires Scheduled(k) && t in k.threads && k.current != Some(t)
    ensures Scheduled(WakeUp(k, t)) && WakeUp(k, t).current == k.current
    ensures forall u :: Waits(WakeUp(k, t).queues, u) ==> Waits(k.queues, u) || (u == t && u != k.idle)
    ensures AtBoot(k) ==> AtBoot(WakeUp(k, t))
  {
    hide Once, Waits;
    if !k.threads[t].running {
      EnqueueScheduled(k.(threads := k.threads[t := k.threads[t].(running := true)]), t);
    }
  }

  lemma {:induction false} WakeAllScheduled(k: State, ts: seq<Tid>)
    requires Scheduled(k) && forall t :: t in ts ==> t in k.threads && k.current != Some(t)
    ensures Scheduled(WakeAll(k, ts)) && WakeAll(k, ts).current == k.current
    ensures !Waits(k.queues, k.idle) ==> !Waits(WakeAll(k, ts).queues, k.idle)
    ensures AtBoot(k) ==> AtBoot(WakeAll(k, ts))
    decreases |ts|
  {
    hide Scheduled, Waits, AtBoot;
    if ts != [] {
      assert ts[0] in ts;
      WakeUpScheduled(k, ts[0]);
      assert WakeUp(k, ts[0]).threads.Keys == k.threads.Keys;
      WakeAllScheduled(WakeUp(k, ts[0]), ts[1..]);
    }
  }

  /** `tasking_switch` picks a thread that can run, whatever has become of the one before. */
  lemma SwitchScheduled(k: State)
    requires Scheduled(k) && (!Waits(k.queues, k.idle) || (k.current.None? && AtBoot(k)))
    ensures SchedInv(Switch(k)) && Switch(k).current.Some?
  {
    hide Once, Waits, AtBoot, Switch, Enqueue;
    SwitchCases(k);
    var k0 := k.(current := None);
    if k.current.Some? && k.threads[k.current.value].running && k.current.value != k.idle {
      EnqueueScheduled(k0, k.current.value);
      PopScheduled(Enqueue(k0, k.current.value));
    } else {
      PopScheduled(k0);
    }
  }

  /** Switching away from a thread that can run is queueing it and switching away from nothing. */
  lemma SwitchCases(k: State)
    requires k.current.Some? ==> k.current.value in k.threads
    ensures var k0 := k.(current := None);
            Switch(k) == if k.current.Some? && k.threads[k.current.value].running && k.current.value != k.idle
                         then Switch(Enqueue(k0, k.current.value)) else Switch(k0)
  {
    hide Level, Popped, Append;
  }

  lemma PopScheduled(k: State)
    requires Scheduled(k) && k.current.None? && (!Waits(k.queues, k.idle) || AtBoot(k))
    ensures SchedInv(Switch(k)) && Switch(k).current.Some?
  {
    hide Once, Waits;
    var l, r := Level(k.queues), Switch(k);
    if l < |k.queues| {
      var t := k.queues[l][0];
      assert t in k.queues[l];
      PoppedOnce(k.queues);
      assert r.queues == Popped(k.queues) && r.current == Some(t);
    } else {
      EmptyQueues(k.queues);
    }
  }

  lemma EmptyQueues(qs: seq<seq<Tid>>)
    requires forall q :: 0 <= q < |qs| ==> qs[q] == []
    ensures forall t :: !Waits(qs, t)
  {
  }
}
