/**
 The scheduler's ready queues: per priority a head and a tail pointer, the threads linked through
 their own field. Proved to be the sequences of `Queues`: strict priority between levels, first in
 first out within one.
 */
module Sched {
  import opened Queues

  class Thread {
    const priority: nat
    var queueNext: Thread?

    constructor (priority: nat)
      ensures this.priority == priority
    {
      this.priority := priority;
      queueNext := null;
    }
  }

  /** The chain from `head` to `tail` runs through exactly the threads of `ts`. */
  ghost predicate Chain(ts: seq<Thread>, head: Thread?, tail: Thread?)
    reads ts`queueNext
  {
    if ts == [] then head == null && tail == null
    else
      && head == ts[0] && tail == ts[|ts| - 1]
      && forall i {:trigger ts[i].queueNext} :: 0 <= i < |ts| ==>
          ts[i].queueNext == if i == |ts| - 1 then null else ts[i + 1]
  }

  lemma NowhereWaits(qs: seq<seq<Thread>>, t: Thread)
    requires !Waits(qs, t)
    ensures forall q :: 0 <= q < |qs| ==> t !in qs[q]
  {
  }

  lemma ChainEnds(ts: seq<Thread>, head: Thread?, tail: Thread?)
    requires Chain(ts, head, tail)
    ensures head == null <==> ts == []
    ensures ts != [] ==> head == ts[0] && tail == ts[|ts| - 1]
  {
  }

  lemma ChainOne(t: Thread)
    requires t.queueNext == null
    ensures Chain([t], t, t)
  {
  }

  /** What is left when the first thread is taken off; only a last thread has no successor. */
  lemma ChainRest(ts: seq<Thread>, head: Thread, tail: Thread?)
    requires Chain(ts, head, tail)
    ensures (head.queueNext == null && head == tail) || head != tail
    ensures Chain(ts[1..], head.queueNext, if head.queueNext == null then null else tail)
  {
    assert ts[0].queueNext == if 0 == |ts| - 1 then null else ts[1];
    assert |ts| > 1 ==> ts[|ts| - 1].queueNext == null;
  }

  /** Hang `t` behind the last thread of a chain. */
  method LinkLast(tail: Thread, t: Thread, ghost ts: seq<Thread>)
    requires ts != [] && Chain(ts, ts[0], tail) && t !in ts && t.queueNext == null
    modifies tail`queueNext
    ensures Chain(ts + [t], ts[0], t)
  {
    ghost var n := |ts| - 1;
    assert forall i :: 0 <= i < n ==> ts[i].queueNext == ts[i + 1];
    assert ts[n].queueNext == null;
    tail.queueNext := t;
    ghost var r := ts + [t];
    forall i | 0 <= i < |r|
      ensures r[i].queueNext == if i == |r| - 1 then null else r[i + 1]
    {
      assert i < n ==> old(ts[i].queueNext) == ts[i + 1];
    }
  }

  class Scheduler {
    const idle: Thread
    const queue: array<Thread?>
    const last: array<Thread?>
    ghost var qs: seq<seq<Thread>>
    ghost var queued: set<Thread>

    ghost predicate Valid()
      reads this, queue, last, queued`queueNext
    {
      && queue.Length == last.Length == |qs| == PRIORITIES && queue != last
      && Once(qs)
      && (forall q, t :: 0 <= q < |qs| && t in qs[q] ==> t in queued && t.priority == q)
      && forall q :: 0 <= q < |qs| ==> Chain(qs[q], queue[q], last[q])
    }

    constructor (idle: Thread)
      ensures Valid() && this.idle == idle && qs == seq(PRIORITIES, _ => []) && fresh(queue) && fresh(last)
    {
      this.idle := idle;
      queue := new Thread?[PRIORITIES](_ => null);
      last := new Thread?[PRIORITIES](_ => null);
      qs, queued := seq(PRIORITIES, _ => []), {};
    }

    /** The pointer part of `sched_enqueueIn`: only this queue's threads and ends are written. */
    method LinkIn(t: Thread, qid: nat, ghost ts: seq<Thread>)
      requires qid < queue.Length == last.Length && queue != last
      requires Chain(ts, queue[qid], last[qid]) && t !in ts
      modifies queue, last, ts`queueNext, t`queueNext
      ensures Chain(ts + [t], queue[qid], last[qid])
      ensures forall q :: 0 <= q < queue.Length && q != qid ==> queue[q] == old(queue[q]) && last[q] == old(last[q])
    {
      hide Chain;
      ChainEnds(ts, queue[qid], last[qid]);
      t.queueNext := null;
      if queue[qid] == null {
        ChainOne(t);
        assert ts + [t] == [t];
        queue[qid], last[qid] := t, t;
      } else {
        LinkLast(last[qid], t, ts);
        last[qid] := t;
      }
    }

    /** `sched_enqueueIn`: the thread must not be waiting already. */
    method EnqueueIn(t: Thread, qid: nat)
      requires Valid() && qid < PRIORITIES && t.priority == qid && !Waits(qs, t)
      modifies this`qs, this`queued, queue, last, queued`queueNext, t`queueNext
      ensures Valid() && qs == Append(old(qs), qid, t) && queued == old(queued) + {t}
    {
      hide Once, Waits, Chain;
      ghost var ts, was := qs[qid], qs;
      AppendOnce(qs, qid, t);
      NowhereWaits(qs, t);
      LinkIn(t, qid, ts);
      qs, queued := Append(qs, qid, t), queued + {t};
      assert qs[qid] == ts + [t];
      forall q | 0 <= q < |qs| && q != qid
        ensures Chain(qs[q], queue[q], last[q])
      {
        assert qs[q] == was[q] && old(Chain(was[q], queue[q], last[q]));
        assert forall o: Thread :: o in was[q] ==> o.priority == q && o.queueNext == old(o.queueNext);
      }
    }

    /** `sched_enqueue`: the idle thread is never put into a queue. */
    method Enqueue(t: Thread)
      requires Valid() && t.priority < PRIORITIES && (t != idle ==> !Waits(qs, t))
      modifies this`qs, this`queued, queue, last, queued`queueNext, t`queueNext
      ensures Valid() && qs == if t == idle then old(qs) else Append(old(qs), t.priority, t)
    {
      if t == idle {
        return;
      }
      EnqueueIn(t, t.priority);
    }

    /** `sched_dequeueFrom`, with its assertion that only a last thread has no successor. */
    method DequeueFrom(qid: nat) returns (it: Thread?)
      requires Valid() && qid < PRIORITIES
      modifies this`qs, queue, last
      ensures old(qs)[qid] == [] ==> it == null && qs == old(qs) && Valid()
      ensures old(qs)[qid] != [] ==> it == old(qs)[qid][0] && qs == old(qs)[qid := old(qs)[qid][1..]] && Valid()
    {
      hide Once, Chain;
      ghost var ts := qs[qid];
      ChainEnds(ts, queue[qid], last[qid]);
      if queue[qid] == null {
        return null;
      }
      it := queue[qid];
      ChainRest(ts, it, last[qid]);
      assert (it.queueNext == null && it == last[qid]) || it != last[qid];
      queue[qid] := it.queueNext;
      if queue[qid] == null {
        last[qid] := null;
      }
      PoppedDistinct(qs, qid);
      qs := qs[qid := ts[1..]];
      assert qs[qid] == ts[1..];
    }

    /** `sched_dequeue`: the first of the most urgent non-empty queue, or the idle thread. */
    method Dequeue() returns (it: Thread)
      requires Valid()
      modifies this`qs, queue, last
      ensures Valid() && qs == Popped(old(qs))
      ensures it == if Level(old(qs)) < PRIORITIES then old(qs)[Level(old(qs))][0] else idle
    {
      var i := 0;
      while i < PRIORITIES
        invariant 0 <= i <= PRIORITIES && Valid() && qs == old(qs)
        invariant forall j :: 0 <= j < i ==> qs[j] == []
      {
        var t := DequeueFrom(i);
        if t != null {
          LevelIs(old(qs), i);
          return t;
        }
        i := i + 1;
      }
      LevelIs(qs, i);
      return idle;
    }
  }
}
