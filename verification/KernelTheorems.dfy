/** What the invariant of the kernel means, for every state that any run from boot can reach. */
module KernelTheorems {
  import opened Common
  import opened Queues
  import opened Timer
  import opened Kernel
  import opened KernelSched
  import opened KernelInv
  import opened KernelSteps

  ghost predicate Reachable(k: State)
  {
    exists boot, actions :: Initial(boot) && Reaches(boot, actions, k)
  }

  lemma ReachableInv(k: State)
    requires Reachable(k)
    ensures Inv(k)
  {
    hide Inv, Initial;
    var boot, actions :| Initial(boot) && Reaches(boot, actions, k);
    InitialInv(boot);
    RunInv(boot, actions, k);
  }

  /** No system call or interrupt ever follows a null or dangling pointer. */
  lemma NoFault(k: State)
    requires Reachable(k)
    ensures !k.fault
  {
    ReachableInv(k);
    Ready(k);
  }

  // ---------------------------------------------------------------- scheduling

  /** `t` waits at its own priority level, at one place, and nowhere else. */
  ghost predicate WaitsOnce(k: State, t: Tid)
    requires t in k.threads
  {
    exists i :: At(k.queues, k.threads[t].priority, i, t) &&
                forall q, j :: At(k.queues, q, j, t) ==> q == k.threads[t].priority && j == i
  }

  /**
   A thread that can run is the current one, the idle one, or waits in exactly one queue, once, at
   its priority; a blocked thread waits in none; and once switching has begun the idle thread waits
   in none either.
   */
  lemma QueuesExact(k: State, t: Tid)
    requires Reachable(k) && t in k.threads
    ensures k.threads[t].running && k.current != Some(t) && t != k.idle ==> WaitsOnce(k, t)
    ensures !k.threads[t].running || k.current == Some(t) ==> !Waits(k.queues, t)
    ensures k.current.Some? ==>
            k.threads.Keys >= {k.current.value} && k.threads[k.current.value].running && !Waits(k.queues, k.idle)
  {
    ReachableInv(k);
    hide Comm;
    if Waits(k.queues, t) {
      var q :| 0 <= q < |k.queues| && t in k.queues[q];
      var i :| 0 <= i < |k.queues[q]| && k.queues[q][i] == t;
      assert At(k.queues, k.threads[t].priority, i, t);
    }
  }

  // ---------------------------------------------------------------- waiting

  /** The places from which a thread can be woken. */
  datatype Registration = OnSleepList | OnIrq(n: nat) | OnObject(o: Oid) | OfRequest(r: Rid)

  ghost predicate Names(k: State, g: Registration, t: Tid)
  {
    match g
    case OnSleepList => t in Timer.Threads(k.sleepers)
    case OnIrq(n) => n < |k.irq| && t in k.irq[n]
    case OnObject(o) => o in k.objects && k.objects[o].wakeupOnRq == Some(t)
    case OfRequest(r) => r in k.requests && k.requests[r].status != Finished && k.requests[r].requester == Some(t)
  }

  /** What a thread is waiting for, read off from where it will carry on. */
  function Reason(c: Cont): Option<Registration>
  {
    match c
    case InUser => None
    case Sleeping => Some(OnSleepList)
    case Locking(_) => Some(OnSleepList)
    case AwaitingIrq(n) => Some(OnIrq(n))
    case Receiving(o) => Some(OnObject(o))
    case Awaiting(r) => Some(OfRequest(r))
  }

  /**
   A registration names a thread exactly when the thread is blocked for that reason. So what is
   registered is blocked, nothing is registered twice, no step wakes a thread for the wrong reason,
   and no blocked thread has been forgotten, but for a receiver whose object has been freed.
   */
  lemma RegistrationsExact(k: State, g: Registration, t: Tid)
    requires Reachable(k)
    ensures Names(k, g, t) <==>
              && t in k.threads && !k.threads[t].running && Reason(k.threads[t].cont) == Some(g)
              && (g.OnObject? ==> g.o in k.objects)
  {
    hide SleepOk, IrqOk, ReceiveOk, AwaitOk, MailOk, LogOk, OrderOk, ContOk, SchedInv, Reachable;
    ReachableInv(k);
    match g
    case OnSleepList => SleepExact(k.threads, k.sleepers, t);
    case OnIrq(n) => IrqExact(k.threads, k.irq, n, t);
    case OnObject(o) => ReceiveExact(k.threads, k.objects, k.requests, o, t);
    case OfRequest(r) => AwaitExact(k.threads, k.objects, k.requests, r, t);
  }

  lemma SleepExact(ts: Threads, l: seq<Sleeper>, t: Tid)
    requires SleepOk(ts, l)
    ensures t in Timer.Threads(l) <==> t in ts && !ts[t].running && Reason(ts[t].cont) == Some(OnSleepList)
  {
  }

  lemma IrqExact(ts: Threads, q: seq<seq<Tid>>, n: nat, t: Tid)
    requires IrqOk(ts, q)
    ensures n < |q| && t in q[n] <==> t in ts && !ts[t].running && Reason(ts[t].cont) == Some(OnIrq(n))
  {
  }

  lemma ReceiveExact(ts: Threads, os: Objects, rs: Requests, o: Oid, t: Tid)
    requires ReceiveOk(ts, os, rs)
    ensures o in os && os[o].wakeupOnRq == Some(t) <==>
            o in os && t in ts && !ts[t].running && Reason(ts[t].cont) == Some(OnObject(o))
  {
  }

  lemma AwaitExact(ts: Threads, os: Objects, rs: Requests, r: Rid, t: Tid)
    requires AwaitOk(ts, os, rs)
    ensures r in rs && rs[r].status != Finished && rs[r].requester == Some(t) <==>
              t in ts && !ts[t].running && Reason(ts[t].cont) == Some(OfRequest(r))
  {
  }

  lemma OneReason(k: State, g: Registration, h: Registration, t: Tid)
    requires Reachable(k) && Names(k, g, t) && Names(k, h, t)
    ensures g == h && t in k.threads && !k.threads[t].running
  {
    hide Names;
    RegistrationsExact(k, g, t);
    RegistrationsExact(k, h, t);
  }

  // ---------------------------------------------------------------- the mailbox

  /**
   An object is locked exactly while it has a request; the request is pending or being processed,
   and a message that has been received stays only while it has shared memory still to map.
   */
  lemma Mailbox(k: State, o: Oid)
    requires Reachable(k) && o in k.objects
    ensures k.objects[o].locked <==> k.objects[o].request.Some?
    ensures k.objects[o].request.Some? ==>
              var r := k.objects[o].request.value;
              && r in k.requests && k.requests[r].obj == o && k.requests[r].status in {Pending, Processed}
              && (k.requests[r].status == Processed && k.requests[r].requester.None? ==> ToMap(k.requests[r]))
  {
    ReachableInv(k);
    SlotAt(k, o);
  }

  /** Requests are handed out exactly once each, in the order they were made; at most one is outstanding. */
  lemma DeliveredInOrder(k: State, o: Oid)
    requires Reachable(k) && o in k.objects
    ensures o in k.created && o in k.delivered
    ensures k.delivered[o] <= k.created[o] && |k.created[o]| <= |k.delivered[o]| + 1
    ensures forall i, j :: 0 <= i < j < |k.created[o]| ==> k.created[o][i] < k.created[o][j]
    ensures |k.created[o]| == |k.delivered[o]| + 1 <==> PendingAt(k.objects, k.requests, o)
    ensures PendingAt(k.objects, k.requests, o) ==> k.created[o] == k.delivered[o] + [k.objects[o].request.value]
  {
    ReachableInv(k);
    hide SchedInv, SleepOk, IrqOk, ReceiveOk, AwaitOk, MailOk, ContOk;
  }

  /** A thread that has blocked in `request` can run again only when that very request has been finished. */
  lemma ResumesWhenAnswered(k: State, t: Tid)
    requires Reachable(k) && t in k.threads && k.threads[t].cont.Awaiting?
    ensures var r := k.threads[t].cont.rq;
            && r in k.requests && k.requests[r].requester == Some(t)
            && (k.threads[t].running <==> k.requests[r].status == Finished)
  {
    ReachableInv(k);
    hide SchedInv, SleepOk, IrqOk, ReceiveOk, MailOk, LogOk, OrderOk, ContOk;
  }

  /** Request `r`, not finished before, has not become finished. */
  ghost predicate Unfinished(k: State, l: State, r: Rid)
  {
    r in k.requests && k.requests[r].status != Finished && r in l.requests ==> l.requests[r].status != Finished
  }

  lemma AskUnfinished(k: State, c: Tid, call: Call, r: Rid)
    requires c in k.threads && call.obj in k.objects && k.frequency > 0 && k.nextRq !in k.requests
    ensures Unfinished(k, MakeRequest(k, c, call), r)
  {
    hide Switch, WakeUp, Now, Entered;
  }

  lemma ReceiveUnfinished(k: State, c: Tid, o: Oid, r: Rid)
    requires c in k.threads && o in k.objects
    ensures Unfinished(k, Receive(k, c, o), r)
  {
    hide Switch;
  }

  lemma MapUnfinished(k: State, c: Tid, o: Oid, i: nat, r: Rid)
    requires c in k.threads && o in k.objects
    ensures Unfinished(k, MapShm(k, c, o, i), r)
  {
  }

  lemma InterruptUnfinished(k: State, n: nat, r: Rid)
    requires n < |k.irq| && k.frequency > 0
    ensures Unfinished(k, Interrupt(k, n), r)
  {
    hide Switch, WakeAll, TimeAt, Due;
  }

  lemma ResumeUnfinished(k: State, c: Tid, r: Rid)
    requires c in k.threads && k.frequency > 0 && k.nextRq !in k.requests
    ensures Unfinished(k, Resumed(k, c), r)
  {
    hide MakeRequest, Receive;
    match k.threads[c].cont
    case Locking(call) => if call.obj in k.objects { AskUnfinished(k, c, call, r); }
    case Receiving(o) => if o in k.objects { ReceiveUnfinished(k, c, o, r); }
    case _ =>
  }

  lemma AnswerUnfinished(k: State, c: Tid, o: Oid, r: Rid)
    requires c in k.threads && o in k.objects && k.objects[o].request != Some(r)
    ensures Unfinished(k, Answer(k, c, o), r)
  {
    hide WakeUp;
  }

  /** And only `request_answer` on the object that holds a request finishes it. */
  lemma OnlyAnsweringFinishes(k: State, a: Action, r: Rid)
    requires Reachable(k) && Enabled(k, a) && k.frequency > 0 && |k.irq| == IRQS
    requires r in k.requests && k.requests[r].status != Finished
    requires r in Step(k, a).requests && Step(k, a).requests[r].status == Finished
    ensures a.Reply? && k.objects[a.o].request == Some(r)
  {
    hide Interrupt, Resumed, MakeRequest, Receive, Answer, MapShm, Switch, Inv;
    ReachableInv(k);
    NextIsFresh(k);
    match a
    case Irq(n) => InterruptUnfinished(k, n, r);
    case Resume => ResumeUnfinished(k, k.current.value, r);
    case Ask(call) => AskUnfinished(k, k.current.value, call, r);
    case Fetch(o, wait) => ReceiveUnfinished(k, k.current.value, o, r);
    case Reply(o) =>
      if k.objects[o].request != Some(r) {
        AnswerUnfinished(k, k.current.value, o, r);
      }
    case Map(o, i) => MapUnfinished(k, k.current.value, o, i, r);
    case _ =>
  }

  lemma NextIsFresh(k: State)
    requires Inv(k)
    ensures k.nextRq !in k.requests
  {
    hide Comm, SchedInv;
    FreshRequest(k);
  }
}
