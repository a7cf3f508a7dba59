/**
 What each system call of the request protocol does, completely: for every call the whole next state in terms of the one
 before, with the conditions under which it happens.
 */
module KernelCalls {
  import opened Common
  import opened Queues
  import opened Timer
  import opened Kernel
  import opened KernelSched
  import opened KernelInv
  import opened KernelSteps
  import opened KernelDispatch
  import opened KernelInterrupts

  // ---------------------------------------------------------------- making a request

  /** The thread that waits for a request on the object. */
  function Waiter(k: State, o: Oid): seq<Tid>
    requires o in k.objects
  {
    if k.objects[o].wakeupOnRq.Some? then [k.objects[o].wakeupOnRq.value] else []
  }

  /** The record of the new request: parameter `i` carries shared memory if it was given and goes to another process. */
  ghost predicate Recorded(k: State, rq: Request, c: Tid, call: Call)
    requires c in k.threads && call.obj in k.objects
  {
    && rq.obj == call.obj && rq.status == Pending && |rq.sent| == |rq.mapped| == |call.shm| == 3
    && (if call.blocking then rq.requester == Some(c) else rq.requester == None)
    && forall i :: 0 <= i < 3 ==>
        !rq.mapped[i] && (rq.sent[i] <==> call.shm[i] && k.objects[call.obj].owner != Some(k.threads[c].process))
  }

  /** Of the threads only the poster, and a receiver that waited, are different. */
  ghost predicate PostedThreads(k: State, l: State, c: Tid, call: Call)
    requires call.obj in k.objects
  {
    && l.threads.Keys == k.threads.Keys && c in k.threads
    && l.threads[c] == (if call.blocking then k.threads[c].(running := false, cont := Awaiting(k.nextRq))
                        else k.threads[c].(cont := InUser))
    && forall t :: t in k.threads && t != c ==>
        l.threads[t] == k.threads[t].(running := k.threads[t].running || t in Waiter(k, call.obj))
  }

  /**
   The request has been made: it has the next number, is the object's and the last of its log; a receiver that waited
   stands in its queue; a blocking requester waits for exactly this request and the next thread runs.
   */
  ghost predicate Made(k: State, l: State, c: Tid, call: Call)
    requires call.obj in k.objects && c in k.threads
  {
    var o, r := call.obj, k.nextRq;
    && l == k.(threads := l.threads, queues := l.queues, current := l.current, objects := l.objects,
               requests := l.requests, created := l.created, nextRq := k.nextRq + 1)
    && r !in k.requests && r in l.requests && l.requests == k.requests[r := l.requests[r]]
    && Recorded(k, l.requests[r], c, call)
    && l.objects == k.objects[o := k.objects[o].(locked := true, request := Some(r), wakeupOnRq := None)]
    && o in k.created && l.created == k.created[o := k.created[o] + [r]]
    && PostedThreads(k, l, c, call)
    && if call.blocking then Dispatched(Lined(k, Waiter(k, o)), k.idle, l)
       else l.queues == Lined(k, Waiter(k, o)) && l.current == k.current
  }

  /**
   `mkrequest` with the end of `request` or `send_msg`. A busy object makes the thread sleep a millisecond and try
   again; without an owner nothing is made; otherwise the request is.
   */
  ghost predicate Asked(k: State, l: State, c: Tid, call: Call)
    requires call.obj in k.objects && c in k.threads && k.frequency > 0
  {
    if k.objects[call.obj].request.Some? then Asleep(k, l, c, 1, Locking(call))
    else if k.objects[call.obj].owner.None? then l == k.(threads := k.threads[c := k.threads[c].(cont := InUser)])
    else Made(k, l, c, call)
  }

  lemma MakeRequestExactly(k: State, c: Tid, call: Call)
    requires Inv(k) && k.current == Some(c) && c in k.threads && c != k.idle && k.threads[c].running
    requires call.obj in k.objects && |call.shm| == PARAMS && k.frequency > 0
    ensures Asked(k, MakeRequest(k, c, call), c, call)
  {
    hide SchedInv, Comm, SleepFor, Asleep, Made, Post, GoInactive;
    SlotAt(k, call.obj);
    if k.objects[call.obj].request.Some? {
      SleepForExactly(k, c, 1, Locking(call));
    } else if k.objects[call.obj].owner.Some? {
      PostExactly(k, c, call);
    }
  }

  lemma PostExactly(k: State, c: Tid, call: Call)
    requires Inv(k) && k.current == Some(c) && c in k.threads && c != k.idle && k.threads[c].running
    requires call.obj in k.objects && |call.shm| == PARAMS && k.frequency > 0 && !k.objects[call.obj].locked
    ensures var k1 := Post(k, c, call);
            c in k1.threads &&
            Made(k, if call.blocking then GoInactive(k1, c, Awaiting(k.nextRq)) else Continue(k1, c, InUser), c, call)
  {
    hide Inv, Switch, Dispatched, Lined, Post, NewRequest, Recorded;
    var k1 := Post(k, c, call);
    var w := Waiter(k, call.obj);
    FormOf(k, c, call);
    WaiterWakeable(k, c, call.obj);
    PostLines(k, c, call);
    NewRecorded(k, c, call);
    NewNumber(k);
    Priorities(k);
    if call.blocking {
      BlockedSwitch(k1.(threads := k1.threads[c := k1.threads[c].(running := false, cont := Awaiting(k.nextRq))]));
    }
  }

  lemma NewNumber(k: State)
    requires Inv(k)
    ensures k.nextRq !in k.requests
  {
    hide SchedInv, Comm;
    FreshRequest(k);
  }

  lemma FormOf(k: State, c: Tid, call: Call)
    requires Inv(k) && c in k.threads && call.obj in k.objects && !k.objects[call.obj].locked
    ensures var o, r, p := call.obj, k.nextRq, Post(k, c, call);
            && o in k.created
            && p == k.(threads := Woken(k.threads, set t | t in Waiter(k, o)), queues := p.queues,
                       requests := k.requests[r := NewRequest(k, c, call)],
                       objects := k.objects[o := k.objects[o].(locked := true, request := Some(r), wakeupOnRq := None)],
                       created := k.created[o := k.created[o] + [r]],
                       nextRq := r + 1)
  {
    hide SchedInv, Comm, Post, NewRequest;
    PostForm(k, c, call);
    var w := Waiter(k, call.obj);
    if w == [] {
      assert Woken(k.threads, set t | t in w) == k.threads;
    } else {
      assert (set t | t in w) == {w[0]};
    }
  }

  lemma NewRecorded(k: State, c: Tid, call: Call)
    requires c in k.threads && call.obj in k.objects && |call.shm| == PARAMS
    ensures Recorded(k, NewRequest(k, c, call), c, call)
  {
  }

  lemma WaiterWakeable(k: State, c: Tid, o: Oid)
    requires Inv(k) && o in k.objects && c in k.threads && k.threads[c].running
    ensures Wakeable(k, Waiter(k, o)) && c !in Waiter(k, o)
  {
    hide SleepOk, IrqOk, AwaitOk, MailOk, LogOk, OrderOk, Once, Waits;
  }

  lemma PostLines(k: State, c: Tid, call: Call)
    requires c in k.threads && call.obj in k.objects && Wakeable(k, Waiter(k, call.obj))
    ensures Post(k, c, call).queues == Lined(k, Waiter(k, call.obj))
  {
    hide Lined, WakeUp, NewRequest;
    var o, r := call.obj, k.nextRq;
    var k1 := k.(requests := k.requests[r := NewRequest(k, c, call)],
                 objects := k.objects[o := k.objects[o].(locked := true, request := Some(r), wakeupOnRq := None)],
                 created := k.created[o := (if o in k.created then k.created[o] else []) + [r]],
                 nextRq := r + 1);
    LinedNone(k);
    LinedSame(k, k1, Waiter(k, o));
    if k.objects[o].wakeupOnRq.Some? {
      WakeLines(k1, k.objects[o].wakeupOnRq.value);
    }
  }

  lemma AskExactly(k: State, call: Call)
    requires Inv(k) && Possible(k, Ask(call))
    ensures k.frequency > 0 && |k.irq| == IRQS && Asked(k, Step(k, Ask(call)), k.current.value, call)
  {
    hide Inv, MakeRequest, Asked;
    Ready(k);
    MakeRequestExactly(k, k.current.value, call);
  }

  /** A thread that slept on the object's mutex makes the call it came with, or sleeps on. */
  lemma RetryExactly(k: State, c: Tid, call: Call)
    requires Inv(k) && k.current == Some(c) && c in k.threads && k.threads[c].cont == Locking(call)
    ensures call.obj in k.objects && k.frequency > 0 && |k.irq| == IRQS && Possible(k, Resume)
    ensures Asked(k, Step(k, Resume), c, call)
  {
    hide SchedInv, SleepOk, IrqOk, ReceiveOk, AwaitOk, MailOk, LogOk, OrderOk, MakeRequest, Asked;
    Ready(k);
    MakeRequestExactly(k, c, call);
  }

  // ---------------------------------------------------------------- receiving

  /** `request_get` gives up: a foreign object, a request in progress, or none and no wish to wait. */
  predicate Declined(k: State, c: Tid, o: Oid, wait: bool)
    requires c in k.threads && o in k.objects
  {
    var ob := k.objects[o];
    || ob.owner != Some(k.threads[c].process)
    || (if ob.request.Some? then ob.request.value in k.requests && k.requests[ob.request.value].status == Processed
        else !wait)
  }

  /** Nothing there: the thread waits to be woken by the next request, and the next thread runs. */
  ghost predicate Awaits(k: State, l: State, c: Tid, o: Oid)
    requires c in k.threads && o in k.objects
  {
    && l == k.(threads := l.threads, queues := l.queues, current := l.current, objects := l.objects)
    && l.threads == k.threads[c := k.threads[c].(running := false, cont := Receiving(o))]
    && l.objects == k.objects[o := k.objects[o].(wakeupOnRq := Some(c))]
    && Dispatched(k.queues, k.idle, l)
  }

  /**
   The thread goes back to its program with the request. A message without shared memory is then no more and its object
   free; any other request stays with the object, being processed.
   */
  ghost predicate Given(k: State, l: State, c: Tid, o: Oid)
    requires c in k.threads && o in k.objects
  {
    && k.objects[o].request.Some? && k.objects[o].request.value in k.requests && o in k.delivered
    && var r := k.objects[o].request.value;
       && l == k.(threads := k.threads[c := k.threads[c].(cont := InUser)], objects := l.objects,
                  requests := l.requests, delivered := k.delivered[o := k.delivered[o] + [r]])
       && if k.requests[r].requester.None? && true !in k.requests[r].sent then
            && l.objects == k.objects[o := k.objects[o].(request := None, locked := false)]
            && l.requests == k.requests - {r}
          else
            l.objects == k.objects && l.requests == k.requests[r := k.requests[r].(status := Processed)]
  }

  lemma ReceiveExactly(k: State, c: Tid, o: Oid)
    requires Inv(k) && k.current == Some(c) && c in k.threads && o in k.objects && k.threads[c].running
    ensures k.objects[o].request.None? ==> Awaits(k, Receive(k, c, o), c, o)
    ensures PendingAt(k.objects, k.requests, o) ==> Given(k, Receive(k, c, o), c, o)
  {
    hide SchedInv, Comm, Switch, Dispatched, Contains, Deliver;
    SlotAt(k, o);
    Priorities(k);
    if k.objects[o].request.None? {
      BlockedSwitch(k.(objects := k.objects[o := k.objects[o].(wakeupOnRq := Some(c))],
                       threads := k.threads[c := k.threads[c].(running := false, cont := Receiving(o))]));
    } else if PendingAt(k.objects, k.requests, o) {
      DeliverLogged(k, o);
      DeliverExactly(k, c, o);
    }
  }

  lemma DeliverExactly(k: State, c: Tid, o: Oid)
    requires c in k.threads && PendingAt(k.objects, k.requests, o) && o in k.delivered
    ensures Given(k, Deliver(k, c, o, k.objects[o].request.value), c, o)
  {
  }

  lemma FetchExactly(k: State, o: Oid, wait: bool)
    requires Inv(k) && Possible(k, Fetch(o, wait))
    ensures k.frequency > 0 && |k.irq| == IRQS
    ensures var l, c := Step(k, Fetch(o, wait)), k.current.value;
            if Declined(k, c, o, wait) then l == k
            else if k.objects[o].request.None? then Awaits(k, l, c, o)
            else Given(k, l, c, o)
  {
    hide SchedInv, Comm, Receive, Awaits, Given;
    Ready(k);
    SlotAt(k, o);
    ReceiveExactly(k, k.current.value, o);
  }

  /** A receiver that was woken is given the request it was woken for. */
  lemma WokenExactly(k: State, c: Tid, o: Oid)
    requires Inv(k) && k.current == Some(c) && c in k.threads && k.threads[c].cont == Receiving(o)
    ensures o in k.objects && k.frequency > 0 && |k.irq| == IRQS && Possible(k, Resume)
    ensures Given(k, Step(k, Resume), c, o)
  {
    hide SchedInv, SleepOk, IrqOk, AwaitOk, MailOk, LogOk, OrderOk, ContOk, Receive, Given;
    Ready(k);
    ReceiveExactly(k, c, o);
  }

  // ---------------------------------------------------------------- answering and mapping

  /** The request that `c` may answer or map from on the object: its own, taken before. */
  predicate InProgress(k: State, c: Tid, o: Oid)
    requires c in k.threads && o in k.objects
  {
    && k.objects[o].owner == Some(k.threads[c].process) && k.objects[o].request.Some?
    && k.objects[o].request.value in k.requests && k.requests[k.objects[o].request.value].status == Processed
  }

  /**
   `request_answer`: if and only if a blocking request is in progress on an own object it is finished, its requester can
   run and stands last in its queue, and the object is free.
   */
  lemma ReplyExactly(k: State, o: Oid)
    requires Inv(k) && Possible(k, Reply(o))
    ensures k.frequency > 0 && |k.irq| == IRQS
    ensures var l, c := Step(k, Reply(o)), k.current.value;
            if InProgress(k, c, o) && k.requests[k.objects[o].request.value].requester.Some? then
              var r := k.objects[o].request.value;
              var t := k.requests[r].requester.value;
              && t in k.threads && l == k.(threads := k.threads[t := k.threads[t].(running := true)],
                                           queues := Lined(k, [t]),
                                           requests := k.requests[r := k.requests[r].(status := Finished)],
                                           objects := k.objects[o := k.objects[o].(request := None, locked := false)])
            else l == k
  {
    hide SchedInv, Comm, WakeUp, Lined;
    Ready(k);
    SlotAt(k, o);
    var c := k.current.value;
    if InProgress(k, c, o) && k.requests[k.objects[o].request.value].requester.Some? {
      var r := k.objects[o].request.value;
      var k1 := k.(requests := k.requests[r := k.requests[r].(status := Finished)]);
      RequesterWakeable(k, r);
      LinedSame(k, k1, [k.requests[r].requester.value]);
      WakeLines(k1, k.requests[r].requester.value);
      WokenOne(k.threads, k.requests[r].requester.value);
    }
  }

  lemma WokenOne(ts: Threads, t: Tid)
    requires t in ts
    ensures Woken(ts, {t}) == ts[t := ts[t].(running := true)]
  {
  }

  lemma RequesterWakeable(k: State, r: Rid)
    requires Inv(k) && r in k.requests && k.requests[r].requester.Some? && k.requests[r].status != Finished
    ensures Wakeable(k, [k.requests[r].requester.value]) && k.requests[r].requester.value in k.threads
  {
    hide SleepOk, IrqOk, ReceiveOk, MailOk, LogOk, OrderOk, Once, Waits;
  }

  /**
   `request_mapShm` on parameter `i`: if and only if that carries shared memory of the request in progress it is marked;
   a message all of whose shared memory is mapped is then no more and its object free.
   */
  lemma MapExactly(k: State, o: Oid, i: nat)
    requires Inv(k) && Possible(k, Map(o, i))
    ensures k.frequency > 0 && |k.irq| == IRQS
    ensures var l, c := Step(k, Map(o, i)), k.current.value;
            if i < 3 && InProgress(k, c, o) && i < |k.requests[k.objects[o].request.value].sent| &&
                k.requests[k.objects[o].request.value].sent[i] then
              var r := k.objects[o].request.value;
              var rq := k.requests[r];
              && |rq.mapped| == |rq.sent|
              && l == k.(requests := l.requests, objects := l.objects)
              && if rq.requester.None? && forall j :: 0 <= j < |rq.sent| && rq.sent[j] ==> rq.mapped[j] || j == i then
                   && l.requests == k.requests - {r}
                   && l.objects == k.objects[o := k.objects[o].(request := None, locked := false)]
                 else
                   l.objects == k.objects && l.requests == k.requests[r := rq.(mapped := rq.mapped[i := true])]
            else l == k
  {
    hide SchedInv, Comm;
    Ready(k);
    SlotAt(k, o);
    if k.objects[o].request.Some? {
      var r := k.objects[o].request.value;
      RequestAt(k, r);
      MarkLeft(k.requests[r], i);
    }
  }

  lemma MarkLeft(rq: Request, i: nat)
    requires |rq.sent| == |rq.mapped|
    ensures i < |rq.mapped| ==>
              (ToMap(rq.(mapped := rq.mapped[i := true])) <==>
               !forall j :: 0 <= j < |rq.sent| && rq.sent[j] ==> rq.mapped[j] || j == i)
  {
  }

  // ---------------------------------------------------------------- returning

  /** The answer is taken and the request no more. */
  lemma AnsweredExactly(k: State, c: Tid, r: Rid)
    requires Inv(k) && k.current == Some(c) && c in k.threads && k.threads[c].cont == Awaiting(r)
    ensures k.frequency > 0 && |k.irq| == IRQS && Possible(k, Resume)
    ensures r in k.requests && k.requests[r].status == Finished
    ensures Step(k, Resume) ==
            k.(threads := k.threads[c := k.threads[c].(cont := InUser)], requests := k.requests - {r})
  {
    hide SchedInv, SleepOk, IrqOk, ReceiveOk, MailOk, LogOk, OrderOk, ContOk;
    Ready(k);
  }

  /** From sleep and from waiting for an interrupt a thread only returns. */
  lemma ReturnsExactly(k: State, c: Tid)
    requires Inv(k) && k.current == Some(c) && c in k.threads
    requires k.threads[c].cont.Sleeping? || k.threads[c].cont.AwaitingIrq?
    ensures k.frequency > 0 && |k.irq| == IRQS && Possible(k, Resume)
    ensures Step(k, Resume) == k.(threads := k.threads[c := k.threads[c].(cont := InUser)])
  {
    hide Inv;
    Ready(k);
  }

  // ---------------------------------------------------------------- objects and threads

  /** A new object is the caller's, held by its process alone, free, and with an empty log. */
  lemma NewObjectExactly(k: State, o: Oid)
    requires Inv(k) && Possible(k, NewObject(o))
    ensures k.frequency > 0 && |k.irq| == IRQS
    ensures var l, p := Step(k, NewObject(o)), k.threads[k.current.value].process;
            && l == k.(objects := l.objects, created := k.created[o := []], delivered := k.delivered[o := []])
            && o in l.objects && l.objects == k.objects[o := l.objects[o]]
            && l.objects[o].owner == Some(p) && l.objects[o].holders == {p} && !l.objects[o].locked
            && l.objects[o].request == None && l.objects[o].wakeupOnRq == None
  {
    hide Inv;
    Ready(k);
  }

  /** Passing a descriptor on makes one more process a holder. */
  lemma GrantExactly(k: State, o: Oid, p: Pid)
    requires Inv(k) && Possible(k, Grant(o, p))
    ensures k.frequency > 0 && |k.irq| == IRQS
    ensures var l := Step(k, Grant(o, p));
            && l == k.(objects := l.objects) && l.objects.Keys == k.objects.Keys
            && (forall q :: q in l.objects[o].holders <==> q in k.objects[o].holders || q == p)
            && l.objects == k.objects[o := k.objects[o].(holders := l.objects[o].holders)]
  {
    hide Inv;
    Ready(k);
  }

  /**
   Closing frees the object if and only if the process was the last to hold it, no other owns it and no request is with
   it; otherwise the process holds it no more, and an owner is its owner no more.
   */
  lemma CloseExactly(k: State, o: Oid)
    requires Inv(k) && Possible(k, Close(o))
    ensures k.frequency > 0 && |k.irq| == IRQS
    ensures var l, p, ob := Step(k, Close(o)), k.threads[k.current.value].process, k.objects[o];
            && l == k.(objects := l.objects)
            && if ob.holders == {p} && (ob.owner == Some(p) || ob.owner == None) && ob.request == None then
                 l.objects == k.objects - {o}
               else
                 l.objects == k.objects[o := ob.(holders := ob.holders - {p},
                                                 owner := if ob.owner == Some(p) then None else ob.owner)]
  {
    hide SchedInv, Comm;
    Ready(k);
    SlotAt(k, o);
    var p, ob := k.threads[k.current.value].process, k.objects[o];
    assert ob.holders - {p} == {} <==> ob.holders == {p};
    var ob1 := ob.(holders := ob.holders - {p});
    assert k.objects[o := ob1] - {o} == k.objects - {o};
  }

  /** A new thread can run and stands last in the queue of its priority. */
  lemma NewThreadExactly(k: State, t: Tid, process: Pid, priority: nat)
    requires Inv(k) && Possible(k, NewThread(t, process, priority))
    ensures k.frequency > 0 && |k.irq| == IRQS
    ensures var l := Step(k, NewThread(t, process, priority));
            && l == k.(threads := l.threads, queues := l.queues)
            && l.threads == k.threads[t := Thread(process, priority, true, InUser)]
            && priority < |k.queues| && l.queues == k.queues[priority := k.queues[priority] + [t]]
  {
    hide Comm, Once, Waits;
    Ready(k);
  }

  /** The current thread is gone, and the next one runs. */
  lemma ExitExactly(k: State)
    requires Inv(k) && Possible(k, Exit)
    ensures k.frequency > 0 && |k.irq| == IRQS
    ensures var l := Step(k, Exit);
            && l == k.(threads := k.threads - {k.current.value}, queues := l.queues, current := l.current)
            && Dispatched(k.queues, k.idle, l)
  {
    hide Inv, Switch, Dispatched;
    Ready(k);
    Priorities(k);
    BlockedSwitch(k.(threads := k.threads - {k.current.value}, current := None));
  }

  // ---------------------------------------------------------------- the clock

  /** Ticks and sleep list follow `Timer`: a timer interrupt is a tick, and only going to sleep enters anybody. */
  lemma ClockFollows(k: State, a: Action)
    requires Inv(k) && Enabled(k, a)
    ensures k.frequency > 0 && |k.irq| == IRQS && Step(k, a).frequency == k.frequency
    ensures var p, q := Past(k.ticks, k.sleepers), Past(Step(k, a).ticks, Step(k, a).sleepers);
            && (a == Irq(0) ==> q == Next(p, k.frequency, Ticked))
            && (a.Sleep? ==> q == Next(p, k.frequency, Slept(k.current.value, a.msecs)))
            && (a != Irq(0) && !a.Sleep? ==>
                  q == p || (k.current.Some? && q == Next(p, k.frequency, Slept(k.current.value, 1))))
  {
    hide Inv, Interrupt, Resumed, MakeRequest, Get, Answer, MapShm, Enqueue, Switch, CloseDesc, Next;
    Ready(k);
    match a
    case Irq(n) => InterruptClock(k, n);
    case Resume => ResumedClock(k, k.current.value);
    case Sleep(ms) => SleepClock(k, k.current.value, ms, Sleeping);
    case Ask(call) => RequestClock(k, k.current.value, call);
    case Fetch(o, wait) => ReceiveClock(k, k.current.value, o);
    case Reply(o) => AnswerClock(k, k.current.value, o);
    case Map(o, i) => MapClock(k, k.current.value, o, i);
    case _ =>
  }

  ghost predicate SameClock(k: State, l: State)
  {
    l.ticks == k.ticks && l.sleepers == k.sleepers && l.frequency == k.frequency
  }

  lemma InterruptClock(k: State, n: nat)
    requires n < |k.irq| && k.frequency > 0
    ensures var l := Interrupt(k, n);
            && l.frequency == k.frequency && (n != 0 ==> SameClock(k, l))
            && (n == 0 ==> Past(l.ticks, l.sleepers) == Next(Past(k.ticks, k.sleepers), k.frequency, Ticked))
  {
    hide WakeAll, Switch, TimerCallback, Next;
    TimerClock(WakeAll(k.(irq := k.irq[n := []]), k.irq[n]));
  }

  lemma TimerClock(k: State)
    requires k.frequency > 0
    ensures var l := TimerCallback(k);
            && l.frequency == k.frequency
            && Past(l.ticks, l.sleepers) == Next(Past(k.ticks, k.sleepers), k.frequency, Ticked)
  {
    hide WakeAll, TimeAt, Due;
  }

  lemma SleepClock(k: State, c: Tid, ms: nat, cont: Cont)
    requires c in k.threads && k.frequency > 0
    ensures var l := SleepFor(k, c, ms, cont);
            && l.frequency == k.frequency
            && Past(l.ticks, l.sleepers) == Next(Past(k.ticks, k.sleepers), k.frequency, Slept(c, ms))
  {
    hide Switch;
  }

  lemma RequestClock(k: State, c: Tid, call: Call)
    requires c in k.threads && call.obj in k.objects && k.frequency > 0
    ensures var l := MakeRequest(k, c, call);
            SameClock(k, l) || (l.frequency == k.frequency &&
                Past(l.ticks, l.sleepers) == Next(Past(k.ticks, k.sleepers), k.frequency, Slept(c, 1)))
  {
    hide Switch, WakeUp, SleepFor, Next;
    if k.objects[call.obj].locked {
      SleepClock(k, c, 1, Locking(call));
    }
  }

  lemma ReceiveClock(k: State, c: Tid, o: Oid)
    requires c in k.threads && o in k.objects
    ensures SameClock(k, Receive(k, c, o)) && forall wait :: SameClock(k, Get(k, c, o, wait))
  {
    hide Switch;
  }

  lemma AnswerClock(k: State, c: Tid, o: Oid)
    requires c in k.threads && o in k.objects
    ensures SameClock(k, Answer(k, c, o))
  {
    hide WakeUp;
  }

  lemma MapClock(k: State, c: Tid, o: Oid, i: nat)
    requires c in k.threads && o in k.objects
    ensures SameClock(k, MapShm(k, c, o, i))
  {
  }

  lemma ResumedClock(k: State, c: Tid)
    requires c in k.threads && k.frequency > 0
    ensures var l := Resumed(k, c);
            SameClock(k, l) || (l.frequency == k.frequency &&
                Past(l.ticks, l.sleepers) == Next(Past(k.ticks, k.sleepers), k.frequency, Slept(c, 1)))
  {
    hide MakeRequest, Receive, Next;
    match k.threads[c].cont
    case Locking(call) => if call.obj in k.objects { RequestClock(k, c, call); }
    case Receiving(o) => if o in k.objects { ReceiveClock(k, c, o); }
    case _ =>
  }
}
