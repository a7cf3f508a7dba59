/**
 What every step of the kernel keeps: each blocked thread is named by exactly the one registration
 that will wake it, and the one-slot mailbox of every object is locked just while it holds a request.
 */
module KernelInv {
  import opened Common
  import opened Timer
  import opened Kernel
  import opened KernelSched
  import opened Lists

  type Threads = map<Tid, Thread>
  type Objects = map<Oid, Object>
  type Requests = map<Rid, Request>

  predicate Dozes(c: Cont) { c.Sleeping? || c.Locking? }

  /** The sleep list names exactly the threads blocked in `thread_sleep`, each once, in deadline order. */
  ghost predicate SleepOk(ts: Threads, l: seq<Sleeper>)
  {
    && Sorted(l) && NoTwice(Timer.Threads(l))
    && forall t :: t in Timer.Threads(l) <==> t in ts && !ts[t].running && Dozes(ts[t].cont)
  }

  /** The list of each interrupt names exactly the threads waiting for it, each once. */
  ghost predicate IrqOk(ts: Threads, q: seq<seq<Tid>>)
  {
    && |q| == IRQS
    && (forall n :: 0 <= n < IRQS ==> NoTwice(q[n]))
    && (forall n, t :: 0 <= n < IRQS ==> (t in q[n] <==> t in ts && !ts[t].running && ts[t].cont == AwaitingIrq(n)))
    && (forall t :: t in ts && ts[t].cont.AwaitingIrq? ==> ts[t].cont.irq < IRQS)
  }

  predicate PendingAt(os: Objects, rs: Requests, o: Oid)
  {
    o in os && os[o].request.Some? && os[o].request.value in rs && rs[os[o].request.value].status == Pending
  }

  /**
   `wakeupOnRq` names exactly the thread blocked in `request_get` on that object, and no two threads are in it; a
   receiver that has been woken finds a request pending. Nothing names one whose object has been freed.
   */
  ghost predicate ReceiveOk(ts: Threads, os: Objects, rs: Requests)
  {
    && OneEach(ts)
    && (forall o :: o in os && os[o].wakeupOnRq.Some? ==>
          var t := os[o].wakeupOnRq.value; t in ts && !ts[t].running && ts[t].cont == Receiving(o))
    && (forall t :: t in ts && ts[t].cont.Receiving? ==>
          var o := ts[t].cont.obj;
          if ts[t].running then PendingAt(os, rs, o) else o in os ==> os[o].wakeupOnRq == Some(t))
  }

  ghost predicate OneEach(ts: Threads)
  {
    forall t, u :: t in ts && u in ts && ts[t].cont.Receiving? && ts[u].cont == ts[t].cont ==> t == u
  }

  /**
   A blocking request names exactly the thread blocked in `request` on it: while the request is with
   its object the thread is blocked, and it can run again only once the request is finished.
   */
  ghost predicate AwaitOk(ts: Threads, os: Objects, rs: Requests)
  {
    && (forall t :: t in ts && ts[t].cont.Awaiting? ==> ts[t].cont.rq in rs && rs[ts[t].cont.rq].requester == Some(t))
    && (forall r :: r in rs && rs[r].requester.Some? ==>
          && rs[r].requester.value in ts && ts[rs[r].requester.value].cont == Awaiting(r)
          && (ts[rs[r].requester.value].running <==> rs[r].status == Finished))
  }

  /** The object's side of the mailbox. */
  ghost predicate SlotOk(os: Objects, rs: Requests, o: Oid)
    requires o in os
  {
    && (os[o].locked <==> os[o].request.Some?)
    && (os[o].wakeupOnRq.Some? ==> os[o].request.None?)
    && (os[o].request.Some? ==>
          var r := os[o].request.value;
          && r in rs && rs[r].obj == o && rs[r].status != Finished
          && (rs[r].status == Processed && rs[r].requester.None? ==> ToMap(rs[r])))
  }

  /** The request's side: it is with its object until it is finished; only a blocking one finishes. */
  ghost predicate RequestOk(os: Objects, rs: Requests, r: Rid)
    requires r in rs
  {
    && |rs[r].sent| == |rs[r].mapped| == PARAMS
    && (if rs[r].status == Finished then rs[r].requester.Some? else rs[r].obj in os && os[rs[r].obj].request == Some(r))
    && (rs[r].status == Pending ==> rs[r].mapped == [false, false, false])
  }

  ghost predicate MailOk(os: Objects, rs: Requests, next: Rid)
  {
    && (forall o :: o in os ==> SlotOk(os, rs, o))
    && (forall r :: r in rs ==> r < next && RequestOk(os, rs, r))
  }

  /** Requests are handed out once each and in the order they were made. */
  ghost predicate LogOk(os: Objects, rs: Requests, created: map<Oid, seq<Rid>>, delivered: map<Oid, seq<Rid>>)
  {
    forall o :: o in os ==>
      && o in created && o in delivered
      && created[o] == delivered[o] + if PendingAt(os, rs, o) then [os[o].request.value] else []
  }

  /** Request numbers are given out in increasing order. */
  ghost predicate OrderOk(created: map<Oid, seq<Rid>>, next: Rid)
  {
    forall o :: o in created ==>
      && (forall i :: 0 <= i < |created[o]| ==> created[o][i] < next)
      && (forall i, j :: 0 <= i < j < |created[o]| ==> created[o][i] < created[o][j])
  }

  ghost predicate ContOk(ts: Threads, os: Objects, idle: Tid)
  {
    && (forall t :: t in ts && ts[t].cont == InUser ==> ts[t].running)
    && (forall t :: t in ts && ts[t].cont.Locking? ==> ts[t].cont.call.obj in os && |ts[t].cont.call.shm| == PARAMS)
    && (idle in ts ==> ts[idle].cont == InUser)
  }

  /** Everything but the ready queues. */
  ghost predicate Comm(k: State)
  {
    && SleepOk(k.threads, k.sleepers)
    && IrqOk(k.threads, k.irq)
    && ReceiveOk(k.threads, k.objects, k.requests)
    && AwaitOk(k.threads, k.objects, k.requests)
    && MailOk(k.objects, k.requests, k.nextRq)
    && LogOk(k.objects, k.requests, k.created, k.delivered)
    && OrderOk(k.created, k.nextRq)
    && ContOk(k.threads, k.objects, k.idle)
    && k.frequency > 0 && !k.fault
  }

  ghost predicate Inv(k: State) { SchedInv(k) && Comm(k) }

  // ---------------------------------------------------------------- the sleep list

  /** Blocked-in-sleep is a matter of each thread alone. */
  lemma SleepSame(ts: Threads, us: Threads, l: seq<Sleeper>)
    requires SleepOk(ts, l)
    requires forall t :: (t in us && !us[t].running && Dozes(us[t].cont)) <==>
             (t in ts && !ts[t].running && Dozes(ts[t].cont))
    ensures SleepOk(us, l)
  {
    hide Timer.Threads;
  }

  lemma SleepEnter(ts: Threads, l: seq<Sleeper>, x: Sleeper, th: Thread)
    requires SleepOk(ts, l) && x.thread in ts && ts[x.thread].running && !th.running && Dozes(th.cont)
    ensures SleepOk(ts[x.thread := th], Entered(l, x))
  {
    EnteredSorted(l, x);
    EnteredThreads(l, x);
  }

  lemma {:induction false} EnteredThreads(l: seq<Sleeper>, x: Sleeper)
    ensures forall t :: t in Timer.Threads(Entered(l, x)) <==> t in Timer.Threads(l) || t == x.thread
    ensures NoTwice(Timer.Threads(l)) && x.thread !in Timer.Threads(l) ==> NoTwice(Timer.Threads(Entered(l, x)))
  {
    var r := Entered(l, x);
    if l == [] || l[0].deadline >= x.deadline {
      assert Timer.Threads(r) == [x.thread] + Timer.Threads(l);
      NoTwiceFirst(x.thread, Timer.Threads(l));
    } else {
      EnteredThreads(l[1..], x);
      assert Timer.Threads(r) == [l[0].thread] + Timer.Threads(Entered(l[1..], x));
      assert Timer.Threads(l) == [l[0].thread] + Timer.Threads(l[1..]);
      NoTwiceFirst(l[0].thread, Timer.Threads(l[1..]));
      NoTwiceFirst(l[0].thread, Timer.Threads(Entered(l[1..], x)));
    }
  }

  lemma SleepWake(ts: Threads, l: seq<Sleeper>, d: nat)
    requires SleepOk(ts, l) && d <= |l|
    ensures SleepOk(Woken(ts, set t | t in Timer.Threads(l[..d])), l[d..])
  {
    var a, b := Timer.Threads(l[..d]), Timer.Threads(l[d..]);
    assert Timer.Threads(l) == a + b;
    forall t | t in b
      ensures t !in a
    {
      var j :| 0 <= j < |b| && b[j] == t;
      assert Timer.Threads(l)[d + j] == t;
    }
  }

  // ---------------------------------------------------------------- the interrupt lists

  lemma IrqSame(ts: Threads, us: Threads, q: seq<seq<Tid>>)
    requires IrqOk(ts, q)
    requires forall t :: t in us && us[t].cont.AwaitingIrq? ==>
             t in ts && us[t].cont == ts[t].cont && us[t].running == ts[t].running
    requires forall t :: t in ts && !ts[t].running && ts[t].cont.AwaitingIrq? ==>
             t in us && us[t].cont == ts[t].cont && !us[t].running
    ensures IrqOk(us, q)
  {
  }

  lemma IrqEnter(ts: Threads, q: seq<seq<Tid>>, n: nat, c: Tid, th: Thread)
    requires IrqOk(ts, q) && n < IRQS && c in ts && ts[c].running && !th.running && th.cont == AwaitingIrq(n)
    ensures IrqOk(ts[c := th], q[n := [c] + q[n]])
  {
    var us := ts[c := th];
    var p := q[n := [c] + q[n]];
    forall m, t | 0 <= m < IRQS
      ensures t in p[m] <==> t in us && !us[t].running && us[t].cont == AwaitingIrq(m)
    {
      assert t in p[m] <==> t in q[m] || (m == n && t == c);
    }
  }

  lemma IrqWake(ts: Threads, q: seq<seq<Tid>>, n: nat)
    requires IrqOk(ts, q) && n < IRQS
    ensures IrqOk(Woken(ts, set t | t in q[n]), q[n := []])
  {
    var us, p := Woken(ts, set t | t in q[n]), q[n := []];
    forall m, t | 0 <= m < IRQS
      ensures t in p[m] <==> t in us && !us[t].running && us[t].cont == AwaitingIrq(m)
    {
      assert t in q[m] <==> t in ts && !ts[t].running && ts[t].cont == AwaitingIrq(m);
      assert t in q[n] <==> t in ts && !ts[t].running && ts[t].cont == AwaitingIrq(n);
    }
  }
}
