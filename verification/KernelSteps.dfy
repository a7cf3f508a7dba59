/** Every action of the kernel keeps its invariant; the consequences over whole runs. */
module KernelSteps {
  import opened Common
  import opened Queues
  import opened Timer
  import opened Kernel
  import opened KernelSched
  import opened KernelInv

  // ---------------------------------------------------------------- scheduling side of the actions

  /** Only which threads can run, and their priorities, matter for scheduling. */
  lemma SameRunning(k: State, l: State)
    requires SchedInv(k) && l.threads.Keys == k.threads.Keys
    requires forall t :: t in k.threads ==>
             l.threads[t].running == k.threads[t].running && l.threads[t].priority == k.threads[t].priority
    requires l.queues == k.queues && l.current == k.current && l.idle == k.idle
    ensures SchedInv(l)
  {
    hide Once, Waits;
  }

  /** Blocking the current thread and switching. */
  lemma BlockSched(k: State, c: Tid, cont: Cont)
    requires SchedInv(k) && k.current == Some(c) && c != k.idle
    ensures SchedInv(GoInactive(k, c, cont))
  {
    hide Once, Waits, Switch;
    SwitchScheduled(k.(threads := k.threads[c := k.threads[c].(running := false, cont := cont)]));
  }

  lemma WakeSched(k: State, t: Tid)
    requires SchedInv(k) && t in k.threads && k.current.Some? && k.current != Some(t)
    ensures SchedInv(WakeUp(k, t)) && WakeUp(k, t).current == k.current
  {
    hide Once, Waits, ScheduledBut, AtBoot;
    WakeUpScheduled(k, t);
    assert k.current.value in WakeUp(k, t).threads &&
           WakeUp(k, t).threads[k.current.value] == k.threads[k.current.value] by {
      assert k.current.value in k.threads by {
        SchedCurrent(k);
      }
    }
  }

  lemma SchedCurrent(k: State)
    requires SchedInv(k) && k.current.Some?
    ensures k.current.value in k.threads && k.threads[k.current.value].running
    ensures k.threads[k.current.value].priority < PRIORITIES
    ensures k.idle in k.threads && k.threads[k.idle].running
  {
    hide Once, Waits;
  }

  // ---------------------------------------------------------------- parts that an action leaves alone

  predicate Talks(c: Cont) { c.Receiving? || c.Awaiting? }

  /** The threads in `request_get` and `request` are the same, in the same state. */
  ghost predicate SameTalk(ts: Threads, us: Threads)
  {
    && (forall t :: t in ts && Talks(ts[t].cont) ==> t in us && us[t] == ts[t])
    && (forall t :: t in us && Talks(us[t].cont) ==> t in ts && us[t] == ts[t])
  }

  lemma TalkSame(ts: Threads, us: Threads, os: Objects, rs: Requests)
    requires SameTalk(ts, us) && ReceiveOk(ts, os, rs) && AwaitOk(ts, os, rs)
    ensures ReceiveOk(us, os, rs) && AwaitOk(us, os, rs)
  {
  }

  lemma ContSame(ts: Threads, us: Threads, os: Objects, idle: Tid)
    requires ContOk(ts, os, idle)
    requires forall t :: t in us ==> (t in ts && us[t].cont == ts[t].cont && (ts[t].running ==> us[t].running)) ||
                                     (us[t].cont == InUser && us[t].running) ||
                                         (us[t].cont != InUser && !us[t].cont.Locking? && t != idle)
    ensures ContOk(us, os, idle)
  {
  }

  /** Replacing thread `c`, that is none of the blocked ones before and after. */
  lemma AloneSame(k: State, c: Tid, th: Thread)
    requires Comm(k) && c in k.threads && k.threads[c].running && !Talks(k.threads[c].cont)
    requires th.running && th.cont == InUser
    ensures Comm(k.(threads := k.threads[c := th]))
  {
    hide SleepOk, IrqOk, ReceiveOk, AwaitOk, MailOk, LogOk, OrderOk, ContOk;
    var us := k.threads[c := th];
    AloneSleep(k.threads, us, k.sleepers, c);
    AloneIrq(k.threads, us, k.irq, c);
    TalkSame(k.threads, us, k.objects, k.requests);
    ContSame(k.threads, us, k.objects, k.idle);
  }

  lemma AloneSleep(ts: Threads, us: Threads, l: seq<Sleeper>, c: Tid)
    requires SleepOk(ts, l) && c in ts && ts[c].running && c in us && us == ts[c := us[c]] &&
             (us[c].running || !Dozes(us[c].cont))
    ensures SleepOk(us, l)
  {
    SleepSame(ts, us, l);
  }

  lemma AloneIrq(ts: Threads, us: Threads, q: seq<seq<Tid>>, c: Tid)
    requires IrqOk(ts, q) && c in ts && ts[c].running && c in us && us == ts[c := us[c]] && !us[c].cont.AwaitingIrq?
    ensures IrqOk(us, q)
  {
    IrqSame(ts, us, q);
  }

  // ---------------------------------------------------------------- blocking and returning

  /** The current thread returns to user mode. */
  lemma ReturnInv(k: State, c: Tid)
    requires Inv(k) && c in k.threads && k.threads[c].running && !Talks(k.threads[c].cont)
    ensures Inv(Continue(k, c, InUser))
  {
    hide SchedInv, Comm;
    AloneSame(k, c, k.threads[c].(cont := InUser));
    SameRunning(k, Continue(k, c, InUser));
  }

  /** `thread_sleep` from user mode, or from `mutex_lock`. */
  lemma SleepInv(k: State, c: Tid, msecs: nat, cont: Cont)
    requires Inv(k) && k.current == Some(c) && c in k.threads && c != k.idle && k.threads[c].running
    requires !Talks(k.threads[c].cont)
    requires Dozes(cont) && (cont.Locking? ==> cont.call.obj in k.objects && |cont.call.shm| == PARAMS)
    ensures Inv(SleepFor(k, c, msecs, cont))
  {
    hide SchedInv, SleepOk, IrqOk, ReceiveOk, AwaitOk, MailOk, LogOk, OrderOk, Switch, TimeAt;
    var x := Sleeper(Now(k) + msecs, c);
    var th := k.threads[c].(running := false, cont := cont);
    SleepEnter(k.threads, k.sleepers, x, th);
    AloneIrq(k.threads, k.threads[c := th], k.irq, c);
    TalkSame(k.threads, k.threads[c := th], k.objects, k.requests);
    SameRunning(k, k.(sleepers := Entered(k.sleepers, x)));
    BlockSched(k.(sleepers := Entered(k.sleepers, x)), c, cont);
  }

  lemma WaitIrqInv(k: State, c: Tid, n: nat)
    requires Inv(k) && k.current == Some(c) && c in k.threads && c != k.idle && k.threads[c].running
    requires !Talks(k.threads[c].cont)
    requires n < IRQS && |k.irq| == IRQS
    ensures Inv(GoInactive(k.(irq := k.irq[n := [c] + k.irq[n]]), c, AwaitingIrq(n)))
  {
    hide SchedInv, SleepOk, IrqOk, ReceiveOk, AwaitOk, MailOk, LogOk, OrderOk, Switch;
    var th := k.threads[c].(running := false, cont := AwaitingIrq(n));
    IrqEnter(k.threads, k.irq, n, c, th);
    AloneSleep(k.threads, k.threads[c := th], k.sleepers, c);
    TalkSame(k.threads, k.threads[c := th], k.objects, k.requests);
    var k1 := k.(irq := k.irq[n := [c] + k.irq[n]]);
    SameRunning(k, k1);
    BlockSched(k1, c, AwaitingIrq(n));
  }

  // ---------------------------------------------------------------- interrupts

  /** Waking threads none of which is in `request_get` or `request`. */
  lemma WokenTalk(ts: Threads, ws: set<Tid>)
    requires forall t :: t in ws && t in ts ==> !Talks(ts[t].cont)
    ensures SameTalk(ts, Woken(ts, ws))
  {
  }

  lemma WakeIrqComm(k: State, n: nat)
    requires Comm(k) && n < IRQS
    ensures Comm(WakeAll(k.(irq := k.irq[n := []]), k.irq[n]))
  {
    hide SleepOk, ReceiveOk, AwaitOk, MailOk, LogOk, OrderOk, ContOk, WakeAll;
    var ws := set t | t in k.irq[n];
    var us := Woken(k.threads, ws);
    assert forall t :: t in k.irq[n] ==> t in k.threads && k.threads[t].cont == AwaitingIrq(n);
    IrqWake(k.threads, k.irq, n);
    WokenTalk(k.threads, ws);
    SleepSame(k.threads, us, k.sleepers);
    TalkSame(k.threads, us, k.objects, k.requests);
    ContSame(k.threads, us, k.objects, k.idle);
  }

  lemma TimerComm(k: State)
    requires Comm(k)
    ensures Comm(TimerCallback(k))
  {
    hide SleepOk, IrqOk, ReceiveOk, AwaitOk, MailOk, LogOk, OrderOk, ContOk, TimerCallback, TimeAt, Due;
    var d := Due(k.sleepers, TimeAt(k.ticks + 1, k.frequency));
    var ts := Timer.Threads(k.sleepers[..d]);
    var ws := set t | t in ts;
    var us := Woken(k.threads, ws);
    PrefixAsleep(k.threads, k.sleepers, d);
    TimerIs(k, d, us);
    SleepWake(k.threads, k.sleepers, d);
    WokenTalk(k.threads, ws);
    IrqSame(k.threads, us, k.irq);
    TalkSame(k.threads, us, k.objects, k.requests);
    ContSame(k.threads, us, k.objects, k.idle);
  }

  lemma TimerIs(k: State, d: nat, us: Threads)
    requires k.frequency > 0 && d == Due(k.sleepers, TimeAt(k.ticks + 1, k.frequency))
    requires us == Woken(k.threads, set t | t in Timer.Threads(k.sleepers[..d]))
    requires forall t :: t in Timer.Threads(k.sleepers[..d]) ==> t in k.threads
    ensures var r := TimerCallback(k);
            r == k.(ticks := k.ticks + 1, sleepers := k.sleepers[d..], threads := us, queues := r.queues)
  {
    hide WakeAll, TimeAt, Due, Woken;
  }

  lemma PrefixAsleep(ts: Threads, l: seq<Sleeper>, d: nat)
    requires SleepOk(ts, l) && d <= |l|
    ensures forall t :: t in Timer.Threads(l[..d]) ==> t in ts && !ts[t].running && Dozes(ts[t].cont)
  {
    forall t | t in Timer.Threads(l[..d])
      ensures t in Timer.Threads(l)
    {
      var i :| 0 <= i < d && Timer.Threads(l[..d])[i] == t;
      assert Timer.Threads(l)[i] == t;
    }
  }

  lemma WakeAllSched(k: State, ts: seq<Tid>)
    requires SchedInv(k) && forall t :: t in ts ==> t in k.threads && !k.threads[t].running
    ensures SchedInv(WakeAll(k, ts)) && WakeAll(k, ts).current == k.current
  {
    hide Once, Waits, ScheduledBut, AtBoot, WakeAll;
    if k.current.Some? {
      SchedCurrent(k);
    }
    WakeAllScheduled(k, ts);
  }

  lemma InterruptInv(k: State, n: nat)
    requires Inv(k) && n < IRQS && |k.irq| == IRQS
    ensures Inv(Interrupt(k, n))
  {
    hide SchedInv, Comm, WakeAll, Switch, TimerCallback;
    var k1 := WakeAll(k.(irq := k.irq[n := []]), k.irq[n]);
    WakeIrqComm(k, n);
    IrqBlocked(k, n);
    SameRunning(k, k.(irq := k.irq[n := []]));
    WakeAllSched(k.(irq := k.irq[n := []]), k.irq[n]);
    var k2 := if n == 0 then TimerCallback(k1) else k1;
    if n == 0 {
      TimerComm(k1);
      TimerSched(k1);
    }
    SwitchInv(k2);
  }

  lemma IrqBlocked(k: State, n: nat)
    requires Comm(k) && n < IRQS
    ensures n < |k.irq| && forall t :: t in k.irq[n] ==> t in k.threads && !k.threads[t].running
    ensures k.frequency > 0
  {
    hide SleepOk, ReceiveOk, AwaitOk, MailOk, LogOk, OrderOk, ContOk;
  }

  lemma TimerSched(k: State)
    requires SchedInv(k) && Comm(k)
    ensures SchedInv(TimerCallback(k))
  {
    hide SchedInv, WakeAll, TimeAt, IrqOk, ReceiveOk, AwaitOk, MailOk, LogOk, OrderOk, ContOk;
    var d := Due(k.sleepers, TimeAt(k.ticks + 1, k.frequency));
    var k1 := k.(ticks := k.ticks + 1, sleepers := k.sleepers[d..]);
    PrefixAsleep(k.threads, k.sleepers, d);
    SameRunning(k, k1);
    WakeAllSched(k1, Timer.Threads(k.sleepers[..d]));
  }

  lemma SwitchInv(k: State)
    requires Inv(k)
    ensures Inv(Switch(k))
  {
    hide Once, Waits, ScheduledBut, AtBoot, Switch, SleepOk, IrqOk, ReceiveOk, AwaitOk, MailOk, LogOk, OrderOk, ContOk;
    SwitchScheduled(k);
  }

  // ---------------------------------------------------------------- requests

  /** The threads after a request has been posted: a waiting receiver woken, the poster blocked or back in user mode. */
  function Posted(ts: Threads, w: Option<Tid>, c: Tid, th: Thread): Threads
  {
    (if w.Some? then Woken(ts, {w.value}) else ts)[c := th]
  }

  lemma PostMail(os: Objects, rs: Requests, next: Rid, o: Oid, rq: Request)
    requires MailOk(os, rs, next) && o in os && !os[o].locked
    requires rq.obj == o && rq.status == Pending && |rq.sent| == PARAMS && rq.mapped == [false, false, false]
    ensures MailOk(os[o := os[o].(locked := true, request := Some(next), wakeupOnRq := None)], rs[next := rq], next + 1)
  {
    var os1 := os[o := os[o].(locked := true, request := Some(next), wakeupOnRq := None)];
    var rs1 := rs[next := rq];
    forall p | p in os1
      ensures SlotOk(os1, rs1, p)
    {
      assert SlotOk(os, rs, p);
    }
    forall r | r in rs1
      ensures r < next + 1 && RequestOk(os1, rs1, r)
    {
      if r != next {
        assert RequestOk(os, rs, r);
        assert SlotOk(os, rs, o);
      }
    }
  }

  lemma PostReceive(ts: Threads, os: Objects, rs: Requests, next: Rid, o: Oid, rq: Request,
      c: Tid, th: Thread)
    requires ReceiveOk(ts, os, rs) && MailOk(os, rs, next) && o in os && !os[o].locked && rq.status == Pending
    requires c in ts && ts[c].running && !Talks(ts[c].cont) && !th.cont.Receiving?
    ensures ReceiveOk(Posted(ts, os[o].wakeupOnRq, c, th),
                      os[o := os[o].(locked := true, request := Some(next), wakeupOnRq := None)], rs[next := rq])
  {
    var us := Posted(ts, os[o].wakeupOnRq, c, th);
    var os1 := os[o := os[o].(locked := true, request := Some(next), wakeupOnRq := None)];
    var rs1 := rs[next := rq];
    assert SlotOk(os, rs, o);
    forall t | t in us && us[t].cont.Receiving?
      ensures var p := us[t].cont.obj;
              if us[t].running then PendingAt(os1, rs1, p) else p in os1 ==> os1[p].wakeupOnRq == Some(t)
    {
      assert t != c && us[t].cont == ts[t].cont;
    }
  }

  lemma PostAwait(ts: Threads, os: Objects, rs: Requests, next: Rid, w: Option<Tid>, os1: Objects, rq: Request, c: Tid,
      th: Thread)
    requires AwaitOk(ts, os, rs) && next !in rs && rq.status == Pending
    requires c in ts && ts[c].running && !Talks(ts[c].cont)
    requires w.Some? ==> w.value in ts && ts[w.value].cont.Receiving?
    requires if rq.requester.Some? then rq.requester.value == c && th.cont == Awaiting(next) && !th.running
             else !th.cont.Awaiting?
    ensures AwaitOk(Posted(ts, w, c, th), os1, rs[next := rq])
  {
  }

  lemma PostLog(os: Objects, rs: Requests, created: map<Oid, seq<Rid>>, delivered: map<Oid, seq<Rid>>, next: Rid,
      o: Oid, rq: Request)
    requires LogOk(os, rs, created, delivered) && MailOk(os, rs, next) && o in os && !os[o].locked
    requires rq.status == Pending
    ensures o in created
    ensures LogOk(os[o := os[o].(locked := true, request := Some(next), wakeupOnRq := None)], rs[next := rq],
            created[o := created[o] + [next]], delivered)
  {
    var os1 := os[o := os[o].(locked := true, request := Some(next), wakeupOnRq := None)];
    var rs1 := rs[next := rq];
    forall p | p in os1
      ensures PendingAt(os1, rs1, p) <==> p == o || PendingAt(os, rs, p)
    {
      assert SlotOk(os, rs, p);
    }
    assert SlotOk(os, rs, o);
  }

  /** The state in which `mkrequest` ends, ready queues apart. */
  lemma PostForm(k: State, c: Tid, call: Call)
    requires Comm(k) && c in k.threads && call.obj in k.objects && !k.objects[call.obj].locked
    ensures var o, r, p := call.obj, k.nextRq, Post(k, c, call);
            && o in k.created
            && p ==
                k.(threads := if k.objects[o].wakeupOnRq.Some? then Woken(k.threads, {k.objects[o].wakeupOnRq.value})
                else k.threads,
                       queues := p.queues,
                       requests := k.requests[r := NewRequest(k, c, call)],
                       objects := k.objects[o := k.objects[o].(locked := true, request := Some(r), wakeupOnRq := None)],
                       created := k.created[o := k.created[o] + [r]],
                       nextRq := r + 1)
  {
    hide SleepOk, IrqOk, AwaitOk, MailOk, OrderOk, ContOk, WakeUp;
  }

  lemma PostComm(k: State, c: Tid, call: Call, th: Thread)
    requires Comm(k) && c in k.threads && call.obj in k.objects && !k.objects[call.obj].locked && |call.shm| == PARAMS
    requires k.threads[c].running && !Talks(k.threads[c].cont) && c != k.idle
    requires if call.blocking then th.cont == Awaiting(k.nextRq) && !th.running else th.cont == InUser && th.running
    ensures var p := Post(k, c, call);
            c in p.threads && Comm(p.(threads := p.threads[c := th]))
  {
    hide SleepOk, IrqOk, ReceiveOk, AwaitOk, MailOk, LogOk, OrderOk, ContOk, Post;
    FreshRequest(k);
    var o, r, p := call.obj, k.nextRq, Post(k, c, call);
    PostForm(k, c, call);
    var rq, w := NewRequest(k, c, call), k.objects[o].wakeupOnRq;
    var us := Posted(k.threads, w, c, th);
    PostThreads(k, o, c, th);
    PostMail(k.objects, k.requests, r, o, rq);
    PostReceive(k.threads, k.objects, k.requests, r, o, rq, c, th);
    PostAwait(k.threads, k.objects, k.requests, r, w, p.objects, rq, c, th);
    PostLog(k.objects, k.requests, k.created, k.delivered, r, o, rq);
    PostOrder(k.created, r, o);
  }

  lemma PostOrder(created: map<Oid, seq<Rid>>, next: Rid, o: Oid)
    requires OrderOk(created, next) && o in created
    ensures OrderOk(created[o := created[o] + [next]], next + 1)
  {
  }

  lemma PostThreads(k: State, o: Oid, c: Tid, th: Thread)
    requires Comm(k) && c in k.threads && o in k.objects && k.threads[c].running && c != k.idle
    requires (th.cont.Awaiting? && !th.running) || (th.cont == InUser && th.running)
    ensures var w, us := k.objects[o].wakeupOnRq, Posted(k.threads, k.objects[o].wakeupOnRq, c, th);
            && SleepOk(us, k.sleepers) && IrqOk(us, k.irq)
            && (forall os1: Objects :: os1.Keys == k.objects.Keys ==> ContOk(us, os1, k.idle))
            && (w.Some? ==> w.value in k.threads && k.threads[w.value].cont.Receiving?)
  {
    hide SleepOk, IrqOk, AwaitOk, MailOk, LogOk, OrderOk, ReceiveOk, ContOk, Posted;
    var w, us := k.objects[o].wakeupOnRq, Posted(k.threads, k.objects[o].wakeupOnRq, c, th);
    if w.Some? {
      ReceiverThere(k.threads, k.objects, k.requests, o);
    }
    PostedOthers(k.threads, w, c, th);
    forall os1: Objects | os1.Keys == k.objects.Keys
      ensures ContOk(us, os1, k.idle)
    {
      ContOthers(k.threads, us, k.objects, os1, k.idle, c);
    }
    SleepSame(k.threads, us, k.sleepers);
    IrqSame(k.threads, us, k.irq);
  }

  lemma ReceiverThere(ts: Threads, os: Objects, rs: Requests, o: Oid)
    requires ReceiveOk(ts, os, rs) && o in os && os[o].wakeupOnRq.Some?
    ensures os[o].wakeupOnRq.value in ts && ts[os[o].wakeupOnRq.value].cont == Receiving(o)
  {
  }

  lemma ContOthers(ts: Threads, us: Threads, os: Objects, os1: Objects, idle: Tid, c: Tid)
    requires ContOk(ts, os, idle) && os1.Keys == os.Keys && c in ts && us.Keys == ts.Keys && c != idle
    requires (us[c].cont.Awaiting? && !us[c].running) || (us[c].cont == InUser && us[c].running)
    requires forall t :: t in ts && t != c ==> us[t].cont == ts[t].cont && (ts[t].running ==> us[t].running)
    ensures ContOk(us, os1, idle)
  {
  }

  lemma PostedOthers(ts: Threads, w: Option<Tid>, c: Tid, th: Thread)
    requires c in ts && ts[c].running && (w.Some? ==> w.value in ts && ts[w.value].cont.Receiving?)
    ensures var us := Posted(ts, w, c, th);
            && us.Keys == ts.Keys && us[c] == th
            && (forall t :: t in ts && t != c ==> us[t].cont == ts[t].cont && (ts[t].running ==> us[t].running))
            && (forall t :: t in ts && t != c && !ts[t].cont.Receiving? ==> us[t] == ts[t])
  {
  }

  lemma FreshRequest(k: State)
    requires Comm(k)
    ensures k.nextRq !in k.requests
  {
    hide SleepOk, IrqOk, ReceiveOk, AwaitOk, LogOk, OrderOk, ContOk, SlotOk, RequestOk;
  }

  lemma MakeRequestInv(k: State, c: Tid, call: Call)
    requires Inv(k) && k.current == Some(c) && c in k.threads && c != k.idle && k.threads[c].running
    requires !Talks(k.threads[c].cont)
    requires call.obj in k.objects && |call.shm| == PARAMS
    ensures Inv(MakeRequest(k, c, call))
  {
    hide SchedInv, Comm, Post, GoInactive, Continue, SleepFor;
    if k.objects[call.obj].locked {
      SleepInv(k, c, 1, Locking(call));
    } else if k.objects[call.obj].owner.None? {
      ReturnInv(k, c);
    } else {
      PostInv(k, c, call);
    }
  }

  lemma PostInv(k: State, c: Tid, call: Call)
    requires Inv(k) && k.current == Some(c) && c in k.threads && c != k.idle && k.threads[c].running
    requires !Talks(k.threads[c].cont)
    requires call.obj in k.objects && |call.shm| == PARAMS && !k.objects[call.obj].locked
    ensures var p := Post(k, c, call);
            c in p.threads &&
                Inv(if call.blocking then GoInactive(p, c, Awaiting(k.nextRq)) else Continue(p, c, InUser))
  {
    hide SchedInv, Comm, Post, Switch;
    var p := Post(k, c, call);
    PostSched(k, c, call);
    var th := if call.blocking then p.threads[c].(running := false, cont := Awaiting(k.nextRq))
        else p.threads[c].(cont := InUser);
    PostComm(k, c, call, th);
    if call.blocking {
      BlockSched(p, c, Awaiting(k.nextRq));
      SwitchComm(p.(threads := p.threads[c := th]));
    } else {
      SameRunning(p, Continue(p, c, InUser));
    }
  }

  lemma SwitchComm(k: State)
    requires Comm(k)
    ensures Comm(Switch(k))
  {
    hide Switch, SleepOk, IrqOk, ReceiveOk, AwaitOk, MailOk, LogOk, OrderOk, ContOk;
  }

  lemma PostSched(k: State, c: Tid, call: Call)
    requires Inv(k) && k.current == Some(c) && c in k.threads && k.threads[c].running && call.obj in k.objects
    ensures var p := Post(k, c, call);
            SchedInv(p) && p.current == Some(c) && p.idle == k.idle && c in p.threads && p.threads[c] == k.threads[c]
  {
    hide SchedInv, SleepOk, IrqOk, AwaitOk, MailOk, LogOk, OrderOk, ContOk;
    var o, r := call.obj, k.nextRq;
    var k1 := k.(requests := k.requests[r := NewRequest(k, c, call)],
                 objects := k.objects[o := k.objects[o].(locked := true, request := Some(r), wakeupOnRq := None)],
                 created := k.created[o := (if o in k.created then k.created[o] else []) + [r]],
                 nextRq := r + 1);
    SameRunning(k, k1);
    var w := k.objects[o].wakeupOnRq;
    if w.Some? {
      WakeSched(k1, w.value);
      assert Post(k, c, call) == WakeUp(k1, w.value);
    }
  }

  // ---------------------------------------------------------------- receiving

  /** The receiver finds nothing and registers itself. */
  lemma AwaitRequestInv(k: State, c: Tid, o: Oid)
    requires Inv(k) && k.current == Some(c) && c in k.threads && c != k.idle && k.threads[c].running
    requires !Talks(k.threads[c].cont)
    requires o in k.objects && !k.objects[o].locked && Alone(k.threads, o, c)
    ensures Inv(GoInactive(k.(objects := k.objects[o := k.objects[o].(wakeupOnRq := Some(c))]), c, Receiving(o)))
  {
    hide SchedInv, SleepOk, IrqOk, ReceiveOk, MailOk, AwaitOk, LogOk, OrderOk, Switch;
    var th := k.threads[c].(running := false, cont := Receiving(o));
    var us, os := k.threads[c := th], k.objects[o := k.objects[o].(wakeupOnRq := Some(c))];
    UnlockedEmpty(k.objects, k.requests, k.nextRq, o);
    WaitReceive(k.threads, k.objects, k.requests, c, o, th);
    AloneSleep(k.threads, us, k.sleepers, c);
    AloneIrq(k.threads, us, k.irq, c);
    WaitMail(k.objects, k.requests, k.nextRq, o, Some(c));
    WaitLog(k.objects, k.requests, k.created, k.delivered, o, Some(c));
    WaitAwait(k.threads, us, k.objects, os, k.requests, c);
    SameRunning(k, k.(objects := os));
    BlockSched(k.(objects := os), c, Receiving(o));
  }

  lemma UnlockedEmpty(os: Objects, rs: Requests, next: Rid, o: Oid)
    requires MailOk(os, rs, next) && o in os && !os[o].locked
    ensures os[o].request.None?
  {
    assert SlotOk(os, rs, o);
  }

  lemma WaitReceive(ts: Threads, os: Objects, rs: Requests, c: Tid, o: Oid, th: Thread)
    requires ReceiveOk(ts, os, rs) && c in ts && ts[c].running && !ts[c].cont.Receiving? && o in os
    requires Alone(ts, o, c) && !th.running && th.cont == Receiving(o)
    ensures ReceiveOk(ts[c := th], os[o := os[o].(wakeupOnRq := Some(c))], rs)
  {
  }

  lemma WaitMail(os: Objects, rs: Requests, next: Rid, o: Oid, w: Option<Tid>)
    requires MailOk(os, rs, next) && o in os && os[o].request.None?
    ensures MailOk(os[o := os[o].(wakeupOnRq := w)], rs, next)
  {
    var os1 := os[o := os[o].(wakeupOnRq := w)];
    forall p | p in os1 ensures SlotOk(os1, rs, p) {
      assert SlotOk(os, rs, p);
    }
    forall r | r in rs ensures RequestOk(os1, rs, r) {
      assert RequestOk(os, rs, r);
    }
  }

  lemma WaitLog(os: Objects, rs: Requests, created: map<Oid, seq<Rid>>, delivered: map<Oid, seq<Rid>>, o: Oid,
      w: Option<Tid>)
    requires LogOk(os, rs, created, delivered) && o in os
    ensures LogOk(os[o := os[o].(wakeupOnRq := w)], rs, created, delivered)
  {
    var os1 := os[o := os[o].(wakeupOnRq := w)];
    assert forall p :: p in os ==> (PendingAt(os1, rs, p) <==> PendingAt(os, rs, p));
  }

  lemma WaitAwait(ts: Threads, us: Threads, os: Objects, os1: Objects, rs: Requests, c: Tid)
    requires AwaitOk(ts, os, rs) && c in ts && ts[c].running && !Talks(ts[c].cont)
    requires c in us && us == ts[c := us[c]] && !us[c].cont.Awaiting?
    ensures AwaitOk(us, os1, rs)
  {
  }

  /** Handing out the request of `o`: the mailbox keeps it unless it is a message with nothing to map. */
  lemma DeliverMail(os: Objects, rs: Requests, next: Rid, o: Oid, r: Rid)
    requires MailOk(os, rs, next) && PendingAt(os, rs, o) && r == os[o].request.value
    ensures var rs1 := rs[r := rs[r].(status := Processed)];
            if rs[r].requester.Some? || Contains(rs[r].sent) then MailOk(os, rs1, next)
            else MailOk(os[o := os[o].(locked := false, request := None)], rs1 - {r}, next)
  {
    var rq := rs[r].(status := Processed);
    var keep := rs[r].requester.Some? || Contains(rs[r].sent);
    var os1 := if keep then os else os[o := os[o].(locked := false, request := None)];
    var rs1 := if keep then rs[r := rq] else rs[r := rq] - {r};
    assert SlotOk(os, rs, o) && RequestOk(os, rs, r);
    if Contains(rs[r].sent) {
      var i :| 0 <= i < |rs[r].sent| && rs[r].sent[i];
      assert rq.sent[i] && !rq.mapped[i];
      assert ToMap(rq);
    }
    forall p | p in os1 ensures SlotOk(os1, rs1, p) {
      assert SlotOk(os, rs, p);
    }
    forall q | q in rs1 ensures q < next && RequestOk(os1, rs1, q) {
      assert RequestOk(os, rs, q);
    }
  }

  lemma DeliverReceive(ts: Threads, us: Threads, os: Objects, rs: Requests, next: Rid, o: Oid,
      r: Rid, c: Tid, os1: Objects, rs1: Requests)
    requires ReceiveOk(ts, os, rs) && MailOk(os, rs, next) && PendingAt(os, rs, o) && r == os[o].request.value
    requires Alone(ts, o, c) && c in ts && ts[c].running && c in us && us == ts[c := us[c]]
    requires us[c].running && !us[c].cont.Receiving?
    requires os1 == os || os1 == os[o := os[o].(locked := false, request := None)]
    requires forall q :: q in rs && q != r ==> q in rs1 && rs1[q] == rs[q]
    ensures ReceiveOk(us, os1, rs1)
  {
    forall t | t in us && us[t].cont.Receiving?
      ensures var p := us[t].cont.obj;
              if us[t].running then PendingAt(os1, rs1, p) else p in os1 ==> os1[p].wakeupOnRq == Some(t)
    {
      var p := us[t].cont.obj;
      assert t != c && p != o;
      assert (p in os ==> SlotOk(os, rs, p)) && SlotOk(os, rs, o);
    }
  }

  lemma DeliverAwait(ts: Threads, us: Threads, os: Objects, os1: Objects, rs: Requests, r: Rid, c: Tid, rs1: Requests)
    requires AwaitOk(ts, os, rs) && r in rs && rs[r].status == Pending && c in ts && ts[c].running
    requires !ts[c].cont.Awaiting?
    requires c in us && us == ts[c := us[c]] && !us[c].cont.Awaiting?
    requires rs1 == rs[r := rs[r].(status := Processed)] || (rs[r].requester.None? && rs1 == rs - {r})
    ensures AwaitOk(us, os1, rs1)
  {
  }

  lemma DeliverLog(os: Objects, rs: Requests, created: map<Oid, seq<Rid>>, delivered: map<Oid, seq<Rid>>, next: Rid,
      o: Oid, r: Rid, os1: Objects, rs1: Requests)
    requires LogOk(os, rs, created, delivered) && MailOk(os, rs, next) && PendingAt(os, rs, o)
    requires r == os[o].request.value
    requires os1 == os || os1 == os[o := os[o].(locked := false, request := None)]
    requires rs1 == rs[r := rs[r].(status := Processed)] || (rs1 == rs - {r} && os1[o].request.None?)
    ensures o in delivered && LogOk(os1, rs1, created, delivered[o := delivered[o] + [r]])
  {
    forall p | p in os
      ensures PendingAt(os1, rs1, p) <==> p != o && PendingAt(os, rs, p)
    {
      assert SlotOk(os, rs, p) && SlotOk(os, rs, o);
    }
  }

  lemma DeliverInv(k: State, c: Tid, o: Oid, r: Rid)
    requires Inv(k) && c in k.threads && k.threads[c].running && !k.threads[c].cont.Awaiting?
    requires Alone(k.threads, o, c)
    requires PendingAt(k.objects, k.requests, o) && r == k.objects[o].request.value
    ensures Inv(Deliver(k, c, o, r))
  {
    hide SchedInv, SleepOk, IrqOk, ReceiveOk, AwaitOk, MailOk, LogOk, OrderOk, ContOk, ToMap;
    var d := Deliver(k, c, o, r);
    var us := k.threads[c := k.threads[c].(cont := InUser)];
    AloneSleep(k.threads, us, k.sleepers, c);
    AloneIrq(k.threads, us, k.irq, c);
    DeliverMail(k.objects, k.requests, k.nextRq, o, r);
    DeliverLogged(k, o);
    assert k.requests[r := k.requests[r].(status := Processed)] - {r} == k.requests - {r};
    DeliverReceive(k.threads, us, k.objects, k.requests, k.nextRq, o, r, c, d.objects, d.requests);
    DeliverAwait(k.threads, us, k.objects, d.objects, k.requests, r, c, d.requests);
    DeliverLog(k.objects, k.requests, k.created, k.delivered, k.nextRq, o, r, d.objects, d.requests);
    DeliverCont(k.threads, us, k.objects, d.objects, k.idle);
    SameRunning(k, d);
  }

  lemma DeliverLogged(k: State, o: Oid)
    requires Comm(k) && o in k.objects
    ensures o in k.delivered && o in k.created
  {
    hide SleepOk, IrqOk, ReceiveOk, AwaitOk, MailOk, OrderOk, ContOk;
  }

  lemma DeliverCont(ts: Threads, us: Threads, os: Objects, os1: Objects, idle: Tid)
    requires ContOk(ts, os, idle) && os1.Keys >= os.Keys
    requires forall t :: t in us ==>
             (t in ts && us[t].cont == ts[t].cont && (ts[t].running ==> us[t].running)) ||
             (us[t].cont == InUser && us[t].running)
    ensures ContOk(us, os1, idle)
  {
  }

  lemma ReceiveInv(k: State, c: Tid, o: Oid)
    requires Inv(k) && k.current == Some(c) && c in k.threads && c != k.idle && k.threads[c].running
    requires !k.threads[c].cont.Awaiting?
    requires o in k.objects && Alone(k.threads, o, c)
    requires k.threads[c].cont.Receiving? ==> PendingAt(k.objects, k.requests, o)
    requires k.objects[o].request.Some? ==> PendingAt(k.objects, k.requests, o)
    ensures Inv(Receive(k, c, o))
  {
    hide SchedInv, Deliver, GoInactive;
    SlotAt(k, o);
    hide Comm;
    if k.objects[o].locked {
      DeliverInv(k, c, o, k.objects[o].request.value);
    } else {
      AwaitRequestInv(k, c, o);
    }
  }

  lemma SlotAt(k: State, o: Oid)
    requires Comm(k) && o in k.objects
    ensures SlotOk(k.objects, k.requests, o)
  {
    hide SleepOk, IrqOk, ReceiveOk, AwaitOk, LogOk, OrderOk, ContOk;
  }

  lemma GetInv(k: State, c: Tid, o: Oid, wait: bool)
    requires Inv(k) && k.current == Some(c) && c in k.threads && c != k.idle && k.threads[c].running
    requires k.threads[c].cont == InUser
    requires o in k.objects && (Refuses(k, c, o, wait) || Alone(k.threads, o, c))
    ensures Inv(Get(k, c, o, wait))
  {
    hide SchedInv, Comm, Receive;
    SlotAt(k, o);
    if !Refuses(k, c, o, wait) {
      ReceiveInv(k, c, o);
    }
  }

  // ---------------------------------------------------------------- answering and mapping

  lemma AnswerMail(os: Objects, rs: Requests, next: Rid, o: Oid, r: Rid)
    requires MailOk(os, rs, next) && o in os && os[o].request == Some(r) && r in rs && rs[r].requester.Some?
    ensures MailOk(os[o := os[o].(request := None, locked := false)], rs[r := rs[r].(status := Finished)], next)
  {
    var os1, rs1 := os[o := os[o].(request := None, locked := false)], rs[r := rs[r].(status := Finished)];
    assert SlotOk(os, rs, o) && RequestOk(os, rs, r);
    forall p | p in os1 ensures SlotOk(os1, rs1, p) {
      assert SlotOk(os, rs, p);
    }
    forall q | q in rs1 ensures q < next && RequestOk(os1, rs1, q) {
      assert RequestOk(os, rs, q);
    }
  }

  /** Receivers that were woken keep their pending request when a processed one goes away. */
  lemma ProcessedReceive(ts: Threads, us: Threads, os: Objects, rs: Requests, next: Rid,
      o: Oid, r: Rid, os1: Objects, rs1: Requests)
    requires ReceiveOk(ts, os, rs) && MailOk(os, rs, next) && o in os && os[o].request == Some(r) && r in rs
    requires rs[r].status == Processed
    requires us.Keys == ts.Keys && forall t :: t in ts ==>
             us[t].cont == ts[t].cont && (ts[t].cont.Receiving? ==> us[t] == ts[t])
    requires os1 == os || os1 == os[o := os[o].(request := None, locked := false)]
    requires forall q :: q in rs && q != r ==> q in rs1 && rs1[q] == rs[q]
    ensures ReceiveOk(us, os1, rs1)
  {
    forall t | t in us && us[t].cont.Receiving?
      ensures var p := us[t].cont.obj;
              if us[t].running then PendingAt(os1, rs1, p) else p in os1 ==> os1[p].wakeupOnRq == Some(t)
    {
      var p := us[t].cont.obj;
      assert (p in os ==> SlotOk(os, rs, p)) && SlotOk(os, rs, o);
    }
  }

  lemma ProcessedLog(os: Objects, rs: Requests, created: map<Oid, seq<Rid>>, delivered: map<Oid, seq<Rid>>, next: Rid,
      o: Oid, r: Rid, os1: Objects, rs1: Requests)
    requires LogOk(os, rs, created, delivered) && MailOk(os, rs, next) && o in os && os[o].request == Some(r) && r in rs
    requires rs[r].status == Processed
    requires os1 == os || os1 == os[o := os[o].(request := None, locked := false)]
    requires (forall q :: q in rs && q != r ==> q in rs1 && rs1[q] == rs[q]) && (r in rs1 ==> rs1[r].status != Pending)
    ensures LogOk(os1, rs1, created, delivered)
  {
    forall p | p in os
      ensures PendingAt(os1, rs1, p) <==> PendingAt(os, rs, p)
    {
      assert SlotOk(os, rs, p) && SlotOk(os, rs, o);
    }
  }

  lemma AnswerAwait(ts: Threads, os: Objects, os1: Objects, rs: Requests, r: Rid)
    requires AwaitOk(ts, os, rs) && r in rs && rs[r].requester.Some?
    ensures AwaitOk(Woken(ts, {rs[r].requester.value}), os1, rs[r := rs[r].(status := Finished)])
  {
    var w, us, rs1 := rs[r].requester.value, Woken(ts, {rs[r].requester.value}), rs[r := rs[r].(status := Finished)];
    forall q | q in rs1 && rs1[q].requester.Some?
      ensures rs1[q].requester.value in us && us[rs1[q].requester.value].cont == Awaiting(q)
      ensures us[rs1[q].requester.value].running <==> rs1[q].status == Finished
    {
      if q != r {
        assert rs[q].requester.value != w;
      }
    }
  }

  lemma AnswerInv(k: State, c: Tid, o: Oid)
    requires Inv(k) && k.current == Some(c) && c in k.threads && k.threads[c].running && k.threads[c].cont == InUser
    requires o in k.objects
    ensures Inv(Answer(k, c, o))
  {
    SlotAt(k, o);
    var ob := k.objects[o];
    if ob.request.Some? && k.requests[ob.request.value].status != Pending &&
        k.requests[ob.request.value].requester.Some?
       && ob.owner == Some(k.threads[c].process) {
      AnswersInv(k, c, o, ob.request.value);
    }
  }

  lemma AnswersInv(k: State, c: Tid, o: Oid, r: Rid)
    requires Inv(k) && k.current == Some(c) && c in k.threads && k.threads[c].running && k.threads[c].cont == InUser
    requires o in k.objects && k.objects[o].request == Some(r) && r in k.requests
    requires k.objects[o].owner == Some(k.threads[c].process)
    requires k.requests[r].status == Processed && k.requests[r].requester.Some?
    ensures Inv(Answer(k, c, o))
  {
    hide SchedInv, SleepOk, IrqOk, ReceiveOk, MailOk, LogOk, OrderOk, ContOk, WakeUp;
    var w := k.requests[r].requester.value;
    var k0 := k.(requests := k.requests[r := k.requests[r].(status := Finished)]);
    var k1, us := WakeUp(k0, w), Woken(k.threads, {w});
    var os1 := k.objects[o := k.objects[o].(request := None, locked := false)];
    assert w in k.threads && k.threads[w].cont == Awaiting(r) && !k.threads[w].running;
    hide AwaitOk;
    SleepSame(k.threads, us, k.sleepers);
    IrqSame(k.threads, us, k.irq);
    AnswerMail(k.objects, k.requests, k.nextRq, o, r);
    ProcessedReceive(k.threads, us, k.objects, k.requests, k.nextRq, o, r, os1, k0.requests);
    ProcessedLog(k.objects, k.requests, k.created, k.delivered, k.nextRq, o, r, os1, k0.requests);
    AnswerAwait(k.threads, k.objects, os1, k.requests, r);
    DeliverCont(k.threads, us, k.objects, os1, k.idle);
    SameRunning(k, k0);
    WakeSched(k0, w);
    SameRunning(k1, k1.(objects := os1));
    assert Answer(k, c, o) == k1.(objects := os1);
  }

  lemma MapMail(os: Objects, rs: Requests, next: Rid, o: Oid, r: Rid, rq: Request)
    requires MailOk(os, rs, next) && o in os && os[o].request == Some(r) && r in rs && rs[r].status == Processed
    requires rq == rs[r].(mapped := rq.mapped) && |rq.mapped| == PARAMS
    ensures if rq.requester.Some? || ToMap(rq) then MailOk(os, rs[r := rq], next)
            else MailOk(os[o := os[o].(locked := false, request := None)], rs[r := rq] - {r}, next)
  {
    var keep := rq.requester.Some? || ToMap(rq);
    var os1 := if keep then os else os[o := os[o].(locked := false, request := None)];
    var rs1 := if keep then rs[r := rq] else rs[r := rq] - {r};
    assert SlotOk(os, rs, o) && RequestOk(os, rs, r);
    forall p | p in os1 ensures SlotOk(os1, rs1, p) {
      assert SlotOk(os, rs, p);
    }
    forall q | q in rs1 ensures q < next && RequestOk(os1, rs1, q) {
      assert RequestOk(os, rs, q);
    }
  }

  lemma MapAwait(ts: Threads, os: Objects, os1: Objects, rs: Requests, r: Rid, rq: Request, rs1: Requests)
    requires AwaitOk(ts, os, rs) && r in rs && rq == rs[r].(mapped := rq.mapped)
    requires rs1 == rs[r := rq] || (rq.requester.None? && rs1 == rs[r := rq] - {r})
    ensures AwaitOk(ts, os1, rs1)
  {
  }

  lemma MapShmInv(k: State, c: Tid, o: Oid, i: nat)
    requires Inv(k) && c in k.threads && o in k.objects
    ensures Inv(MapShm(k, c, o, i))
  {
    hide SchedInv, SleepOk, IrqOk, ReceiveOk, AwaitOk, MailOk, LogOk, OrderOk, ContOk, ToMap;
    SlotAt(k, o);
    var ob, m := k.objects[o], MapShm(k, c, o, i);
    if m != k {
      var r := ob.request.value;
      RequestAt(k, r);
      var rq := k.requests[r].(mapped := k.requests[r].mapped[i := true]);
      MapMail(k.objects, k.requests, k.nextRq, o, r, rq);
      assert ob.(locked := false, request := None) == ob.(request := None, locked := false);
      ProcessedReceive(k.threads, k.threads, k.objects, k.requests, k.nextRq, o, r, m.objects, m.requests);
      ProcessedLog(k.objects, k.requests, k.created, k.delivered, k.nextRq, o, r, m.objects, m.requests);
      MapAwait(k.threads, k.objects, m.objects, k.requests, r, rq, m.requests);
      DeliverCont(k.threads, k.threads, k.objects, m.objects, k.idle);
      SameRunning(k, m);
    }
  }

  lemma RequestAt(k: State, r: Rid)
    requires Comm(k) && r in k.requests
    ensures RequestOk(k.objects, k.requests, r)
  {
    hide SleepOk, IrqOk, ReceiveOk, AwaitOk, LogOk, OrderOk, ContOk;
  }

  /** The requester takes its answer and frees the request. */
  lemma TakeAnswerInv(k: State, c: Tid, r: Rid)
    requires Inv(k) && c in k.threads && k.threads[c].running && k.threads[c].cont == Awaiting(r)
    ensures Inv(TakeAnswer(k, c, r))
  {
    hide SchedInv, SleepOk, IrqOk, ReceiveOk, MailOk, LogOk, OrderOk, ContOk;
    assert r in k.requests && k.requests[r].status == Finished;
    var us, rs := k.threads[c := k.threads[c].(cont := InUser)], k.requests - {r};
    TakenAwait(k.threads, k.objects, k.requests, r, c);
    hide AwaitOk;
    AloneSleep(k.threads, us, k.sleepers, c);
    AloneIrq(k.threads, us, k.irq, c);
    TakenRest(k, c, r);
    DeliverCont(k.threads, us, k.objects, k.objects, k.idle);
    SameRunning(k, TakeAnswer(k, c, r));
  }

  lemma TakenAwait(ts: Threads, os: Objects, rs: Requests, r: Rid, c: Tid)
    requires AwaitOk(ts, os, rs) && c in ts && ts[c].cont == Awaiting(r)
    ensures AwaitOk(ts[c := ts[c].(cont := InUser)], os, rs - {r})
  {
  }

  lemma TakenRest(k: State, c: Tid, r: Rid)
    requires Comm(k) && c in k.threads && k.threads[c].cont == Awaiting(r) && r in k.requests
    requires k.requests[r].status == Finished
    ensures var us, rs := k.threads[c := k.threads[c].(cont := InUser)], k.requests - {r};
            && MailOk(k.objects, rs, k.nextRq) && LogOk(k.objects, rs, k.created, k.delivered)
            && ReceiveOk(us, k.objects, rs)
  {
    hide SleepOk, IrqOk, AwaitOk, OrderOk, ContOk;
    var us, rs := k.threads[c := k.threads[c].(cont := InUser)], k.requests - {r};
    forall o | o in k.objects
      ensures SlotOk(k.objects, rs, o) && (PendingAt(k.objects, rs, o) <==> PendingAt(k.objects, k.requests, o))
    {
      assert SlotOk(k.objects, k.requests, o);
    }
    forall q | q in rs ensures RequestOk(k.objects, rs, q) {
      assert RequestOk(k.objects, k.requests, q);
    }
  }

  // ---------------------------------------------------------------- objects and threads come and go

  /** Adding an empty mailbox, or changing owner and holders, is all that `os1` does to `os`. */
  ghost predicate SameSlots(os: Objects, os1: Objects)
  {
    && os.Keys <= os1.Keys
    && (forall o :: o in os ==> os1[o] == os[o].(owner := os1[o].owner, holders := os1[o].holders))
    && (forall o :: o in os1 && o !in os ==> os1[o] == Object(os1[o].owner, os1[o].holders, false, None, None))
  }

  lemma SlotsSame(os: Objects, os1: Objects, rs: Requests, next: Rid)
    requires SameSlots(os, os1) && MailOk(os, rs, next)
    ensures MailOk(os1, rs, next)
    ensures forall o :: PendingAt(os1, rs, o) <==> PendingAt(os, rs, o)
  {
    forall p | p in os1 ensures SlotOk(os1, rs, p) {
      assert p in os ==> SlotOk(os, rs, p);
    }
    forall r | r in rs ensures RequestOk(os1, rs, r) {
      assert RequestOk(os, rs, r);
    }
  }

  lemma SlotsTalk(ts: Threads, os: Objects, os1: Objects, rs: Requests, idle: Tid)
    requires SameSlots(os, os1) && ReceiveOk(ts, os, rs) && AwaitOk(ts, os, rs) && ContOk(ts, os, idle)
    requires forall o :: PendingAt(os1, rs, o) <==> PendingAt(os, rs, o)
    requires forall o, t :: o in os1 && o !in os && t in ts ==> !IsReceiving(ts[t].cont, o)
    ensures ReceiveOk(ts, os1, rs) && AwaitOk(ts, os1, rs) && ContOk(ts, os1, idle)
  {
    hide PendingAt;
  }

  lemma NewObjectInv(k: State, c: Tid, o: Oid)
    requires Inv(k) && c in k.threads && o !in k.objects && Unused(k, o)
    ensures Inv(k.(objects := k.objects[o := Object(Some(k.threads[c].process), {k.threads[c].process}, false, None,
            None)],
                   created := k.created[o := []], delivered := k.delivered[o := []]))
  {
    hide SchedInv, SleepOk, IrqOk, ReceiveOk, AwaitOk, MailOk, ContOk, PendingAt;
    var os := k.objects[o := Object(Some(k.threads[c].process), {k.threads[c].process}, false, None, None)];
    SlotsSame(k.objects, os, k.requests, k.nextRq);
    SlotsTalk(k.threads, k.objects, os, k.requests, k.idle);
    NotPending(k.objects, k.requests, o);
    SameRunning(k, k.(objects := os, created := k.created[o := []], delivered := k.delivered[o := []]));
  }

  lemma NotPending(os: Objects, rs: Requests, o: Oid)
    requires o !in os
    ensures !PendingAt(os, rs, o)
  {
  }

  /** Only owner and holders of an object change. */
  lemma HoldersInv(k: State, o: Oid, ob: Object)
    requires Inv(k) && o in k.objects && ob == k.objects[o].(owner := ob.owner, holders := ob.holders)
    ensures Inv(k.(objects := k.objects[o := ob]))
  {
    hide SchedInv, SleepOk, IrqOk, ReceiveOk, AwaitOk, MailOk, ContOk, OrderOk, PendingAt;
    var os := k.objects[o := ob];
    SlotsSame(k.objects, os, k.requests, k.nextRq);
    SlotsTalk(k.threads, k.objects, os, k.requests, k.idle);
    SameRunning(k, k.(objects := os));
  }

  lemma FreedMail(os: Objects, rs: Requests, next: Rid, o: Oid)
    requires MailOk(os, rs, next) && o in os && os[o].request.None?
    ensures MailOk(os - {o}, rs, next)
    ensures forall p :: PendingAt(os - {o}, rs, p) <==> PendingAt(os, rs, p)
  {
    var os1 := os - {o};
    forall p | p in os1
      ensures SlotOk(os1, rs, p)
    {
      assert SlotOk(os, rs, p);
    }
    forall r | r in rs
      ensures RequestOk(os1, rs, r)
    {
      assert RequestOk(os, rs, r);
    }
  }

  lemma FreedTalk(ts: Threads, os: Objects, rs: Requests, idle: Tid, o: Oid)
    requires ReceiveOk(ts, os, rs) && AwaitOk(ts, os, rs) && ContOk(ts, os, idle) && o in os
    requires forall p :: PendingAt(os - {o}, rs, p) <==> PendingAt(os, rs, p)
    requires forall t :: t in ts ==> !IsLocking(ts[t].cont, o)
    ensures ReceiveOk(ts, os - {o}, rs) && AwaitOk(ts, os - {o}, rs) && ContOk(ts, os - {o}, idle)
  {
    hide PendingAt;
  }

  /** An object is freed that no request and no thread waiting for its mutex refers to. */
  lemma FreedInv(k: State, o: Oid)
    requires Inv(k) && o in k.objects && k.objects[o].request.None? && !Wanted(k, o)
    ensures Inv(k.(objects := k.objects - {o}))
  {
    hide SchedInv, SleepOk, IrqOk, ReceiveOk, AwaitOk, MailOk, ContOk, OrderOk, PendingAt;
    FreedMail(k.objects, k.requests, k.nextRq, o);
    FreedTalk(k.threads, k.objects, k.requests, k.idle, o);
    SameRunning(k, k.(objects := k.objects - {o}));
  }

  lemma CloseInv(k: State, p: Pid, o: Oid)
    requires Inv(k) && o in k.objects && (o !in CloseDesc(k, p, o).objects ==> !Wanted(k, o))
    ensures Inv(CloseDesc(k, p, o))
  {
    hide Inv, Wanted;
    var ob := k.objects[o].(holders := k.objects[o].holders - {p});
    HoldersInv(k, o, ob);
    HoldersInv(k, o, ob.(owner := None));
    if o !in CloseDesc(k, p, o).objects {
      FreedInv(k, o);
      assert k.objects[o := ob] - {o} == k.objects - {o};
    }
  }

  lemma NewThreadInv(k: State, t: Tid, process: Pid, priority: nat)
    requires Inv(k) && t !in k.threads && priority < PRIORITIES
    ensures Inv(Enqueue(k.(threads := k.threads[t := Thread(process, priority, true, InUser)]), t))
  {
    hide Enqueue, Comm, SchedInv;
    var us := k.threads[t := Thread(process, priority, true, InUser)];
    var k1 := k.(threads := us);
    NewThreadComm(k, t, us);
    NewThreadSched(k, k1, t);
    CommQueues(k1, Enqueue(k1, t));
  }

  lemma NewThreadComm(k: State, t: Tid, us: Threads)
    requires Comm(k) && t !in k.threads && t in us && us == k.threads[t := us[t]] && us[t].running
    requires us[t].cont == InUser
    ensures Comm(k.(threads := us))
  {
    hide SleepOk, IrqOk, ReceiveOk, AwaitOk, MailOk, LogOk, OrderOk, ContOk;
    SleepSame(k.threads, us, k.sleepers);
    IrqSame(k.threads, us, k.irq);
    TalkSame(k.threads, us, k.objects, k.requests);
    ContSame(k.threads, us, k.objects, k.idle);
  }

  lemma NewThreadSched(k: State, k1: State, t: Tid)
    requires SchedInv(k) && t !in k.threads && t in k1.threads && k1.threads[t].running
    requires k1.threads[t].priority < PRIORITIES
    requires k1 == k.(threads := k.threads[t := k1.threads[t]])
    ensures SchedInv(Enqueue(k1, t))
  {
    hide Enqueue, Once, Waits;
    EnqueueScheduled(k1, t);
  }

  /** The ready queues play no part in communication. */
  lemma CommQueues(k: State, l: State)
    requires Comm(k) && l == k.(queues := l.queues)
    ensures Comm(l)
  {
    hide SleepOk, IrqOk, ReceiveOk, AwaitOk, MailOk, LogOk, OrderOk, ContOk;
  }

  lemma QueuedWaits(qs: seq<seq<Tid>>)
    ensures forall q, t :: 0 <= q < |qs| && t in qs[q] ==> Waits(qs, t)
  {
  }

  /** The current thread exits: nothing names it any more, since it was not blocked. */
  lemma ExitInv(k: State, c: Tid)
    requires Inv(k) && k.current == Some(c) && c != k.idle && c in k.threads && k.threads[c].cont == InUser
    ensures Inv(Switch(k.(threads := k.threads - {c}, current := None)))
  {
    hide Switch, SleepOk, IrqOk, ReceiveOk, AwaitOk, MailOk, LogOk, OrderOk, ContOk, Once, Waits;
    var us := k.threads - {c};
    var k1 := k.(threads := us, current := None);
    SchedCurrent(k);
    QueuedWaits(k.queues);
    SleepSame(k.threads, us, k.sleepers);
    IrqSame(k.threads, us, k.irq);
    TalkSame(k.threads, us, k.objects, k.requests);
    ContSame(k.threads, us, k.objects, k.idle);
    SwitchScheduled(k1);
  }

  // ---------------------------------------------------------------- runs

  lemma ResumeInv(k: State, c: Tid)
    requires Inv(k) && k.current == Some(c) && c in k.threads && k.threads[c].cont != InUser
    ensures Inv(Resumed(k, c))
  {
    hide SchedInv, SleepOk, IrqOk, AwaitOk, MailOk, LogOk, OrderOk, Continue, MakeRequest, Receive, TakeAnswer;
    SchedCurrent(k);
    assert c != k.idle;
    match k.threads[c].cont
    case Sleeping => ReturnInv(k, c);
    case AwaitingIrq(_) => ReturnInv(k, c);
    case Locking(call) => MakeRequestInv(k, c, call);
    case Receiving(o) => ReceiveInv(k, c, o);
    case Awaiting(r) => TakeAnswerInv(k, c, r);
  }

  lemma Ready(k: State)
    requires Inv(k)
    ensures k.frequency > 0 && |k.irq| == IRQS && !k.fault
    ensures k.current.Some? ==> k.current.value in k.threads && k.threads[k.current.value].running
  {
    hide SleepOk, ReceiveOk, AwaitOk, MailOk, LogOk, OrderOk, ContOk, Once, Waits;
  }

  /** Every action keeps the invariant; in particular no null or dangling pointer is followed. */
  lemma StepInv(k: State, a: Action)
    requires Inv(k) && Enabled(k, a)
    ensures k.frequency > 0 && |k.irq| == IRQS
    ensures Inv(Step(k, a))
  {
    hide Inv, Interrupt, Resumed, SleepFor, GoInactive, MakeRequest, Get, Answer, MapShm, Enqueue, Switch;
    Ready(k);
    match a
    case Irq(n) => InterruptInv(k, n);
    case Resume => ResumeInv(k, k.current.value);
    case Sleep(ms) => SleepInv(k, k.current.value, ms, Sleeping);
    case WaitIrq(n) => WaitIrqInv(k, k.current.value, n);
    case NewObject(o) => NewObjectInv(k, k.current.value, o);
    case Grant(o, p) => HoldersInv(k, o, k.objects[o].(holders := k.objects[o].holders + {p}));
    case Close(o) => CloseInv(k, k.threads[k.current.value].process, o);
    case Ask(call) => MakeRequestInv(k, k.current.value, call);
    case Fetch(o, wait) => GetInv(k, k.current.value, o, wait);
    case Reply(o) => AnswerInv(k, k.current.value, o);
    case Map(o, i) => MapShmInv(k, k.current.value, o, i);
    case NewThread(t, process, priority) => NewThreadInv(k, t, process, priority);
    case Exit => ExitInv(k, k.current.value);
  }

  lemma InitialInv(k: State)
    requires Initial(k)
    ensures Inv(k)
  {
    assert Once(k.queues);
    assert k.queues[0] == [k.idle];
    assert forall t :: Waits(k.queues, t) ==> t == k.idle;
    assert k.idle in k.queues[0];
    assert Timer.Threads(k.sleepers) == [];
  }

  /** `l` is reached from `k` by the actions `as`, each enabled when it is taken. */
  ghost predicate Reaches(k: State, actions: seq<Action>, l: State)
    decreases |actions|
  {
    if actions == [] then k == l
    else Enabled(k, actions[0]) && k.frequency > 0 && |k.irq| == IRQS && Reaches(Step(k, actions[0]), actions[1..], l)
  }

  lemma {:induction false} RunInv(k: State, actions: seq<Action>, l: State)
    requires Inv(k) && Reaches(k, actions, l)
    ensures Inv(l)
    decreases |actions|
  {
    hide Inv, Step, Possible;
    if actions != [] {
      StepInv(k, actions[0]);
      RunInv(Step(k, actions[0]), actions[1..], l);
    }
  }
}
