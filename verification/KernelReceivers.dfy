/**
 Why nobody may enter `request_get` on an object while another thread is in it: the exact condition, and what happens
 then.
 */
module KernelReceivers {
  import opened Common
  import opened Queues
  import opened Timer
  import opened Kernel
  import opened KernelSched
  import opened KernelInv
  import opened KernelSteps
  import opened KernelRuns

  /**
   Entering `request_get` keeps the invariant, and with it all that is proved of every run, if and only if the call is
   refused or no other thread is in `request_get` on the object.
   */
  lemma FetchKeepsIff(k: State, o: Oid, wait: bool)
    requires Inv(k) && Possible(k, Fetch(o, wait))
    ensures k.frequency > 0 && |k.irq| == IRQS
    ensures Inv(Step(k, Fetch(o, wait))) <==>
              Refuses(k, k.current.value, o, wait) || Alone(k.threads, o, k.current.value)
  {
    hide SchedInv, Comm, Receive, Alone;
    Ready(k);
    SlotAt(k, o);
    var c := k.current.value;
    if Refuses(k, c, o, wait) {
      assert Step(k, Fetch(o, wait)) == k;
    } else if Alone(k.threads, o, c) {
      StepInv(k, Fetch(o, wait));
    } else {
      OtherThere(k, o, c);
      var t :| t in k.threads && t != c && k.threads[t].cont == Receiving(o);
      ReceiveBreaks(k, c, o, t);
    }
  }

  lemma OtherThere(k: State, o: Oid, c: Tid)
    requires !Alone(k.threads, o, c)
    ensures exists t :: t in k.threads && t != c && k.threads[t].cont == Receiving(o)
  {
    var t :| t in k.threads && t != c && IsReceiving(k.threads[t].cont, o);
    assert k.threads[t].cont == Receiving(o);
  }

  lemma ReceiveBreaks(k: State, c: Tid, o: Oid, t: Tid)
    requires Inv(k) && c in k.threads && k.threads[c].running && k.threads[c].cont == InUser && o in k.objects
    requires t in k.threads && t != c && k.threads[t].cont == Receiving(o)
    requires k.objects[o].request.Some? ==> PendingAt(k.objects, k.requests, o)
    ensures !Inv(Receive(k, c, o))
  {
    hide SchedInv, SleepOk, IrqOk, AwaitOk, MailOk, LogOk, OrderOk, ContOk, Receive;
    SlotAt(k, o);
    ReceiveThreads(k, c, o);
    var l := Receive(k, c, o);
    if k.objects[o].request.None? {
      assert l.threads[c].cont == l.threads[t].cont;
    } else {
      assert k.threads[t].running;
      TakenNotPending(k, c, o);
    }
  }

  /** Receiving changes no other thread; without a request the caller stops there. */
  lemma ReceiveThreads(k: State, c: Tid, o: Oid)
    requires c in k.threads && o in k.objects
    ensures var l := Receive(k, c, o);
            && c in l.threads && l.threads == k.threads[c := l.threads[c]]
            && (k.objects[o].request.None? && !k.objects[o].locked ==> l.threads[c].cont == Receiving(o))
  {
    hide Switch, Contains;
  }

  lemma TakenNotPending(k: State, c: Tid, o: Oid)
    requires c in k.threads && PendingAt(k.objects, k.requests, o) && k.objects[o].locked
    ensures !PendingAt(Receive(k, c, o).objects, Receive(k, c, o).requests, o)
  {
    hide Contains, Switch;
  }

  // ---------------------------------------------------------------- the thread that waited first

  /** Blocked in `request_get`, and named by nothing that could wake or run it. */
  ghost predicate Lost(k: State, a: Tid)
  {
    && a in k.threads && !k.threads[a].running && k.threads[a].cont.Receiving?
    && a != k.idle && k.current != Some(a) && !Waits(k.queues, a)
    && a !in Timer.Threads(k.sleepers) && (forall n :: 0 <= n < |k.irq| ==> a !in k.irq[n])
    && (forall o :: o in k.objects ==> k.objects[o].wakeupOnRq != Some(a))
    && (forall r :: r in k.requests ==> k.requests[r].requester != Some(a))
  }

  /** A thread that waits in `request_get` is lost as soon as another one starts to wait there. */
  lemma LostWakeUp(k: State, a: Tid, b: Tid, o: Oid)
    requires Inv(k) && Possible(k, Fetch(o, true)) && k.current == Some(b) && |k.irq| == IRQS
    requires k.objects[o].owner == Some(k.threads[b].process) && k.objects[o].request.None?
    requires k.objects[o].wakeupOnRq == Some(a) && a != b
    ensures Lost(Step(k, Fetch(o, true)), a)
  {
    hide SchedInv, Switch;
    SlotAt(k, o);
    BlockedWaitsNot(k, a);
    var k1 := k.(objects := k.objects[o := k.objects[o].(wakeupOnRq := Some(b))],
                 threads := k.threads[b := k.threads[b].(running := false, cont := Receiving(o))]);
    assert Step(k, Fetch(o, true)) == Switch(k1);
    assert Lost(k1, a);
    hide Inv;
    SwitchLost(k1, a);
  }

  lemma BlockedWaitsNot(k: State, a: Tid)
    requires Inv(k) && a in k.threads && !k.threads[a].running
    ensures !Waits(k.queues, a) && k.current != Some(a) && a != k.idle
  {
    hide Comm;
  }

  lemma EnqueueLost(k: State, t: Tid, a: Tid)
    requires t in k.threads && t != a && Lost(k, a)
    ensures Lost(Enqueue(k, t), a)
  {
  }

  lemma NextLost(k: State, a: Tid)
    requires Lost(k, a)
    ensures var l := Level(k.queues);
            Lost(k.(queues := Popped(k.queues), current := Some(if l < |k.queues| then k.queues[l][0] else k.idle)), a)
  {
    var l := Level(k.queues);
    if l < |k.queues| {
      assert k.queues[l][0] in k.queues[l];
      PoppedOthers(k.queues, l, a);
    }
  }

  lemma SwitchLost(k: State, a: Tid)
    requires Lost(k, a)
    ensures Lost(Switch(k), a)
  {
    var c := k.current;
    var k1 := if c.Some? && c.value in k.threads && k.threads[c.value].running then Enqueue(k, c.value) else k;
    if c.Some? && c.value in k.threads && k.threads[c.value].running {
      EnqueueLost(k, c.value, a);
    }
    hide Lost, Enqueue;
    NextLost(k1, a);
  }

  lemma WakeLost(k: State, t: Tid, a: Tid)
    requires Lost(k, a) && t != a
    ensures Lost(WakeUp(k, t), a)
  {
    if t in k.threads && !k.threads[t].running {
      EnqueueLost(k.(threads := k.threads[t := k.threads[t].(running := true)]), t, a);
    }
  }

  lemma {:induction false} WakeAllLost(k: State, ts: seq<Tid>, a: Tid)
    requires Lost(k, a) && a !in ts
    ensures Lost(WakeAll(k, ts), a)
    decreases |ts|
  {
    if ts != [] {
      WakeLost(k, ts[0], a);
      hide Lost, WakeUp;
      WakeAllLost(WakeUp(k, ts[0]), ts[1..], a);
    }
  }

  /** Threads other than `a` may stop anywhere and run or not. */
  lemma OtherLost(k: State, c: Tid, th: Thread, a: Tid)
    requires Lost(k, a) && c != a
    ensures Lost(k.(threads := k.threads[c := th]), a)
  {
  }

  lemma BlockLost(k: State, c: Tid, cont: Cont, a: Tid)
    requires Lost(k, a) && c in k.threads && c != a
    ensures Lost(GoInactive(k, c, cont), a)
  {
    hide Switch, Lost;
    var th := k.threads[c].(running := false, cont := cont);
    OtherLost(k, c, th, a);
    SwitchLost(k.(threads := k.threads[c := th]), a);
  }

  lemma SleepLost(k: State, c: Tid, msecs: nat, cont: Cont, a: Tid)
    requires Lost(k, a) && c in k.threads && c != a && k.frequency > 0
    ensures Lost(SleepFor(k, c, msecs, cont), a)
  {
    hide GoInactive, TimeAt, Entered;
    var x := Sleeper(Now(k) + msecs, c);
    EnteredThreads(k.sleepers, x);
    BlockLost(k.(sleepers := Entered(k.sleepers, x)), c, cont, a);
  }

  lemma PostLost(k: State, c: Tid, call: Call, a: Tid)
    requires Lost(k, a) && c in k.threads && call.obj in k.objects && c != a
    ensures Lost(Post(k, c, call), a) && c in Post(k, c, call).threads
  {
    hide WakeUp;
    var o, r := call.obj, k.nextRq;
    var k1 := k.(requests := k.requests[r := NewRequest(k, c, call)],
                 objects := k.objects[o := k.objects[o].(locked := true, request := Some(r), wakeupOnRq := None)],
                 created := k.created[o := (if o in k.created then k.created[o] else []) + [r]],
                 nextRq := r + 1);
    assert Lost(k1, a);
    if k.objects[o].wakeupOnRq.Some? {
      WakeLost(k1, k.objects[o].wakeupOnRq.value, a);
    }
  }

  lemma MakeRequestLost(k: State, c: Tid, call: Call, a: Tid)
    requires Lost(k, a) && c in k.threads && call.obj in k.objects && k.frequency > 0 && c != a
    ensures Lost(MakeRequest(k, c, call), a)
  {
    hide Lost, SleepFor, GoInactive, Post;
    SleepLost(k, c, 1, Locking(call), a);
    OtherLost(k, c, k.threads[c].(cont := InUser), a);
    PostLost(k, c, call, a);
    var k1 := Post(k, c, call);
    BlockLost(k1, c, Awaiting(k.nextRq), a);
    OtherLost(k1, c, k1.threads[c].(cont := InUser), a);
  }

  lemma ReceiveLost(k: State, c: Tid, o: Oid, a: Tid)
    requires Lost(k, a) && c in k.threads && o in k.objects && c != a
    ensures Lost(Receive(k, c, o), a)
  {
    hide GoInactive, Contains, Deliver;
    var ob := k.objects[o];
    BlockLost(k.(objects := k.objects[o := ob.(wakeupOnRq := Some(c))]), c, Receiving(o), a);
    if ob.request.Some? && ob.request.value in k.requests {
      DeliverLost(k, c, o, ob.request.value, a);
    }
  }

  lemma DeliverLost(k: State, c: Tid, o: Oid, r: Rid, a: Tid)
    requires Lost(k, a) && c in k.threads && o in k.objects && r in k.requests && c != a
    ensures Lost(Deliver(k, c, o, r), a)
  {
    hide Contains;
  }

  lemma AnswerLost(k: State, c: Tid, o: Oid, a: Tid)
    requires Lost(k, a) && c in k.threads && o in k.objects
    ensures Lost(Answer(k, c, o), a)
  {
    hide WakeUp;
    var ob := k.objects[o];
    if ob.request.Some? && ob.request.value in k.requests && k.requests[ob.request.value].requester.Some? {
      var r := ob.request.value;
      var k0 := k.(requests := k.requests[r := k.requests[r].(status := Finished)]);
      WakeLost(k0, k.requests[r].requester.value, a);
    }
  }

  lemma MapLost(k: State, c: Tid, o: Oid, i: nat, a: Tid)
    requires Lost(k, a) && c in k.threads && o in k.objects
    ensures Lost(MapShm(k, c, o, i), a)
  {
    hide ToMap, Lost, Drop;
    FaultLost(k, a);
    var ob := k.objects[o];
    if ob.request.Some? && ob.request.value in k.requests {
      var r := ob.request.value;
      var rq := k.requests[r];
      if i < |rq.mapped| {
        var k1 := k.(requests := k.requests[r := rq.(mapped := rq.mapped[i := true])]);
        MarkLost(k, r, k1, a);
        DropLost(k1, o, r, a);
      }
    }
  }

  lemma MarkLost(k: State, r: Rid, l: State, a: Tid)
    requires Lost(k, a) && r in k.requests && r in l.requests && l == k.(requests := k.requests[r := l.requests[r]])
    requires l.requests[r].requester == k.requests[r].requester
    ensures Lost(l, a)
  {
  }

  lemma DropLost(k: State, o: Oid, r: Rid, a: Tid)
    requires Lost(k, a) && o in k.objects
    ensures Lost(Drop(k, o, r), a)
  {
  }

  lemma TimerLost(k: State, a: Tid)
    requires Lost(k, a) && k.frequency > 0
    ensures Lost(TimerCallback(k), a)
  {
    hide WakeAll, TimeAt, Due;
    var d := Due(k.sleepers, TimeAt(k.ticks + 1, k.frequency));
    NotDue(k.sleepers, d, a);
    WakeAllLost(k.(ticks := k.ticks + 1, sleepers := k.sleepers[d..]), Timer.Threads(k.sleepers[..d]), a);
  }

  lemma NotDue(l: seq<Sleeper>, d: nat, a: Tid)
    requires d <= |l| && a !in Timer.Threads(l)
    ensures a !in Timer.Threads(l[..d]) && a !in Timer.Threads(l[d..])
  {
    var all := Timer.Threads(l);
    forall i | 0 <= i < d
      ensures Timer.Threads(l[..d])[i] != a
    {
      assert all[i] in all;
    }
    forall i | 0 <= i < |l| - d
      ensures Timer.Threads(l[d..])[i] != a
    {
      assert all[d + i] in all;
    }
  }

  lemma InterruptLost(k: State, n: nat, a: Tid)
    requires Lost(k, a) && n < |k.irq| && k.frequency > 0
    ensures Lost(Interrupt(k, n), a)
  {
    var k0 := k.(irq := k.irq[n := []]);
    assert Lost(k0, a);
    WakeAllLost(k0, k.irq[n], a);
    hide Lost, WakeAll, TimerCallback, Switch;
    var k1 := WakeAll(k0, k.irq[n]);
    TimerLost(k1, a);
    var k2 := if n == 0 then TimerCallback(k1) else k1;
    SwitchLost(k2, a);
  }

  lemma ResumeLost(k: State, c: Tid, a: Tid)
    requires Lost(k, a) && c in k.threads && k.frequency > 0 && c != a
    ensures Lost(Resumed(k, c), a)
  {
    hide Lost, MakeRequest, Receive, TakeAnswer;
    OtherLost(k, c, k.threads[c].(cont := InUser), a);
    FaultLost(k, a);
    match k.threads[c].cont
    case Locking(call) => if call.obj in k.objects { MakeRequestLost(k, c, call, a); }
    case Receiving(o) => if o in k.objects { ReceiveLost(k, c, o, a); }
    case Awaiting(r) => TakeAnswerLost(k, c, r, a);
    case _ =>
  }

  lemma FaultLost(k: State, a: Tid)
    requires Lost(k, a)
    ensures Lost(k.(fault := true), a)
  {
  }

  lemma TakeAnswerLost(k: State, c: Tid, r: Rid, a: Tid)
    requires Lost(k, a) && c in k.threads && c != a
    ensures Lost(TakeAnswer(k, c, r), a)
  {
  }

  /** The calls that block or end the current thread, or start another. */
  lemma ThreadLost(k: State, act: Action, a: Tid)
    requires Lost(k, a) && Possible(k, act) && k.frequency > 0 && |k.irq| == IRQS
    requires act.Sleep? || act.WaitIrq? || act.NewThread? || act.Exit?
    ensures Lost(Step(k, act), a)
  {
    hide Switch, SleepFor, GoInactive, Enqueue;
    match act
    case Sleep(ms) => SleepLost(k, k.current.value, ms, Sleeping, a);
    case WaitIrq(n) =>
      var c := k.current.value;
      BlockLost(k.(irq := k.irq[n := [c] + k.irq[n]]), c, AwaitingIrq(n), a);
    case NewThread(t, process, priority) =>
      var th := Thread(process, priority, true, InUser);
      OtherLost(k, t, th, a);
      EnqueueLost(k.(threads := k.threads[t := th]), t, a);
    case Exit => SwitchLost(k.(threads := k.threads - {k.current.value}, current := None), a);
    case _ =>
  }

  lemma ObjectLost(k: State, act: Action, a: Tid)
    requires Lost(k, a) && Possible(k, act) && k.frequency > 0 && |k.irq| == IRQS
    requires act.NewObject? || act.Grant? || act.Close?
    ensures Lost(Step(k, act), a)
  {
    hide Unused, CloseDesc;
    if act.Close? {
      CloseLost(k, k.threads[k.current.value].process, act.o, a);
    }
  }

  lemma CloseLost(k: State, p: Pid, o: Oid, a: Tid)
    requires Lost(k, a) && o in k.objects
    ensures Lost(CloseDesc(k, p, o), a)
  {
    var l := CloseDesc(k, p, o);
    assert forall q :: q in l.objects ==> q in k.objects && l.objects[q].wakeupOnRq == k.objects[q].wakeupOnRq;
  }

  /** And it stays so whatever happens: it never runs again. */
  lemma LostStays(k: State, act: Action, a: Tid)
    requires Lost(k, a) && Possible(k, act) && k.frequency > 0 && |k.irq| == IRQS
    ensures Lost(Step(k, act), a)
  {
    hide Interrupt, Resumed, MakeRequest, Get, Receive, Answer, MapShm, GoInactive, SleepFor, Switch, CloseDesc, Unused;
    if act.Sleep? || act.WaitIrq? || act.NewThread? || act.Exit? {
      ThreadLost(k, act, a);
    } else if act.NewObject? || act.Grant? || act.Close? {
      ObjectLost(k, act, a);
    }
    match act
    case Irq(n) => InterruptLost(k, n, a);
    case Resume => ResumeLost(k, k.current.value, a);
    case Ask(call) => MakeRequestLost(k, k.current.value, call, a);
    case Fetch(o, wait) => GetLost(k, k.current.value, o, wait, a);
    case Reply(o) => AnswerLost(k, k.current.value, o, a);
    case Map(o, i) => MapLost(k, k.current.value, o, i, a);
    case _ =>
  }

  /** Over any further run it stays so. */
  lemma {:induction false} LostForever(k: State, actions: seq<Action>, l: State, a: Tid)
    requires Lost(k, a) && Happens(k, actions, l)
    ensures Lost(l, a)
    decreases |actions|
  {
    hide Lost, Possible, Step;
    if actions != [] {
      LostStays(k, actions[0], a);
      LostForever(Step(k, actions[0]), actions[1..], l, a);
    }
  }

  lemma GetLost(k: State, c: Tid, o: Oid, wait: bool, a: Tid)
    requires Lost(k, a) && c in k.threads && o in k.objects && c != a
    ensures Lost(Get(k, c, o, wait), a)
  {
    hide Receive, Lost;
    ReceiveLost(k, c, o, a);
  }

  /** The thread that was woken is handed once more what another has taken meanwhile and not finished with. */
  lemma TakenAgain(k: State, t: Tid, o: Oid, r: Rid)
    requires k.current == Some(t) && t in k.threads && k.threads[t].cont == Receiving(o)
    requires o in k.objects && o in k.delivered && k.objects[o].locked && k.objects[o].request == Some(r)
    requires r in k.requests && k.requests[r].status == Processed
    requires k.frequency > 0 && |k.irq| == IRQS
    ensures Possible(k, Resume) && o in Step(k, Resume).delivered
    ensures Step(k, Resume).delivered[o] == k.delivered[o] + [r]
  {
    hide Contains;
  }
}
