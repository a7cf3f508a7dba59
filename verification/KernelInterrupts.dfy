/**
 What an interrupt, going to sleep and waiting for an interrupt do: exactly who can run afterwards, who runs next, and
 that the sleep list is that of `Timer` over every run.
 */
module KernelInterrupts {
  import opened Common
  import opened Queues
  import opened Timer
  import opened Kernel
  import opened KernelSched
  import opened KernelInv
  import opened KernelSteps
  import opened KernelTheorems
  import opened KernelDispatch

  /** The first `d` sleepers are those whose deadline is not after `now`. */
  ghost predicate DueUpTo(l: seq<Sleeper>, now: int, d: int)
  {
    && 0 <= d <= |l|
    && (forall i :: 0 <= i < d ==> l[i].deadline <= now) && (forall i :: d <= i < |l| ==> l[i].deadline > now)
  }

  /** The threads of `ws` can run now, and no other thread has changed. */
  ghost predicate Awakened(k: State, l: State, ws: seq<Tid>)
  {
    l.threads.Keys == k.threads.Keys &&
    forall t :: t in k.threads ==> l.threads[t] == k.threads[t].(running := k.threads[t].running || t in ws)
  }

  /**
   Interrupt `n`, with the first `d` sleepers due: these and all that waited for it are woken and off their lists; the
   processor changes hands on a timer interrupt and when somebody waited.
   */
  ghost predicate Fired(k: State, l: State, n: nat, d: nat)
    requires n < |k.irq| && d <= |k.sleepers|
  {
    var ws := k.irq[n] + Timer.Threads(k.sleepers[..d]);
    && l == k.(threads := l.threads, queues := l.queues, current := l.current, irq := k.irq[n := []],
               sleepers := k.sleepers[d..], ticks := if n == 0 then k.ticks + 1 else k.ticks)
    && Awakened(k, l, ws)
    && if n == 0 || k.irq[n] != [] then Dispatched(Lined(k, ws + Yields(k)), k.idle, l)
       else l.queues == k.queues && l.current == k.current
  }

  /** `idt_irqHandler` and `timer_callback`. */
  lemma InterruptExactly(k: State, n: nat)
    requires Inv(k) && Possible(k, Irq(n))
    ensures k.frequency > 0 && |k.irq| == IRQS
    ensures n != 0 ==> Fired(k, Step(k, Irq(n)), n, 0)
    ensures n == 0 ==>
              exists d: nat :: DueUpTo(k.sleepers, 1000 * (k.ticks + 1) / k.frequency, d) &&
                  Fired(k, Step(k, Irq(0)), 0, d)
  {
    hide Inv, Interrupt, Fired;
    Ready(k);
    if n == 0 {
      var now := 1000 * (k.ticks + 1) / k.frequency;
      var d := Due(k.sleepers, now);
      DueIsPrefix(k, now);
      TimerFires(k, d);
      assert Step(k, Irq(n)) == Interrupt(k, 0);
    } else {
      IrqFires(k, n);
    }
  }

  lemma DueIsPrefix(k: State, now: int)
    requires Inv(k) && now >= 0
    ensures DueUpTo(k.sleepers, now, Due(k.sleepers, now))
  {
    hide SchedInv, IrqOk, ReceiveOk, AwaitOk, MailOk, LogOk, OrderOk, ContOk;
  }

  /** What waits for an interrupt, and who sleeps, can be woken. */
  lemma WaitersWakeable(k: State, n: nat)
    requires Inv(k) && n < IRQS && |k.irq| == IRQS
    ensures Wakeable(k, k.irq[n])
  {
    hide SleepOk, ReceiveOk, AwaitOk, MailOk, LogOk, OrderOk, Once, Waits;
  }

  lemma SleepersWakeable(k: State, d: nat)
    requires Inv(k) && d <= |k.sleepers|
    ensures Wakeable(k, Timer.Threads(k.sleepers[..d]))
    ensures forall t, n :: t in Timer.Threads(k.sleepers[..d]) && 0 <= n < |k.irq| ==> t !in k.irq[n]
  {
    hide ReceiveOk, AwaitOk, MailOk, LogOk, OrderOk, Once, Waits;
    var ts := Timer.Threads(k.sleepers[..d]);
    forall i | 0 <= i < |ts|
      ensures ts[i] == Timer.Threads(k.sleepers)[i] && ts[i] in Timer.Threads(k.sleepers)
    {
    }
  }

  lemma Priorities(k: State)
    requires Inv(k)
    ensures forall t :: t in k.threads ==> k.threads[t].priority < |k.queues|
  {
    hide Comm, Once, Waits;
  }

  lemma IrqFires(k: State, n: nat)
    requires Inv(k) && 0 < n < IRQS && |k.irq| == IRQS && k.frequency > 0
    ensures Fired(k, Interrupt(k, n), n, 0)
  {
    hide Inv, Lined, Dispatched, Switch, WakeAll, Wakeable;
    var k0 := k.(irq := k.irq[n := []]);
    var k1 := WakeAll(k0, k.irq[n]);
    WaitersWakeable(k, n);
    Priorities(k);
    WakesNoFault(k, k0, k.irq[n]);
    assert k.irq[n] + Timer.Threads(k.sleepers[..0]) == k.irq[n];
    LinedSame(k, k0, k.irq[n]);
    if k.irq[n] != [] {
      SwitchAfter(k, k1, k.irq[n]);
    } else {
      LinedNone(k);
    }
  }

  lemma LinedSame(k: State, l: State, ts: seq<Tid>)
    requires l.queues == k.queues && l.threads == k.threads
    ensures Lined(l, ts) == Lined(k, ts)
  {
  }

  /** Waking them one after the other, on lists that no longer name them. */
  lemma WakesNoFault(k: State, k0: State, ts: seq<Tid>)
    requires Wakeable(k, ts) && k0.threads == k.threads && k0.queues == k.queues && k0.idle == k.idle
    ensures var k1 := WakeAll(k0, ts);
            k1 == k0.(threads := k1.threads, queues := Lined(k0, ts)) && Awakened(k, k1, ts)
  {
    hide WakeAll, Lined;
    assert Wakeable(k0, ts);
    WakeAllLines(k0, ts);
  }

  /** A switch after the threads `ts` were woken: whoever yields stands behind them. */
  lemma SwitchAfter(k: State, k1: State, ts: seq<Tid>)
    requires Inv(k) && k1.queues == Lined(k, ts) && k1.idle == k.idle && k1.current == k.current && Awakened(k, k1, ts)
    ensures Dispatched(Lined(k, ts + Yields(k)), k.idle, Switch(k1))
  {
    hide Inv, Switch, Dispatched, Lined;
    Ready(k);
    Priorities(k);
    assert Yields(k1) == Yields(k);
    SwitchDispatches(k1);
    LinedTwice(k, k1, ts, Yields(k));
  }

  lemma TimerFires(k: State, d: nat)
    requires Inv(k) && |k.irq| == IRQS && k.frequency > 0 && d == Due(k.sleepers, 1000 * (k.ticks + 1) / k.frequency)
    ensures Fired(k, Interrupt(k, 0), 0, d)
  {
    hide Inv, Lined, Dispatched, Switch, WakeAll, Wakeable, Due;
    var ts, us := k.irq[0], Timer.Threads(k.sleepers[..d]);
    var k0 := k.(irq := k.irq[0 := []]);
    var k1 := WakeAll(k0, ts);
    WaitersWakeable(k, 0);
    SleepersWakeable(k, d);
    Priorities(k);
    WakesNoFault(k, k0, ts);
    var k2 := k1.(ticks := k.ticks + 1, sleepers := k.sleepers[d..]);
    var k3 := WakeAll(k2, us);
    StillWakeable(k, k2, ts, us);
    WakesNoFault(k2, k2, us);
    LinedSame(k, k0, ts);
    assert forall t :: t in us ==> t in k.threads && t in k2.threads by { WakeableThere(k, us); }
    LinedTwice(k, k2, ts, us);
    BothAwakened(k, k1, k3, ts, us);
    SwitchAfter(k, k3, ts + us);
  }

  lemma WakeableThere(k: State, us: seq<Tid>)
    requires Wakeable(k, us)
    ensures forall t :: t in us ==> t in k.threads
  {
  }

  lemma StillWakeable(k: State, k2: State, ts: seq<Tid>, us: seq<Tid>)
    requires Wakeable(k, us) && Awakened(k, k2, ts) && (forall t :: t in us ==> t !in ts)
    requires k2.idle == k.idle && |k2.queues| == |k.queues|
    ensures Wakeable(k2, us)
  {
  }

  lemma BothAwakened(k: State, k1: State, k3: State, ts: seq<Tid>, us: seq<Tid>)
    requires Awakened(k, k1, ts) && Awakened(k1, k3, us)
    ensures Awakened(k, k3, ts + us)
  {
  }

  /**
   In every reachable state: a blocked thread can run after an interrupt if and only if it waited for that interrupt, or
   this is the timer and the thread sleeps until a time that has come.
   */
  lemma InterruptWakesIff(k: State, n: nat, t: Tid)
    requires Reachable(k) && Enabled(k, Irq(n)) && t in k.threads && !k.threads[t].running
    ensures k.frequency > 0 && |k.irq| == IRQS && t in Step(k, Irq(n)).threads
    ensures Step(k, Irq(n)).threads[t].running <==>
              || Reason(k.threads[t].cont) == Some(OnIrq(n))
              || (n == 0 && Reason(k.threads[t].cont) == Some(OnSleepList) &&
                  exists x :: x in k.sleepers && x.thread == t && x.deadline <= 1000 * (k.ticks + 1) / k.frequency)
    ensures Step(k, Irq(n)).irq == k.irq[n := []]
  {
    hide Inv, Step, Reachable, Enabled, Dispatched, Lined;
    ReachableInv(k);
    EnabledPossible(k, Irq(n));
    InterruptExactly(k, n);
    RegistrationsExact(k, OnIrq(n), t);
    if n == 0 {
      RegistrationsExact(k, OnSleepList, t);
      var now := 1000 * (k.ticks + 1) / k.frequency;
      var d: nat :| DueUpTo(k.sleepers, now, d) && Fired(k, Step(k, Irq(0)), 0, d);
      DueMembers(k.sleepers, now, d, t);
    } else {
      assert Timer.Threads(k.sleepers[..0]) == [];
    }
  }

  lemma EnabledPossible(k: State, a: Action)
    requires Enabled(k, a)
    ensures Possible(k, a) && (a.Irq? ==> a.n < IRQS)
  {
    hide CloseDesc;
  }

  lemma DueMembers(l: seq<Sleeper>, now: int, d: nat, t: Tid)
    requires DueUpTo(l, now, d)
    ensures t in Timer.Threads(l[..d]) <==> exists x :: x in l && x.thread == t && x.deadline <= now
    ensures t in Timer.Threads(l[..d]) ==> t in Timer.Threads(l)
  {
    if t in Timer.Threads(l[..d]) {
      var i :| 0 <= i < d && Timer.Threads(l[..d])[i] == t;
      assert l[i] in l && l[i].thread == t && Timer.Threads(l)[i] == t;
    }
    if x :| x in l && x.thread == t && x.deadline <= now {
      var i :| 0 <= i < |l| && l[i] == x;
      assert Timer.Threads(l[..d])[i] == t;
    }
  }

  // ---------------------------------------------------------------- going to sleep

  /** The sleep list with `c` in it until `deadline`, behind all that are due earlier and before all others. */
  ghost predicate SleepsTill(l: seq<Sleeper>, m: seq<Sleeper>, deadline: nat, c: Tid)
  {
    exists i :: 0 <= i <= |l| && m == l[..i] + [Sleeper(deadline, c)] + l[i..] &&
      (forall j :: 0 <= j < i ==> l[j].deadline < deadline) && (forall j :: i <= j < |l| ==> l[j].deadline >= deadline)
  }

  /** Thread `c` has gone to sleep for `ms` milliseconds, to carry on with `cont`, and the next one runs. */
  ghost predicate Asleep(k: State, l: State, c: Tid, ms: nat, cont: Cont)
    requires k.frequency > 0 && c in k.threads
  {
    && l == k.(threads := l.threads, queues := l.queues, current := l.current, sleepers := l.sleepers)
    && l.threads == k.threads[c := k.threads[c].(running := false, cont := cont)]
    && SleepsTill(k.sleepers, l.sleepers, 1000 * k.ticks / k.frequency + ms, c)
    && Dispatched(k.queues, k.idle, l)
  }

  /** `thread_sleep`. */
  lemma SleepForExactly(k: State, c: Tid, ms: nat, cont: Cont)
    requires Inv(k) && k.current == Some(c) && c in k.threads && k.frequency > 0
    ensures Asleep(k, SleepFor(k, c, ms, cont), c, ms, cont)
  {
    hide Inv, Dispatched, Switch, SleepsTill;
    Priorities(k);
    EnteredTill(k, Sleeper(Now(k) + ms, c));
    BlockedSwitch(k.(sleepers := Entered(k.sleepers, Sleeper(Now(k) + ms, c)),
                     threads := k.threads[c := k.threads[c].(running := false, cont := cont)]));
  }

  lemma EnteredTill(k: State, x: Sleeper)
    requires Inv(k)
    ensures SleepsTill(k.sleepers, Entered(k.sleepers, x), x.deadline, x.thread)
  {
    hide SchedInv, IrqOk, ReceiveOk, AwaitOk, MailOk, LogOk, OrderOk, ContOk;
    EnteredWhere(k.sleepers, x);
  }

  lemma EnteredWhere(l: seq<Sleeper>, x: Sleeper)
    requires Timer.Sorted(l)
    ensures SleepsTill(l, Entered(l, x), x.deadline, x.thread)
  {
    hide Entered;
    var i := if x.deadline == 0 then 0 else Due(l, x.deadline - 1);
    EnteredAt(l, x, i);
    assert forall j :: i <= j < |l| ==> l[j].deadline >= x.deadline;
  }

  lemma SleepExactly(k: State, ms: nat)
    requires Inv(k) && Possible(k, Sleep(ms))
    ensures k.frequency > 0 && |k.irq| == IRQS && Asleep(k, Step(k, Sleep(ms)), k.current.value, ms, Sleeping)
  {
    hide Inv, Asleep, SleepFor;
    Ready(k);
    SleepForExactly(k, k.current.value, ms, Sleeping);
  }

  /** `idt_waitIrq`: a thread below driver priority is sent back; any other waits in front of the list. */
  lemma WaitIrqExactly(k: State, n: nat)
    requires Inv(k) && Possible(k, WaitIrq(n))
    ensures k.frequency > 0 && |k.irq| == IRQS
    ensures var l, c := Step(k, WaitIrq(n)), k.current.value;
            if k.threads[c].priority > 1 then l == k
            else
              && l == k.(threads := l.threads, queues := l.queues, current := l.current, irq := l.irq)
              && l.threads == k.threads[c := k.threads[c].(running := false, cont := AwaitingIrq(n))]
              && l.irq == k.irq[n := [c] + k.irq[n]] && Dispatched(k.queues, k.idle, l)
  {
    hide Inv, Dispatched, Switch;
    Ready(k);
    Priorities(k);
    var c := k.current.value;
    BlockedSwitch(k.(irq := k.irq[n := [c] + k.irq[n]],
                     threads := k.threads[c := k.threads[c].(running := false, cont := AwaitingIrq(n))]));
  }
}
