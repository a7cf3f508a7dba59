/** Where the kernel goes wrong when an object is freed under a thread that waits for its mutex. */
module KernelFaults {
  import opened Common
  import opened Timer
  import opened Kernel
  import opened KernelSched
  import opened KernelInv

  // ---------------------------------------------------------------- what a step does to the others

  /** Every thread but `c` is still there and will carry on where it would have. */
  ghost predicate OthersStay(k: State, l: State, c: Option<Tid>)
  {
    forall t :: t in k.threads && c != Some(t) ==> t in l.threads && l.threads[t].cont == k.threads[t].cont
  }

  lemma PostOthers(k: State, c: Tid, call: Call)
    requires c in k.threads && call.obj in k.objects
    ensures OthersStay(k, Post(k, c, call), None) && Post(k, c, call).objects.Keys == k.objects.Keys
  {
    hide WakeUp;
  }

  lemma MakeRequestOthers(k: State, c: Tid, call: Call)
    requires c in k.threads && call.obj in k.objects && k.frequency > 0
    ensures OthersStay(k, MakeRequest(k, c, call), Some(c)) && MakeRequest(k, c, call).objects.Keys == k.objects.Keys
  {
    hide SleepFor, GoInactive, Post;
    PostOthers(k, c, call);
    BlockOthers(Post(k, c, call), c, Awaiting(k.nextRq));
    SleepOthers(k, c, 1, Locking(call));
  }

  lemma BlockOthers(k: State, c: Tid, cont: Cont)
    requires c in k.threads
    ensures OthersStay(k, GoInactive(k, c, cont), Some(c)) && GoInactive(k, c, cont).objects == k.objects
  {
    hide Switch;
  }

  lemma SleepOthers(k: State, c: Tid, msecs: nat, cont: Cont)
    requires c in k.threads && k.frequency > 0
    ensures OthersStay(k, SleepFor(k, c, msecs, cont), Some(c)) && SleepFor(k, c, msecs, cont).objects == k.objects
  {
    hide Switch, TimeAt, Entered;
  }

  lemma ReceiveOthers(k: State, c: Tid, o: Oid)
    requires c in k.threads && o in k.objects
    ensures OthersStay(k, Receive(k, c, o), Some(c)) && Receive(k, c, o).objects.Keys == k.objects.Keys
  {
    hide Switch, Deliver;
    var r := k.objects[o].request;
    if r.Some? && r.value in k.requests {
      DeliverOthers(k, c, o, r.value);
    }
  }

  lemma DeliverOthers(k: State, c: Tid, o: Oid, r: Rid)
    requires c in k.threads && o in k.objects && r in k.requests
    ensures OthersStay(k, Deliver(k, c, o, r), Some(c)) && Deliver(k, c, o, r).objects.Keys == k.objects.Keys
  {
    hide Contains;
  }

  lemma InterruptOthers(k: State, n: nat)
    requires n < |k.irq| && k.frequency > 0
    ensures OthersStay(k, Interrupt(k, n), None) && Interrupt(k, n).objects == k.objects
  {
    hide Switch, WakeAll, TimerCallback;
    var k1 := WakeAll(k.(irq := k.irq[n := []]), k.irq[n]);
    TimerOthers(k1);
  }

  lemma TimerOthers(k: State)
    requires k.frequency > 0
    ensures OthersStay(k, TimerCallback(k), None) && TimerCallback(k).objects == k.objects
  {
    hide WakeAll, TimeAt, Due;
  }

  /** The calls that block or end the current thread, or start another. */
  lemma ThreadOthers(k: State, a: Action)
    requires Possible(k, a) && k.frequency > 0 && |k.irq| == IRQS && (a.Sleep? || a.WaitIrq? || a.NewThread? || a.Exit?)
    ensures OthersStay(k, Step(k, a), k.current) && Step(k, a).objects == k.objects
  {
    hide Switch, TimeAt, Entered, Enqueue;
  }

  lemma ObjectOthers(k: State, a: Action)
    requires Possible(k, a) && k.frequency > 0 && |k.irq| == IRQS && (a.NewObject? || a.Grant? || a.Close?)
    ensures OthersStay(k, Step(k, a), k.current)
    ensures forall o :: o in Step(k, a).objects && o !in k.objects ==> a == NewObject(o)
  {
    hide Unused, CloseDesc;
  }

  lemma AnswerOthers(k: State, c: Tid, o: Oid)
    requires c in k.threads && o in k.objects
    ensures OthersStay(k, Answer(k, c, o), None) && Answer(k, c, o).objects.Keys == k.objects.Keys
  {
    hide WakeUp;
  }

  lemma MapOthers(k: State, c: Tid, o: Oid, i: nat)
    requires c in k.threads && o in k.objects
    ensures OthersStay(k, MapShm(k, c, o, i), None) && MapShm(k, c, o, i).objects.Keys == k.objects.Keys
  {
    hide ToMap;
  }

  lemma ResumeOthers(k: State, c: Tid)
    requires c in k.threads && k.frequency > 0
    ensures OthersStay(k, Resumed(k, c), Some(c)) && Resumed(k, c).objects.Keys == k.objects.Keys
  {
    hide MakeRequest, Receive;
    match k.threads[c].cont
    case Locking(call) => if call.obj in k.objects { MakeRequestOthers(k, c, call); }
    case Receiving(o) => if o in k.objects { ReceiveOthers(k, c, o); }
    case _ =>
  }

  lemma StepOthers(k: State, a: Action)
    requires Possible(k, a) && k.frequency > 0 && |k.irq| == IRQS
    ensures OthersStay(k, Step(k, a), k.current)
    ensures forall o :: o in Step(k, a).objects && o !in k.objects ==> a == NewObject(o)
  {
    hide Interrupt, Resumed, MakeRequest, Get, Receive, Answer, MapShm, GoInactive, SleepFor, Switch, CloseDesc,
        Unused, Enqueue;
    if a.Sleep? || a.WaitIrq? || a.NewThread? || a.Exit? {
      ThreadOthers(k, a);
    } else if a.NewObject? || a.Grant? || a.Close? {
      ObjectOthers(k, a);
    }
    match a
    case Irq(n) => InterruptOthers(k, n);
    case Resume => ResumeOthers(k, k.current.value);
    case Ask(call) => MakeRequestOthers(k, k.current.value, call);
    case Fetch(o, wait) => GetOthers(k, k.current.value, o, wait);
    case Reply(o) => AnswerOthers(k, k.current.value, o);
    case Map(o, i) => MapOthers(k, k.current.value, o, i);
    case _ =>
  }

  lemma GetOthers(k: State, c: Tid, o: Oid, wait: bool)
    requires c in k.threads && o in k.objects
    ensures OthersStay(k, Get(k, c, o, wait), Some(c)) && Get(k, c, o, wait).objects.Keys == k.objects.Keys
  {
    hide Receive;
    ReceiveOthers(k, c, o);
  }

  // ---------------------------------------------------------------- an object freed too early

  /** The thread sleeps in `mutex_lock` on an object that has been freed. */
  predicate Doomed(k: State, t: Tid)
  {
    t in k.threads && k.threads[t].cont.Locking? && k.threads[t].cont.call.obj !in k.objects
  }

  /** A close leaves some thread doomed if and only if it frees an object whose mutex a thread is waiting for. */
  lemma CloseDoomsIff(k: State, o: Oid)
    requires Inv(k) && Possible(k, Close(o)) && k.frequency > 0 && |k.irq| == IRQS
    ensures (exists t :: Doomed(Step(k, Close(o)), t)) <==> Frees(k, o) && Wanted(k, o)
  {
    hide SchedInv, SleepOk, IrqOk, ReceiveOk, AwaitOk, MailOk, LogOk, OrderOk;
    hide CloseDesc;
    var l := Step(k, Close(o));
    if Frees(k, o) && Wanted(k, o) {
      var t :| t in k.threads && IsLocking(k.threads[t].cont, o);
      assert Doomed(l, t);
    }
    if t :| Doomed(l, t) {
      assert k.threads[t].cont.call.obj in k.objects;
      assert IsLocking(k.threads[t].cont, o);
    }
  }

  /** Whatever else happens, a doomed thread stays so until it runs. */
  lemma DoomedStays(k: State, a: Action, t: Tid)
    requires Doomed(k, t) && Possible(k, a) && k.frequency > 0 && |k.irq| == IRQS
    requires !(a.Resume? && k.current == Some(t))
    ensures Doomed(Step(k, a), t)
  {
    StepOthers(k, a);
    assert k.current != Some(t);
    hide Step;
    if a.NewObject? {
      assert !IsLocking(k.threads[t].cont, a.o);
    }
  }

  /** And when it runs it exchanges a word of a freed object. */
  lemma DoomedFaults(k: State, t: Tid)
    requires Doomed(k, t) && k.current == Some(t) && k.frequency > 0 && |k.irq| == IRQS
    ensures Possible(k, Resume) && Step(k, Resume).fault
  {
  }
}
