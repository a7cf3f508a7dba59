/**
 Threads, waiting and request/answer communication as a step system. A system call runs without
 interruption from its entry to the point where the thread blocks or returns, because interrupts are
 off inside the kernel; each action below is one such piece. A thread that blocked carries on from
 where it stopped, which its `cont` says.
 */
module Kernel {
  import opened Common
  import opened Queues
  import opened Timer

  type Tid = nat
  type Pid = nat
  type Oid = nat
  type Rid = nat

  const IRQS: nat := 16
  const PARAMS: nat := 3

  /** A request to `obj` that is still to be made: blocking or a message, and which shared memory it carries. */
  datatype Call = Call(obj: Oid, blocking: bool, shm: seq<bool>)

  /** Where a thread carries on when it next runs. */
  datatype Cont =
    | InUser
    | Sleeping                     // in thread_sleep, called from user mode
    | Locking(call: Call)          // in mutex_lock, called from mkrequest
    | AwaitingIrq(irq: nat)        // in idt_waitIrq
    | Receiving(obj: Oid)          // in the loop of request_get
    | Awaiting(rq: Rid)            // in request, until its answer

  datatype Thread = Thread(process: Pid, priority: nat, running: bool, cont: Cont)

  datatype Status = Pending | Processed | Finished

  /** `sent` says which parameters carry shared memory, `mapped` which of these the receiver has mapped. */
  datatype Request = Request(obj: Oid, requester: Option<Tid>, status: Status, sent: seq<bool>, mapped: seq<bool>)

  /** `holders` are the processes with a descriptor for the object. */
  datatype Object = Object(owner: Option<Pid>, holders: set<Pid>, locked: bool, request: Option<Rid>,
      wakeupOnRq: Option<Tid>)

  datatype State = State(
    threads: map<Tid, Thread>,
    current: Option<Tid>,
    idle: Tid,
    queues: seq<seq<Tid>>,
    sleepers: seq<Sleeper>,
    irq: seq<seq<Tid>>,
    objects: map<Oid, Object>,
    requests: map<Rid, Request>,
    nextRq: Rid,
    ticks: nat,
    frequency: nat,
    created: map<Oid, seq<Rid>>,   // per object, the requests made so far, oldest first
    delivered: map<Oid, seq<Rid>>, // per object, those handed out by request_get
    fault: bool)                   // a null pointer, or one to a freed thread, object or request, was followed

  // ---------------------------------------------------------------- scheduling

  /** `sched_enqueue`. */
  function Enqueue(k: State, t: Tid): (r: State)
    requires t in k.threads
    ensures r == k.(queues := r.queues)
  {
    if t == k.idle || k.threads[t].priority >= |k.queues| then k
    else k.(queues := Append(k.queues, k.threads[t].priority, t))
  }

  /** The threads of `ts` made able to run. */
  function Woken(threads: map<Tid, Thread>, ts: set<Tid>): map<Tid, Thread>
  {
    map t | t in threads :: if t in ts then threads[t].(running := true) else threads[t]
  }

  /** `thread_wakeUp`. */
  function WakeUp(k: State, t: Tid): (r: State)
    ensures r == k.(threads := Woken(k.threads, {t}), queues := r.queues, fault := k.fault || t !in k.threads)
  {
    assert Woken(k.threads, {t}) == if t in k.threads then k.threads[t := k.threads[t].(running := true)]
           else k.threads;
    if t !in k.threads then k.(fault := true)
    else if k.threads[t].running then k
    else Enqueue(k.(threads := k.threads[t := k.threads[t].(running := true)]), t)
  }

  function WakeAll(k: State, ts: seq<Tid>): (r: State)
    ensures r == k.(threads := Woken(k.threads, set t | t in ts), queues := r.queues, fault := r.fault)
    ensures (forall t :: t in ts ==> t in k.threads) ==> r.fault == k.fault
    decreases |ts|
  {
    assert ts == [] ==> Woken(k.threads, set t | t in ts) == k.threads;
    assert ts != [] ==> Woken(k.threads, set t | t in ts) == Woken(Woken(k.threads, {ts[0]}), set t | t in ts[1..]);
    if ts == [] then k else WakeAll(WakeUp(k, ts[0]), ts[1..])
  }

  /** `tasking_switch`: requeue the current thread if it can run, then take the next one. */
  function Switch(k: State): (r: State)
    ensures r == k.(queues := r.queues, current := r.current)
  {
    var k1 := if k.current.Some? && k.current.value in k.threads && k.threads[k.current.value].running
              then Enqueue(k, k.current.value) else k;
    var l := Level(k1.queues);
    k1.(queues := Popped(k1.queues), current := Some(if l < |k1.queues| then k1.queues[l][0] else k1.idle))
  }

  /** The current thread records where to carry on. */
  function Continue(k: State, c: Tid, cont: Cont): State
    requires c in k.threads
  {
    k.(threads := k.threads[c := k.threads[c].(cont := cont)])
  }

  /** `thread_goInactive`. */
  function GoInactive(k: State, c: Tid, cont: Cont): State
    requires c in k.threads
  {
    Switch(k.(threads := k.threads[c := k.threads[c].(running := false, cont := cont)]))
  }

  function Now(k: State): nat
    requires k.frequency > 0
  {
    TimeAt(k.ticks, k.frequency)
  }

  /** `thread_sleep`. */
  function SleepFor(k: State, c: Tid, msecs: nat, cont: Cont): State
    requires c in k.threads && k.frequency > 0
  {
    GoInactive(k.(sleepers := Entered(k.sleepers, Sleeper(Now(k) + msecs, c))), c, cont)
  }

  // ---------------------------------------------------------------- interrupts

  /** `timer_callback`. */
  function TimerCallback(k: State): State
    requires k.frequency > 0
  {
    var now := TimeAt(k.ticks + 1, k.frequency);
    var d := Due(k.sleepers, now);
    WakeAll(k.(ticks := k.ticks + 1, sleepers := k.sleepers[d..]), Threads(k.sleepers[..d]))
  }

  /** `idt_irqHandler`: wake the waiters, call the timer's handler on interrupt 0, switch if called for. */
  function Interrupt(k: State, n: nat): State
    requires n < |k.irq| && k.frequency > 0
  {
    var k1 := WakeAll(k.(irq := k.irq[n := []]), k.irq[n]);
    var k2 := if n == 0 then TimerCallback(k1) else k1;
    if n == 0 || k.irq[n] != [] then Switch(k2) else k2
  }

  // ---------------------------------------------------------------- requests

  /** The record that `mkrequest` fills in: within one process no shared memory is handed over. */
  function NewRequest(k: State, c: Tid, call: Call): Request
    requires c in k.threads && call.obj in k.objects
  {
    var local := k.objects[call.obj].owner == Some(k.threads[c].process);
    Request(call.obj, if call.blocking then Some(c) else None, Pending,
            if local then [false, false, false] else call.shm, [false, false, false])
  }

  /** The end of `mkrequest`: reference the request from its object and wake a waiting receiver. */
  function Post(k: State, c: Tid, call: Call): State
    requires c in k.threads && call.obj in k.objects
  {
    var o, r := call.obj, k.nextRq;
    var k1 := k.(requests := k.requests[r := NewRequest(k, c, call)],
                 objects := k.objects[o := k.objects[o].(locked := true, request := Some(r), wakeupOnRq := None)],
                 created := k.created[o := (if o in k.created then k.created[o] else []) + [r]],
                 nextRq := r + 1);
    if k.objects[o].wakeupOnRq.Some? then WakeUp(k1, k.objects[o].wakeupOnRq.value) else k1
  }

  /** `mkrequest` from its `mutex_lock` on, with the blocking of `request` or the return of `send_msg`. */
  function MakeRequest(k: State, c: Tid, call: Call): State
    requires c in k.threads && call.obj in k.objects && k.frequency > 0
  {
    if k.objects[call.obj].locked then
      SleepFor(k, c, 1, Locking(call))
    else if k.objects[call.obj].owner.None? then
      Continue(k, c, InUser)
    else
      var k1 := Post(k, c, call);
      if call.blocking then GoInactive(k1, c, Awaiting(k.nextRq))
      else Continue(k1, c, InUser)
  }

  function Contains(bs: seq<bool>): bool { true in bs }

  /** Some parameter carries shared memory that has not been mapped. */
  predicate ToMap(r: Request)
  {
    exists i :: 0 <= i < |r.sent| && i < |r.mapped| && r.sent[i] && !r.mapped[i]
  }

  /** The object drops its request and is unlocked; the request itself is freed. */
  function Drop(k: State, o: Oid, r: Rid): State
    requires o in k.objects
  {
    k.(objects := k.objects[o := k.objects[o].(locked := false, request := None)], requests := k.requests - {r})
  }

  /** `request_get` from its loop on. */
  function Receive(k: State, c: Tid, o: Oid): State
    requires c in k.threads && o in k.objects
  {
    var ob := k.objects[o];
    if !ob.locked &&
        (ob.request.None? || ob.request.value !in k.requests || k.requests[ob.request.value].status != Pending) then
      GoInactive(k.(objects := k.objects[o := ob.(wakeupOnRq := Some(c))]), c, Receiving(o))
    else if ob.request.None? || ob.request.value !in k.requests then
      k.(fault := true)
    else
      Deliver(k, c, o, ob.request.value)
  }

  /** The request is handed to the receiver; a message without shared memory is done with. */
  function Deliver(k: State, c: Tid, o: Oid, r: Rid): State
    requires c in k.threads && o in k.objects && r in k.requests
  {
    var rq := k.requests[r].(status := Processed);
    var k1 := Continue(k.(requests := k.requests[r := rq],
                          delivered := k.delivered[o := (if o in k.delivered then k.delivered[o] else []) + [r]]), c,
                              InUser);
    if rq.requester.Some? || Contains(rq.sent) then k1 else Drop(k1, o, r)
  }

  /** `request_get` returns at once with an error: not the owner, a request in progress, or none and no wish to wait. */
  predicate Refuses(k: State, c: Tid, o: Oid, wait: bool)
    requires c in k.threads && o in k.objects
  {
    var ob := k.objects[o];
    || ob.owner != Some(k.threads[c].process)
    || (ob.request.Some? && ob.request.value in k.requests && k.requests[ob.request.value].status != Pending)
    || (!wait && ob.request.None?)
  }

  /** `request_get`. */
  function Get(k: State, c: Tid, o: Oid, wait: bool): State
    requires c in k.threads && o in k.objects
  {
    if Refuses(k, c, o, wait) then k else Receive(k, c, o)
  }

  /** `request_answer`: only a blocking request that is being processed is answered. */
  function Answer(k: State, c: Tid, o: Oid): State
    requires c in k.threads && o in k.objects
  {
    var ob := k.objects[o];
    if ob.owner != Some(k.threads[c].process) || ob.request.None? then k
    else
      var r := ob.request.value;
      if r !in k.requests then k.(fault := true)
      else if k.requests[r].status == Pending || k.requests[r].requester.None? then k
      else
        var k1 := WakeUp(k.(requests := k.requests[r := k.requests[r].(status := Finished)]),
            k.requests[r].requester.value);
        k1.(objects := k1.objects[o := ob.(request := None, locked := false)])
  }

  /** `request_mapShm` for parameter `i`; a message whose last shared memory is mapped is done with. */
  function MapShm(k: State, c: Tid, o: Oid, i: nat): State
    requires c in k.threads && o in k.objects
  {
    var ob := k.objects[o];
    if i >= PARAMS || ob.owner != Some(k.threads[c].process) || ob.request.None? then k
    else
      var r := ob.request.value;
      if r !in k.requests then k.(fault := true)
      else
        var rq := k.requests[r];
        if rq.status == Pending || i >= |rq.sent| || i >= |rq.mapped| || !rq.sent[i] then k
        else
          var rq1 := rq.(mapped := rq.mapped[i := true]);
          var k1 := k.(requests := k.requests[r := rq1]);
          if rq1.requester.Some? || ToMap(rq1) then k1 else Drop(k1, o, r)
  }

  /** The end of `request`: the answer is taken and the request freed. */
  function TakeAnswer(k: State, c: Tid, r: Rid): State
    requires c in k.threads
  {
    if r !in k.requests then k.(fault := true)
    else Continue(k.(requests := k.requests - {r}), c, InUser)
  }

  // ---------------------------------------------------------------- descriptors

  /** `obj_delete`, the object having lost its last descriptor. */
  function Delete(k: State, o: Oid): (l: State)
    requires o in k.objects
    ensures l == k.(objects := l.objects) && (l.objects == k.objects || l.objects == k.objects - {o})
  {
    if k.objects[o].locked || k.objects[o].request.Some? then k else k.(objects := k.objects - {o})
  }

  /** `obj_closeP`: an owner leaves the object ownerless; with the last descriptor it goes. */
  function CloseDesc(k: State, p: Pid, o: Oid): (l: State)
    requires o in k.objects
    ensures l == k.(objects := l.objects) && l.objects.Keys <= k.objects.Keys <= l.objects.Keys + {o}
  {
    var ob := k.objects[o].(holders := k.objects[o].holders - {p});
    var k1 := k.(objects := k.objects[o := ob]);
    if ob.owner == Some(p) then
      if ob.holders != {} then k.(objects := k.objects[o := ob.(owner := None)]) else Delete(k1, o)
    else if ob.holders == {} && ob.owner.None? then Delete(k1, o)
    else k1
  }

  // ---------------------------------------------------------------- actions

  datatype Action =
    | Irq(n: nat)
    | Resume
    | Sleep(msecs: nat)
    | WaitIrq(n: nat)
    | NewObject(o: Oid)
    | Grant(o: Oid, p: Pid)
    | Close(o: Oid)
    | Ask(call: Call)
    | Fetch(o: Oid, wait: bool)
    | Reply(o: Oid)
    | Map(o: Oid, i: nat)
    | NewThread(t: Tid, process: Pid, priority: nat)
    | Exit

  predicate CurrentIn(k: State)
  {
    k.current.Some? && k.current.value in k.threads
  }

  /** The current thread is in user mode and not the idle loop. */
  predicate UserCalls(k: State)
  {
    CurrentIn(k) && k.current.value != k.idle && k.threads[k.current.value].cont == InUser
  }

  /** The current process has a descriptor for the object. */
  predicate Holds(k: State, o: Oid)
    requires CurrentIn(k)
  {
    o in k.objects && k.threads[k.current.value].process in k.objects[o].holders
  }

  predicate IsReceiving(c: Cont, o: Oid) { c.Receiving? && c.obj == o }

  predicate IsLocking(c: Cont, o: Oid) { c.Locking? && c.call.obj == o }

  /** No thread has stopped in the kernel with this object in hand. */
  predicate Unused(k: State, o: Oid)
  {
    forall t :: t in k.threads ==> !IsReceiving(k.threads[t].cont, o) && !IsLocking(k.threads[t].cont, o)
  }

  /** What can happen. An owner does not close an object that has a request: that case is not written yet. */
  predicate Possible(k: State, a: Action)
  {
    match a
    case Irq(n) => n < IRQS && (CurrentIn(k) ==> k.threads[k.current.value].cont == InUser)
    case Resume => CurrentIn(k) && k.threads[k.current.value].cont != InUser
    case Sleep(_) => UserCalls(k)
    case WaitIrq(n) => UserCalls(k) && n < IRQS
    case NewObject(o) => UserCalls(k) && o !in k.objects && Unused(k, o)
    case Grant(o, _) => UserCalls(k) && Holds(k, o)
    case Close(o) =>
      UserCalls(k) && Holds(k, o) &&
          (k.objects[o].owner == Some(k.threads[k.current.value].process) ==> k.objects[o].request.None?)
    case Ask(call) => UserCalls(k) && Holds(k, call.obj) && |call.shm| == PARAMS
    case Fetch(o, _) => UserCalls(k) && Holds(k, o)
    case Reply(o) => UserCalls(k) && Holds(k, o)
    case Map(o, _) => UserCalls(k) && Holds(k, o)
    case NewThread(t, _, p) => (UserCalls(k) || k.current.None?) && t !in k.threads && p < PRIORITIES
    case Exit => UserCalls(k)
  }

  /** The close would free the object. */
  predicate Frees(k: State, o: Oid)
    requires CurrentIn(k) && o in k.objects
  {
    o !in CloseDesc(k, k.threads[k.current.value].process, o).objects
  }

  /** Some thread is waiting for the object's mutex. */
  predicate Wanted(k: State, o: Oid) { exists t :: t in k.threads && IsLocking(k.threads[t].cont, o) }

  /** No thread but `c` has stopped in `request_get` on the object. */
  predicate Alone(ts: map<Tid, Thread>, o: Oid, c: Tid)
  {
    forall t :: t in ts && t != c ==> !IsReceiving(ts[t].cont, o)
  }

  /**
   Nobody gets into `request_get` where another thread is in it, and no object is freed that a thread waits to lock.
   */
  predicate Enabled(k: State, a: Action)
  {
    && Possible(k, a)
    && (a.Fetch? ==> Refuses(k, k.current.value, a.o, a.wait) || Alone(k.threads, a.o, k.current.value))
    && (a.Close? && Frees(k, a.o) ==> !Wanted(k, a.o))
  }

  function Step(k: State, a: Action): State
    requires Possible(k, a) && k.frequency > 0 && |k.irq| == IRQS
  {
    match a
    case Irq(n) => Interrupt(k, n)
    case Resume => Resumed(k, k.current.value)
    case Sleep(ms) => SleepFor(k, k.current.value, ms, Sleeping)
    case WaitIrq(n) =>
      var c := k.current.value;
      if k.threads[c].priority > 1 then k
      else GoInactive(k.(irq := k.irq[n := [c] + k.irq[n]]), c, AwaitingIrq(n))
    case NewObject(o) =>
      var p := k.threads[k.current.value].process;
      k.(objects := k.objects[o := Object(Some(p), {p}, false, None, None)],
         created := k.created[o := []], delivered := k.delivered[o := []])
    case Grant(o, p) => k.(objects := k.objects[o := k.objects[o].(holders := k.objects[o].holders + {p})])
    case Close(o) => CloseDesc(k, k.threads[k.current.value].process, o)
    case Ask(call) => MakeRequest(k, k.current.value, call)
    case Fetch(o, wait) => Get(k, k.current.value, o, wait)
    case Reply(o) => Answer(k, k.current.value, o)
    case Map(o, i) => MapShm(k, k.current.value, o, i)
    case NewThread(t, process, priority) =>
      Enqueue(k.(threads := k.threads[t := Thread(process, priority, true, InUser)]), t)
    case Exit => Switch(k.(threads := k.threads - {k.current.value}, current := None))
  }

  /** The current thread carries on where it blocked. */
  function Resumed(k: State, c: Tid): State
    requires c in k.threads && k.frequency > 0
  {
    match k.threads[c].cont
    case InUser => k
    case Sleeping => Continue(k, c, InUser)
    case AwaitingIrq(_) => Continue(k, c, InUser)
    case Locking(call) => if call.obj !in k.objects then k.(fault := true) else MakeRequest(k, c, call)
    case Receiving(o) => if o !in k.objects then k.(fault := true) else Receive(k, c, o)
    case Awaiting(r) => TakeAnswer(k, c, r)
  }

  /** After boot: the idle thread has been created while `idle_thread` was still null, so it is queued once. */
  ghost predicate Initial(k: State)
  {
    && k.threads.Keys == {k.idle} && k.threads[k.idle] == Thread(0, 0, true, InUser)
    && k.current == None && k.queues == [[k.idle], [], [], []]
    && k.sleepers == [] && k.irq == seq(IRQS, _ => []) && k.frequency > 0 && k.ticks == 0
    && k.objects == map[] && k.requests == map[] && k.created == map[] && k.delivered == map[] && !k.fault
  }
}
