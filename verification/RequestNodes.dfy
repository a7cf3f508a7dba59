/**
 `request.c` on the heap: objects and requests are nodes that point at each other, allocated, freed and dereferenced as
 there. Every dereference is proved safe from the invariant, and every call makes the step that `Kernel` describes.
 Scheduling and sleeping, whose linked lists are in `Sched` and `Timer`, are kept as values.
 */
module RequestNodes {
  import opened Common
  import opened Queues
  import opened Timer
  import opened Kernel
  import opened KernelSched
  import opened KernelInv
  import opened KernelSteps
  import opened KernelCalls

  class RequestNode {
    const id: Rid
    const obj: Oid
    const requester: Option<Tid>
    const sent: seq<bool>
    var status: Status
    var mapped: seq<bool>

    constructor (id: Rid, obj: Oid, requester: Option<Tid>, sent: seq<bool>)
      ensures this.id == id && Value() == Request(obj, requester, Pending, sent, [false, false, false])
    {
      this.id, this.obj, this.requester, this.sent := id, obj, requester, sent;
      status, mapped := Pending, [false, false, false];
    }

    function Value(): Request
      reads this
    {
      Request(obj, requester, status, sent, mapped)
    }
  }

  class ObjectNode {
    const id: Oid
    var owner: Option<Pid>
    var holders: set<Pid>
    var busyMutex: bool
    var request: RequestNode?
    var wakeupOnRq: Option<Tid>

    constructor (id: Oid, owner: Pid)
      ensures this.id == id && Value() == Object(Some(owner), {owner}, false, None, None) && request == null
    {
      this.id, this.owner, holders := id, Some(owner), {owner};
      busyMutex, request, wakeupOnRq := false, null, None;
    }

    function Value(): Object
      reads this
    {
      Object(owner, holders, busyMutex, if request == null then None else Some(request.id), wakeupOnRq)
    }
  }

  // ---------------------------------------------------------------- scheduling does not look at objects

  /** The same state with other objects and requests. */
  ghost function With(k: State, os: Objects, rs: Requests): State { k.(objects := os, requests := rs) }

  lemma EnqueueApart(k: State, t: Tid, os: Objects, rs: Requests)
    requires t in k.threads
    ensures Enqueue(With(k, os, rs), t) == With(Enqueue(k, t), os, rs)
  {
  }

  function Requeued(k: State): State
  {
    if k.current.Some? && k.current.value in k.threads && k.threads[k.current.value].running
        then Enqueue(k, k.current.value) else k
  }

  function Next(k: State): State
  {
    var l := Level(k.queues);
    k.(queues := Popped(k.queues), current := Some(if l < |k.queues| then k.queues[l][0] else k.idle))
  }

  lemma SwitchIs(k: State)
    ensures Switch(k) == Next(Requeued(k))
  {
    hide Enqueue, Popped, Level;
  }

  lemma SwitchApart(k: State, os: Objects, rs: Requests)
    ensures Switch(With(k, os, rs)) == With(Switch(k), os, rs)
  {
    hide Switch, Enqueue, Popped, Level;
    SwitchIs(k);
    SwitchIs(With(k, os, rs));
    if k.current.Some? && k.current.value in k.threads {
      EnqueueApart(k, k.current.value, os, rs);
    }
    assert Requeued(With(k, os, rs)) == With(Requeued(k), os, rs);
    hide Requeued;
  }

  lemma InactiveApart(k: State, c: Tid, cont: Cont, os: Objects, rs: Requests)
    requires c in k.threads
    ensures GoInactive(With(k, os, rs), c, cont) == With(GoInactive(k, c, cont), os, rs)
  {
    hide Switch;
    SwitchApart(k.(threads := k.threads[c := k.threads[c].(running := false, cont := cont)]), os, rs);
  }

  lemma SleepApart(k: State, c: Tid, msecs: nat, cont: Cont, os: Objects, rs: Requests)
    requires c in k.threads && k.frequency > 0
    ensures SleepFor(With(k, os, rs), c, msecs, cont) == With(SleepFor(k, c, msecs, cont), os, rs)
  {
    hide GoInactive, TimeAt, Entered;
    InactiveApart(k.(sleepers := Entered(k.sleepers, Sleeper(Now(k) + msecs, c))), c, cont, os, rs);
  }

  lemma WakeApart(k: State, t: Tid, os: Objects, rs: Requests)
    ensures WakeUp(With(k, os, rs), t) == With(WakeUp(k, t), os, rs)
  {
  }

  /** A request is handed to `c`, and nothing is freed yet. */
  function Taken(k: State, c: Tid, o: Oid, r: Rid): (t: State)
    requires c in k.threads && r in k.requests
    ensures t == k.(requests := t.requests, delivered := t.delivered, threads := t.threads)
    ensures t.requests.Keys == k.requests.Keys
  {
    k.(requests := k.requests[r := k.requests[r].(status := Processed)],
       delivered := k.delivered[o := (if o in k.delivered then k.delivered[o] else []) + [r]],
       threads := k.threads[c := k.threads[c].(cont := InUser)])
  }

  lemma DeliverIs(k: State, c: Tid, o: Oid, r: Rid)
    requires c in k.threads && o in k.objects && r in k.requests
    ensures Deliver(k, c, o, r) == if k.requests[r].requester.Some? || Contains(k.requests[r].sent)
            then Taken(k, c, o, r)
            else Drop(Taken(k, c, o, r), o, r)
  {
    hide Contains, Drop;
  }

  lemma DropIs(k: State, o: Oid, r: Rid, l: State)
    requires o in k.objects
    requires l ==
             k.(objects := k.objects[o := k.objects[o].(request := None, locked := false)],
             requests := k.requests - {r})
    ensures l == Drop(k, o, r)
  {
  }

  class Mailboxes {
    var rest: State
    var objs: map<Oid, ObjectNode>
    ghost var reqs: map<Rid, RequestNode>

    /** Nodes are where their identifiers say, and an object points at a request that has not been freed. */
    ghost predicate Valid()
      reads this`objs, this`reqs, objs.Values, reqs.Values
    {
      && (forall o :: o in objs ==>
            objs[o].id == o &&
                (objs[o].request != null ==> objs[o].request.id in reqs && reqs[objs[o].request.id] == objs[o].request))
      && (forall r :: r in reqs ==> reqs[r].id == r)
    }

    ghost function Objs(): Objects
      reads this`objs, objs.Values
    {
      map o | o in objs :: objs[o].Value()
    }

    ghost function Reqs(): Requests
      reads this`reqs, reqs.Values
    {
      map r | r in reqs :: reqs[r].Value()
    }

    ghost function View(): State
      reads this, objs.Values, reqs.Values
    {
      With(rest, Objs(), Reqs())
    }

    lemma NodeOf(o: ObjectNode)
      requires o.id in objs && objs[o.id] == o
      ensures o.id in Objs() && Objs()[o.id] == o.Value()
    {
    }

    lemma RequestOf(r: RequestNode)
      requires r.id in reqs && reqs[r.id] == r
      ensures r.id in Reqs() && Reqs()[r.id] == r.Value()
    {
    }

    lemma NotYet(r: Rid)
      ensures r in Reqs() <==> r in reqs
    {
    }

    /** Only the node of `o` has another value than in `os`. */
    lemma OneNode(o: ObjectNode, os: Objects)
      requires o.id in objs && objs[o.id] == o && os.Keys == objs.Keys
      requires forall p :: p in objs && p != o.id ==> objs[p].Value() == os[p]
      ensures Objs() == os[o.id := o.Value()]
    {
    }

    // ---------------------------------------------------------------- one field at a time

    method SetMutex(o: ObjectNode, locked: bool)
      requires Valid() && o.id in objs && objs[o.id] == o
      modifies o`busyMutex
      ensures Valid() && Objs() == old(Objs())[o.id := old(Objs())[o.id].(locked := locked)] && Reqs() == old(Reqs())
      ensures o.busyMutex == locked
    {
      ghost var os := Objs();
      o.busyMutex := locked;
      OneNode(o, os);
    }

    method SetRequest(o: ObjectNode, r: RequestNode?)
      requires Valid() && o.id in objs && objs[o.id] == o && (r != null ==> r.id in reqs && reqs[r.id] == r)
      modifies o`request
      ensures Valid() && Reqs() == old(Reqs()) && o.request == r
      ensures Objs() == old(Objs())[o.id := old(Objs())[o.id].(request := if r == null then None else Some(r.id))]
    {
      ghost var os := Objs();
      o.request := r;
      OneNode(o, os);
    }

    method SetWakeup(o: ObjectNode, w: Option<Tid>)
      requires Valid() && o.id in objs && objs[o.id] == o
      modifies o`wakeupOnRq
      ensures Valid() && Objs() == old(Objs())[o.id := old(Objs())[o.id].(wakeupOnRq := w)] && Reqs() == old(Reqs())
    {
      ghost var os := Objs();
      o.wakeupOnRq := w;
      OneNode(o, os);
    }

    method SetStatus(r: RequestNode, status: Status)
      requires Valid() && r.id in reqs && reqs[r.id] == r
      modifies r`status
      ensures Valid() && Reqs() == old(Reqs())[r.id := old(Reqs())[r.id].(status := status)] && Objs() == old(Objs())
      ensures r.status == status
    {
      r.status := status;
    }

    method SetMapped(r: RequestNode, i: nat)
      requires Valid() && r.id in reqs && reqs[r.id] == r && i < |r.mapped|
      modifies r`mapped
      ensures Valid() && Objs() == old(Objs()) && r.mapped == old(r.mapped)[i := true]
      ensures Reqs() == old(Reqs())[r.id := old(Reqs())[r.id].(mapped := old(r.mapped)[i := true])]
    {
      r.mapped := r.mapped[i := true];
    }

    /** The request is freed and its object unlocked. */
    method Free(o: ObjectNode, r: RequestNode)
      requires Valid() && o.id in objs && objs[o.id] == o && r.id in reqs && reqs[r.id] == r
      requires forall p :: p in objs && p != o.id ==> objs[p].request != r
      modifies this`reqs, o`request, o`busyMutex
      ensures Valid() && rest == old(rest) && objs == old(objs) && o.request == null && !o.busyMutex
      ensures Objs() == old(Objs())[o.id := old(Objs())[o.id].(request := None, locked := false)]
      ensures Reqs() == old(Reqs()) - {r.id}
    {
      hide Objs, Reqs, Valid;
      Release(o);
      Discard(r);
    }

    /** The object lets go of its request and is unlocked. */
    method Release(o: ObjectNode)
      requires Valid() && o.id in objs && objs[o.id] == o
      modifies o`request, o`busyMutex
      ensures Valid() && o.request == null && !o.busyMutex
      ensures Objs() == old(Objs())[o.id := old(Objs())[o.id].(request := None, locked := false)]
      ensures Reqs() == old(Reqs())
    {
      hide Objs, Reqs, Valid;
      NodeOf(o);
      SetRequest(o, null);
      SetMutex(o, false);
    }

    // ---------------------------------------------------------------- receiving

    /** The loop at the end of `request_get`: does a parameter carry shared memory? */
    method Carries(sent: seq<bool>) returns (any: bool)
      ensures any == Contains(sent)
    {
      var i := 0;
      while i < |sent|
        invariant 0 <= i <= |sent| && forall j :: 0 <= j < i ==> !sent[j]
      {
        if sent[i] {
          return true;
        }
        i := i + 1;
      }
      return false;
    }

    /** The request is marked as taken, and its thread goes back to its program. */
    method Take(c: Tid, o: ObjectNode, r: RequestNode)
      requires Valid() && c in rest.threads && r.id in reqs && reqs[r.id] == r
      modifies this`rest, r`status
      ensures Valid() && c in old(View()).threads && r.id in old(View()).requests
      ensures View() == Taken(old(View()), c, o.id, r.id)
    {
      hide Objs, Reqs, Valid;
      RequestOf(r);
      SetStatus(r, Processed);
      rest := rest.(delivered := rest.delivered[o.id := (if o.id in rest.delivered then rest.delivered[o.id] else []) +
          [r.id]],
                    threads := rest.threads[c := rest.threads[c].(cont := InUser)]);
    }

    /** `request_get` from the end of its loop on. */
    method HandOut(c: Tid, o: ObjectNode, r: RequestNode)
      requires Valid() && c in rest.threads && o.id in objs && objs[o.id] == o && r.id in reqs && reqs[r.id] == r
      requires o.request == r
      requires forall p :: p in objs && p != o.id ==> objs[p].request != r
      modifies this`rest, this`reqs, o`request, o`busyMutex, r`status
      ensures Valid() && objs == old(objs) && View() == Deliver(old(View()), c, o.id, r.id)
    {
      hide Contains, Deliver, Drop, Objs, Reqs, Valid, Taken;
      ghost var k := View();
      NodeOf(o);
      RequestOf(r);
      Take(c, o, r);
      ghost var k1 := View();
      DeliverIs(k, c, o.id, r.id);
      if r.requester.Some? {
        return;
      }
      var any := Carries(r.sent);
      if !any {
        Free(o, r);
        DropIs(k1, o.id, r.id, View());
      }
    }

    /** `request_get` from its loop on: one turn blocks the thread; out of the loop there is a request to hand out. */
    method GetLoop(c: Tid, o: ObjectNode)
      requires Valid() && Inv(View()) && c in rest.threads && o.id in objs && objs[o.id] == o
      modifies this`rest, this`reqs, o, o.request
      ensures Valid() && objs == old(objs) && View() == Receive(old(View()), c, o.id)
    {
      hide Inv, Deliver, GoInactive, Objs, Reqs;
      ghost var k := View();
      NodeOf(o);
      if o.request != null {
        RequestOf(o.request);
      }
      if !o.busyMutex && (o.request == null || o.request.status != Pending) {
        SetWakeup(o, Some(c));
        InactiveApart(rest, c, Receiving(o.id), Objs(), Reqs());
        rest := GoInactive(rest, c, Receiving(o.id));
      } else {
        SlotNode(o);
        HandOut(c, o, o.request);
      }
    }

    /** The object's slot as its node has it: a locked object has a request, and that is no other object's. */
    lemma SlotNode(o: ObjectNode)
      requires Valid() && Inv(View()) && o.id in objs && objs[o.id] == o
      ensures o.busyMutex <==> o.request != null
      ensures o.request != null ==>
                && o.request.id in reqs && reqs[o.request.id] == o.request && o.request.status != Finished
                && (forall p :: p in objs && p != o.id ==> objs[p].request != o.request)
                && |o.request.mapped| == |o.request.sent| == PARAMS
    {
      var k := View();
      SlotAt(k, o.id);
      if o.request != null {
        RequestAt(k, o.request.id);
        forall p | p in objs && p != o.id
          ensures objs[p].request != o.request
        {
          SlotAt(k, p);
        }
      }
    }

    /** `request_get`. */
    method RequestGet(c: Tid, o: ObjectNode, wait: bool) returns (code: int)
      requires Valid() && Inv(View()) && rest.current == Some(c) && Enabled(View(), Fetch(o.id, wait)) && o.id in objs
      requires objs[o.id] == o
      modifies this`rest, this`reqs, o, o.request
      ensures Valid() && objs == old(objs) && Inv(View())
      ensures old(View().frequency > 0 && |View().irq| == IRQS) && View() == Step(old(View()), Fetch(o.id, wait))
      ensures code == 0 ==> Handed(old(View()), View(), c, o.id) || Blocked(View(), c, o.id)
      ensures code != 0 ==> View() == old(View())
      ensures code == if old(o.owner) != Some(old(rest.threads)[c].process) then -2
                      else if old(o.request != null && o.request.status != Pending) then -3
                      else if !wait && old(o.request) == null then -1
                      else 0
    {
      hide Inv, Receive;
      ghost var k := View();
      Ready(k);
      StepInv(k, Fetch(o.id, wait));
      SlotNode(o);
      if o.owner != Some(rest.threads[c].process) {
        return -2;
      }
      if o.request != null && o.request.status != Pending {
        return -3;
      }
      if !wait && o.request == null {
        return -1;
      }
      GetLoop(c, o);
      GetMeans(k, c, o.id);
      return 0;
    }

    /** `request_get` carrying on after a wake-up: there is a request, and it is handed out. */
    method ResumeGet(c: Tid, o: ObjectNode)
      requires Valid() && Inv(View()) && rest.current == Some(c) && c in rest.threads
      requires rest.threads[c].cont == Receiving(o.id)
      requires o.id in objs && objs[o.id] == o
      modifies this`rest, this`reqs, o, o.request
      ensures Valid() && objs == old(objs) && Inv(View())
      ensures old(Possible(View(), Resume) && View().frequency > 0 && |View().irq| == IRQS)
      ensures View() == Step(old(View()), Resume)
      ensures Handed(old(View()), View(), c, o.id)
    {
      hide Inv, Receive, Objs, Reqs;
      ghost var k := View();
      Ready(k);
      NodeOf(o);
      StepInv(k, Resume);
      ResumeMeans(k, c, o.id);
      GetLoop(c, o);
    }

    // ---------------------------------------------------------------- asking

    /** The new request, filled in. */
    method Allocate(c: Tid, o: ObjectNode, call: Call) returns (rq: RequestNode)
      requires Valid() && c in rest.threads && o.id in objs && objs[o.id] == o && call.obj == o.id
      requires rest.nextRq !in reqs
      modifies this`reqs
      ensures Valid() && rq.id == rest.nextRq && fresh(rq) && reqs == old(reqs)[rq.id := rq] && Objs() == old(Objs())
      ensures o.id in old(Objs()) && Reqs() == old(Reqs())[rq.id := NewRequest(old(View()), c, call)]
    {
      hide Objs, Reqs, Valid;
      NodeOf(o);
      var sent := [false, false, false];
      if o.owner != Some(rest.threads[c].process) {
        sent := call.shm;
      }
      rq := new RequestNode(rest.nextRq, o.id, if call.blocking then Some(c) else None, sent);
      Enter(rq);
    }

    /** The new request is linked into its object's slot, which is locked and empty; a waiting receiver is woken. */
    method Link(c: Tid, o: ObjectNode, call: Call) returns (rid: Rid)
      requires Valid() && c in rest.threads && o.id in objs && objs[o.id] == o && call.obj == o.id
      requires rest.nextRq !in reqs && o.busyMutex
      modifies this`rest, this`reqs, o`request, o`wakeupOnRq
      ensures Valid() && objs == old(objs) && rid == old(rest.nextRq)
      ensures View() == Post(old(View()), c, call)
    {
      hide Objs, Reqs, Post, WakeUp, Valid, Attached;
      NodeOf(o);
      PostIs(View(), c, call);
      var w := o.wakeupOnRq;
      rid := Attach(c, o, call);
      if w.Some? {
        Wake(w.value);
      }
    }

    /** The node of the new request, in the object's slot. */
    method AttachNode(c: Tid, o: ObjectNode, call: Call) returns (rid: Rid)
      requires Valid() && c in rest.threads && o.id in objs && objs[o.id] == o && call.obj == o.id
      requires rest.nextRq !in reqs
      modifies this`reqs, o`request, o`wakeupOnRq
      ensures Valid() && rid == rest.nextRq && o.id in old(Objs())
      ensures Objs() == old(Objs())[o.id := old(Objs())[o.id].(request := Some(rid), wakeupOnRq := None)]
      ensures c in old(View()).threads && o.id in old(View()).objects
      ensures Reqs() == old(Reqs())[rid := NewRequest(old(View()), c, call)]
    {
      hide Objs, Reqs, Valid, NewRequest;
      NodeOf(o);
      var rq := Allocate(c, o, call);
      rid := rq.id;
      SetSlot(o, rq);
    }

    method Attach(c: Tid, o: ObjectNode, call: Call) returns (rid: Rid)
      requires Valid() && c in rest.threads && o.id in objs && objs[o.id] == o && call.obj == o.id
      requires rest.nextRq !in reqs
      modifies this`rest, this`reqs, o`request, o`wakeupOnRq
      ensures Valid() && objs == old(objs) && rid == old(rest.nextRq) && o.id in old(View()).objects
      ensures View() == Attached(old(View()), c, call)
    {
      hide Objs, Reqs, Valid, NewRequest;
      rid := AttachNode(c, o, call);
      rest := rest.(created := rest.created[o.id := (if o.id in rest.created then rest.created[o.id] else []) + [rid]],
          nextRq := rid + 1);
    }

    /** `thread_wakeUp`. */
    method Wake(t: Tid)
      requires Valid()
      modifies this`rest
      ensures Valid() && View() == WakeUp(old(View()), t) && Objs() == old(Objs()) && Reqs() == old(Reqs())
    {
      hide Objs, Reqs, WakeUp, Valid;
      WakeApart(rest, t, Objs(), Reqs());
      rest := WakeUp(rest, t);
    }

    method SetSlot(o: ObjectNode, r: RequestNode)
      requires Valid() && o.id in objs && objs[o.id] == o && r.id in reqs && reqs[r.id] == r
      modifies o`request, o`wakeupOnRq
      ensures Valid() && Reqs() == old(Reqs())
      ensures Objs() == old(Objs())[o.id := old(Objs())[o.id].(request := Some(r.id), wakeupOnRq := None)]
    {
      hide Objs, Reqs, Valid;
      NodeOf(o);
      SetRequest(o, r);
      SetWakeup(o, None);
    }

    /** A request node that has just been allocated. */
    method Enter(rq: RequestNode)
      requires Valid() && rq.id !in reqs
      modifies this`reqs
      ensures Valid() && reqs == old(reqs)[rq.id := rq] && Reqs() == old(Reqs())[rq.id := rq.Value()]
      ensures Objs() == old(Objs())
    {
      reqs := reqs[rq.id := rq];
    }

    /**
     `mkrequest` from its `mutex_lock` on, with the end of `request` or `send_msg`, until the thread blocks or returns.
     */
    method MakeRequest(c: Tid, o: ObjectNode, call: Call) returns (code: int)
      requires Valid() && Inv(View()) && c in rest.threads && o.id in objs && objs[o.id] == o && call.obj == o.id
      modifies this`rest, this`reqs, o
      ensures Valid() && objs == old(objs) && old(View().frequency) > 0
      ensures View() == Kernel.MakeRequest(old(View()), c, call)
      ensures code == if !old(o.busyMutex) && old(o.owner).None? then -11 else 0
    {
      hide Inv, Objs, Reqs, Post, SleepFor, GoInactive, Valid;
      ghost var k := View();
      Ready(k);
      NodeOf(o);
      NextNew(k);
      NotYet(rest.nextRq);
      var was := o.busyMutex;
      SetMutex(o, true);
      if was {
        assert Objs() == k.objects;
        SleepApart(rest, c, 1, Locking(call), Objs(), Reqs());
        rest := SleepFor(rest, c, 1, Locking(call));
        return 0;
      }
      if o.owner.None? {
        SetMutex(o, false);
        assert Objs() == k.objects;
        rest := rest.(threads := rest.threads[c := rest.threads[c].(cont := InUser)]);
        return -11;
      }
      ghost var k1 := View();
      var rid := Link(c, o, call);
      LockedFirst(k, c, call, k1);
      PosterStays(k, c, call);
      Finish(c, call.blocking, rid);
      return 0;
    }

    /** The end of `request`, which blocks the thread, or of `send_msg`, which does not. */
    method Finish(c: Tid, blocking: bool, rid: Rid)
      requires Valid() && c in rest.threads
      modifies this`rest
      ensures Valid()
      ensures View() == if blocking then GoInactive(old(View()), c, Awaiting(rid)) else Continue(old(View()), c, InUser)
    {
      hide Objs, Reqs, GoInactive, Valid;
      if blocking {
        InactiveApart(rest, c, Awaiting(rid), Objs(), Reqs());
        rest := GoInactive(rest, c, Awaiting(rid));
      } else {
        rest := rest.(threads := rest.threads[c := rest.threads[c].(cont := InUser)]);
      }
    }

    /** `request` or `send_msg`. */
    method Ask(c: Tid, o: ObjectNode, call: Call) returns (code: int)
      requires Valid() && Inv(View()) && rest.current == Some(c) && Enabled(View(), Kernel.Ask(call))
      requires call.obj == o.id && o.id in objs && objs[o.id] == o
      modifies this`rest, this`reqs, o
      ensures Valid() && objs == old(objs) && Inv(View())
      ensures old(View().frequency > 0 && |View().irq| == IRQS) && View() == Step(old(View()), Kernel.Ask(call))
      ensures code == -11 <==> !old(o.busyMutex) && old(o.owner).None?
      ensures !old(o.busyMutex) && old(o.owner).Some? ==>
              o.request != null && o.request.id == old(rest.nextRq) && o.request.status == Pending
      ensures old(c in View().threads && o.id in View().objects) && Asked(old(View()), View(), c, call)
    {
      hide Inv, Kernel.MakeRequest, Asked;
      ghost var k := View();
      Ready(k);
      StepInv(k, Kernel.Ask(call));
      AskExactly(k, call);
      code := MakeRequest(c, o, call);
      if !old(o.busyMutex) && old(o.owner).Some? {
        PostedNode(k, c, call);
      }
    }

    /** The same for a thread that slept on the mutex, with the call it came with. */
    method Retry(c: Tid, o: ObjectNode, call: Call) returns (code: int)
      requires Valid() && Inv(View()) && rest.current == Some(c) && c in rest.threads
      requires rest.threads[c].cont == Locking(call) && call.obj == o.id && o.id in objs && objs[o.id] == o
      modifies this`rest, this`reqs, o
      ensures Valid() && objs == old(objs) && Inv(View())
      ensures old(Possible(View(), Resume) && View().frequency > 0 && |View().irq| == IRQS)
      ensures View() == Step(old(View()), Resume)
      ensures code == -11 <==> !old(o.busyMutex) && old(o.owner).None?
      ensures old(c in View().threads && o.id in View().objects) && Asked(old(View()), View(), c, call)
    {
      hide Inv, Kernel.MakeRequest, Asked;
      ghost var k := View();
      Ready(k);
      RetryExactly(k, c, call);
      StepInv(k, Resume);
      code := MakeRequest(c, o, call);
    }

    /** The end of `request`: the requester takes its answer and frees the request, which nothing points at any more. */
    method TakeAnswer(c: Tid, ghost r: RequestNode)
      requires Valid() && Inv(View()) && rest.current == Some(c) && c in rest.threads
      requires rest.threads[c].cont == Awaiting(r.id)
      requires r.id in reqs && reqs[r.id] == r
      modifies this`rest, this`reqs
      ensures Valid() && objs == old(objs) && Inv(View()) && r.id !in reqs
      ensures old(Possible(View(), Resume) && View().frequency > 0 && |View().irq| == IRQS)
      ensures View() == Step(old(View()), Resume)
      ensures r.status == Finished
    {
      hide Inv, Objs, Reqs, Valid;
      ghost var k := View();
      RequestOf(r);
      AnswerIn(k, c, r.id);
      Ready(k);
      StepInv(k, Resume);
      NobodyPoints(r);
      rest := rest.(threads := rest.threads[c := rest.threads[c].(cont := InUser)]);
      Discard(r);
    }

    /** A request that no object points at is freed. */
    method Discard(ghost r: RequestNode)
      requires Valid() && r.id in reqs && reqs[r.id] == r && forall p :: p in objs ==> objs[p].request != r
      modifies this`reqs
      ensures Valid() && reqs == old(reqs) - {r.id} && Reqs() == old(Reqs()) - {r.id} && Objs() == old(Objs())
    {
      reqs := reqs - {r.id};
    }

    /** A finished request is in no object's slot. */
    lemma NobodyPoints(r: RequestNode)
      requires Valid() && Inv(View()) && r.id in reqs && reqs[r.id] == r && r.status == Finished
      ensures forall p :: p in objs ==> objs[p].request != r
    {
      forall p | p in objs
        ensures objs[p].request != r
      {
        SlotAt(View(), p);
      }
    }

    // ---------------------------------------------------------------- answering and mapping

    /**
     `request_answer`: a blocking request that is being processed is finished, its requester woken, the object free
     again.
     */
    method RequestAnswer(c: Tid, o: ObjectNode)
      requires Valid() && Inv(View()) && rest.current == Some(c) && Enabled(View(), Reply(o.id)) && o.id in objs
      requires objs[o.id] == o
      modifies this`rest, o, o.request
      ensures Valid() && objs == old(objs) && Inv(View())
      ensures old(View().frequency > 0 && |View().irq| == IRQS) && View() == Step(old(View()), Reply(o.id))
      ensures View() != old(View()) ==>
                && old(o.request) != null && old(o.request).status == Finished && o.request == null && !o.busyMutex
                && old(o.request).requester.Some?
    {
      hide Inv, Objs, Reqs, WakeUp, Valid, Answer;
      ghost var k := View();
      Ready(k);
      SlotNode(o);
      NodeOf(o);
      StepInv(k, Reply(o.id));
      var r := o.request;
      if o.owner != Some(rest.threads[c].process) || r == null {
        AnswerNot(k, c, o.id);
        return;
      }
      RequestOf(r);
      if r.status == Pending || r.requester.None? {
        AnswerNot(k, c, o.id);
        return;
      }
      SetStatus(r, Finished);
      ghost var k0 := View();
      Wake(r.requester.value);
      Release(o);
      AnswerIs(k, c, o.id, k0, View());
    }

    /** The loop of `request_mapShm`: is shared memory left to map? */
    method Outstanding(rq: RequestNode) returns (left: bool)
      ensures left == ToMap(rq.Value())
    {
      var i := 0;
      while i < |rq.sent| && i < |rq.mapped|
        invariant 0 <= i <= |rq.sent| && i <= |rq.mapped| && forall j :: 0 <= j < i ==> !(rq.sent[j] && !rq.mapped[j])
      {
        if rq.sent[i] && !rq.mapped[i] {
          return true;
        }
        i := i + 1;
      }
      return false;
    }

    /** `request_mapShm` on parameter `i`; a message whose last shared memory is mapped is freed. */
    method RequestMapShm(c: Tid, o: ObjectNode, i: nat) returns (code: int)
      requires Valid() && Inv(View()) && rest.current == Some(c) && Enabled(View(), Kernel.Map(o.id, i)) && o.id in objs
      requires objs[o.id] == o
      modifies this`reqs, o, o.request
      ensures Valid() && objs == old(objs) && rest == old(rest) && Inv(View())
      ensures old(View().frequency > 0 && |View().irq| == IRQS) && View() == Step(old(View()), Kernel.Map(o.id, i))
      ensures code != 0 ==> View() == old(View())
      ensures code == 0 ==>
              i < PARAMS && old(o.request) != null && |old(o.request).mapped| == PARAMS && old(o.request).mapped[i]
      ensures code == 0 && old(o.request).requester.None? ==> (o.request == null <==> !ToMap(old(o.request).Value()))
    {
      hide Inv, Objs, Reqs, ToMap, Valid, MapShm;
      ghost var k := View();
      Ready(k);
      SlotNode(o);
      NodeOf(o);
      StepInv(k, Kernel.Map(o.id, i));
      var r := o.request;
      if i >= PARAMS {
        MapNot(k, c, o.id, i);
        return -9;
      }
      if o.owner != Some(rest.threads[c].process) {
        MapNot(k, c, o.id, i);
        return -2;
      }
      if r == null || r.status == Pending {
        if r != null {
          RequestOf(r);
        }
        MapNot(k, c, o.id, i);
        return -3;
      }
      RequestOf(r);
      if !r.sent[i] {
        MapNot(k, c, o.id, i);
        return -5;
      }
      SetMapped(r, i);
      ghost var k1 := View();
      RequestOf(r);
      MapIs(k, c, o.id, i, k1);
      if r.requester.Some? {
        return 0;
      }
      var left := Outstanding(r);
      if !left {
        Free(o, r);
        DropIs(k1, o.id, r.id, View());
      }
      return 0;
    }

    // ---------------------------------------------------------------- closing

    /** `obj_closeP` of the current process: the last descriptor frees the object. */
    method Close(c: Tid, o: ObjectNode)
      requires Valid() && Inv(View()) && rest.current == Some(c) && Enabled(View(), Kernel.Close(o.id)) && o.id in objs
      requires objs[o.id] == o
      modifies this`objs, o`owner, o`holders
      ensures Valid() && Inv(View())
      ensures old(View().frequency > 0 && |View().irq| == IRQS) && View() == Step(old(View()), Kernel.Close(o.id))
      ensures o.id !in objs <==>
                && old(o.holders) == {old(rest.threads)[c].process} &&
                    old(o.owner) in {None, Some(old(rest.threads)[c].process)}
                && !old(o.busyMutex)
    {
      hide Inv, Objs, Reqs, Valid, CloseDesc, Possible, Enabled, Step;
      ghost var k := View();
      Ready(k);
      StepInv(k, Kernel.Close(o.id));
      CloseStarts(k, c, o.id);
      SlotNode(o);
      NodeOf(o);
      CloseOf(o, rest.threads[c].process);
    }

    /** One descriptor less; without any, an unlocked object that no other process owns is freed. */
    method CloseOf(o: ObjectNode, p: Pid)
      requires Valid() && o.id in objs && objs[o.id] == o && o.holders != {}
      modifies this`objs, o`owner, o`holders
      ensures Valid() && o.id in old(View()).objects && View() == CloseDesc(old(View()), p, o.id)
      ensures o.id !in objs <==>
                old(o.holders) == {p} && old(o.owner) in {None, Some(p)} && !old(o.busyMutex) && old(o.request) == null
    {
      hide Objs, Reqs, Valid, CloseDesc;
      ghost var k := View();
      NodeOf(o);
      var hs := o.holders - {p};
      if hs == {} && (o.owner == Some(p) || o.owner.None?) && !o.busyMutex && o.request == null {
        CloseFrees(k, p, o.id);
        FreeObject(o, hs);
      } else {
        CloseKeeps(k, p, o.id);
        SetHolders(o, hs, if o.owner == Some(p) && hs != {} then None else o.owner);
      }
    }

    method SetHolders(o: ObjectNode, hs: set<Pid>, owner: Option<Pid>)
      requires Valid() && o.id in objs && objs[o.id] == o
      modifies o`owner, o`holders
      ensures Valid() && Objs() == old(Objs())[o.id := old(Objs())[o.id].(holders := hs, owner := owner)]
      ensures Reqs() == old(Reqs())
    {
      ghost var os := Objs();
      o.holders := hs;
      o.owner := owner;
      OneNode(o, os);
    }

    method FreeObject(o: ObjectNode, hs: set<Pid>)
      requires Valid() && o.id in objs && objs[o.id] == o
      modifies this`objs, o`holders
      ensures Valid() && objs == old(objs) - {o.id} && Objs() == old(Objs()) - {o.id} && Reqs() == old(Reqs())
    {
      o.holders := hs;
      objs := objs - {o.id};
    }
  }

  lemma AnswerIn(k: State, c: Tid, r: Rid)
    requires Inv(k) && k.current == Some(c) && c in k.threads && k.threads[c].cont == Awaiting(r)
    ensures r in k.requests && k.requests[r].status == Finished && k.frequency > 0
    ensures Resumed(k, c) == Kernel.TakeAnswer(k, c, r)
  {
    hide SleepOk, IrqOk, ReceiveOk, MailOk, LogOk, OrderOk, ContOk, Once, Waits;
  }

  /** What `request_answer` ignores. */
  lemma AnswerNot(k: State, c: Tid, o: Oid)
    requires c in k.threads && o in k.objects
    requires k.objects[o].owner != Some(k.threads[c].process) || k.objects[o].request.None? ||
             (k.objects[o].request.value in k.requests &&
              var rq := k.requests[k.objects[o].request.value]; rq.status == Pending || rq.requester.None?)
    ensures Answer(k, c, o) == k
  {
    hide WakeUp;
  }

  lemma AnswerIs(k: State, c: Tid, o: Oid, k0: State, l: State)
    requires c in k.threads && o in k.objects && k.objects[o].owner == Some(k.threads[c].process)
    requires k.objects[o].request.Some?
    requires var r := k.objects[o].request.value;
             && r in k.requests && k.requests[r].status != Pending && k.requests[r].requester.Some?
             && k0 == k.(requests := k.requests[r := k.requests[r].(status := Finished)])
             && l ==
                 WakeUp(k0,
                 k.requests[r].requester.value).(objects := k.objects[o := k.objects[o].(request := None,
                 locked := false)])
    ensures l == Answer(k, c, o)
  {
    hide WakeUp;
  }

  /** The refusals of `request_mapShm`. */
  lemma MapNot(k: State, c: Tid, o: Oid, i: nat)
    requires c in k.threads && o in k.objects
    requires i >= PARAMS || k.objects[o].owner != Some(k.threads[c].process) || k.objects[o].request.None? ||
             (k.objects[o].request.value in k.requests &&
              var rq := k.requests[k.objects[o].request.value]; rq.status == Pending || (i < |rq.sent| && !rq.sent[i]))
    ensures MapShm(k, c, o, i) == k
  {
    hide ToMap, Drop;
  }

  lemma MapIs(k: State, c: Tid, o: Oid, i: nat, k1: State)
    requires c in k.threads && o in k.objects && k.objects[o].owner == Some(k.threads[c].process)
    requires k.objects[o].request.Some? && i < PARAMS
    requires var r := k.objects[o].request.value;
             && r in k.requests && k.requests[r].status != Pending &&
                 |k.requests[r].sent| == |k.requests[r].mapped| == PARAMS
             && k.requests[r].sent[i] &&
                 k1 == k.(requests := k.requests[r := k.requests[r].(mapped := k.requests[r].mapped[i := true])])
    ensures var r := k.objects[o].request.value;
            MapShm(k, c, o, i) == if k1.requests[r].requester.Some? || ToMap(k1.requests[r]) then k1 else Drop(k1, o, r)
  {
    hide ToMap, Drop;
  }

  lemma CloseStarts(k: State, c: Tid, o: Oid)
    requires Enabled(k, Kernel.Close(o)) && k.current == Some(c) && k.frequency > 0 && |k.irq| == IRQS
    ensures Possible(k, Kernel.Close(o)) && c in k.threads && o in k.objects
    ensures k.threads[c].process in k.objects[o].holders
    ensures Step(k, Kernel.Close(o)) == CloseDesc(k, k.threads[c].process, o)
  {
    hide CloseDesc;
  }

  lemma CloseKeeps(k: State, p: Pid, o: Oid)
    requires o in k.objects && !Frees(k.objects[o], p)
    ensures var ob := k.objects[o];
            var hs := ob.holders - {p};
            CloseDesc(k, p, o) ==
            k.(objects := k.objects[o := ob.(holders := hs, owner := if ob.owner == Some(p) && hs != {} then None
                                                                     else ob.owner)])
  {
  }

  lemma CloseFrees(k: State, p: Pid, o: Oid)
    requires o in k.objects && Frees(k.objects[o], p)
    ensures CloseDesc(k, p, o) == k.(objects := k.objects - {o})
  {
    assert forall ob: Object {:trigger k.objects[o := ob]} :: k.objects[o := ob] - {o} == k.objects - {o};
  }

  /** The descriptors of `p` are the last, and nobody else uses the object. */
  predicate Frees(ob: Object, p: Pid)
  {
    ob.holders - {p} == {} && (ob.owner == Some(p) || ob.owner.None?) && !ob.locked && ob.request.None?
  }

  lemma PostedNode(k: State, c: Tid, call: Call)
    requires Inv(k) && c in k.threads && call.obj in k.objects && k.frequency > 0 && !k.objects[call.obj].locked
    requires k.objects[call.obj].owner.Some?
    ensures var l := Kernel.MakeRequest(k, c, call);
            && call.obj in l.objects && l.objects[call.obj].request == Some(k.nextRq) && k.nextRq in l.requests
            && l.requests[k.nextRq].status == Pending
  {
    hide Inv, WakeUp, Switch, Post;
    SlotFilled(k, c, call);
  }

  lemma SlotFilled(k: State, c: Tid, call: Call)
    requires c in k.threads && call.obj in k.objects
    ensures var l := Post(k, c, call);
            && c in l.threads && call.obj in l.objects && l.objects[call.obj].request == Some(k.nextRq)
            && k.nextRq in l.requests && l.requests[k.nextRq].status == Pending
  {
    hide WakeUp;
  }

  /** The request is in the slot, and the receiver has not been woken yet. */
  ghost function Attached(k: State, c: Tid, call: Call): State
    requires c in k.threads && call.obj in k.objects
  {
    var o, r := call.obj, k.nextRq;
    k.(requests := k.requests[r := NewRequest(k, c, call)],
       objects := k.objects[o := k.objects[o].(request := Some(r), wakeupOnRq := None)],
       created := k.created[o := (if o in k.created then k.created[o] else []) + [r]],
       nextRq := r + 1)
  }

  lemma PostIs(k: State, c: Tid, call: Call)
    requires c in k.threads && call.obj in k.objects && k.objects[call.obj].locked
    ensures var w, k1 := k.objects[call.obj].wakeupOnRq, Attached(k, c, call);
            Post(k, c, call) == if w.Some? then WakeUp(k1, w.value) else k1
  {
    hide WakeUp, NewRequest;
    assert k.objects[call.obj].(locked := true) == k.objects[call.obj];
  }

  /** Taking the mutex first makes no difference to what is posted. */
  lemma LockedFirst(k: State, c: Tid, call: Call, k1: State)
    requires c in k.threads && call.obj in k.objects
    requires k1 == k.(objects := k.objects[call.obj := k.objects[call.obj].(locked := true)])
    ensures Post(k1, c, call) == Post(k, c, call)
  {
    hide WakeUp;
    var o, r := call.obj, k.nextRq;
    assert NewRequest(k1, c, call) == NewRequest(k, c, call);
    assert k1.objects[o := k1.objects[o].(locked := true, request := Some(r), wakeupOnRq := None)]
        == k.objects[o := k.objects[o].(locked := true, request := Some(r), wakeupOnRq := None)];
  }

  lemma PosterStays(k: State, c: Tid, call: Call)
    requires c in k.threads && call.obj in k.objects
    ensures c in Post(k, c, call).threads
  {
    hide WakeUp;
  }

  lemma NextNew(k: State)
    requires Inv(k)
    ensures k.nextRq !in k.requests
  {
    hide SchedInv, SleepOk, IrqOk, ReceiveOk, AwaitOk, LogOk, OrderOk, ContOk;
  }

  lemma ResumeMeans(k: State, c: Tid, o: Oid)
    requires Inv(k) && k.current == Some(c) && c in k.threads && k.threads[c].running
    requires k.threads[c].cont == Receiving(o) && o in k.objects
    ensures k.frequency > 0 && Resumed(k, c) == Receive(k, c, o) && Handed(k, Receive(k, c, o), c, o)
  {
    hide SchedInv, SleepOk, IrqOk, AwaitOk, OrderOk, ContOk, Switch, Contains;
    SlotAt(k, o);
  }


  /** The thread has been handed the request that was pending, as the next of its object. */
  ghost predicate Handed(k: State, l: State, c: Tid, o: Oid)
  {
    && PendingAt(k.objects, k.requests, o) && o in k.delivered && o in l.delivered
    && l.delivered[o] == k.delivered[o] + [k.objects[o].request.value]
    && c in l.threads && l.threads[c].running && l.threads[c].cont == InUser && l.current == k.current
  }

  /** The thread is blocked, and the next request will wake it. */
  ghost predicate Blocked(l: State, c: Tid, o: Oid)
  {
    && c in l.threads && !l.threads[c].running && l.threads[c].cont == Receiving(o)
    && o in l.objects && l.objects[o].wakeupOnRq == Some(c) && l.objects[o].request.None?
  }

  lemma GetMeans(k: State, c: Tid, o: Oid)
    requires Inv(k) && c in k.threads && k.threads[c].running && k.threads[c].cont == InUser && o in k.objects
    requires k.objects[o].request.Some? ==> PendingAt(k.objects, k.requests, o)
    ensures Handed(k, Receive(k, c, o), c, o) || Blocked(Receive(k, c, o), c, o)
  {
    hide SchedInv, SleepOk, IrqOk, ReceiveOk, AwaitOk, MailOk, OrderOk, ContOk, Switch, Contains;
    SlotAt(k, o);
  }
}
