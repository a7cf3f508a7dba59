/**
 A run from boot in which two threads of one process receive on one object, and the second is handed the request that
 the first is already processing.
 */
module KernelTwoReceivers {
  import opened Common
  import opened Kernel
  import opened KernelInv
  import opened KernelRuns

  /** Threads 1 and 2 belong to the owner of the object, thread 3 to another process. */
  function Crew(): Threads { map[0 := Idle(), 1 := User(1), 2 := User(1), 3 := User(2)] }

  function Waiting(): Threads { Crew()[1 := User(1).(running := false, cont := Receiving(O))] }

  function Asked(): Threads
  {
    Crew()[1 := User(1).(cont := Receiving(O))][3 := User(2).(running := false, cont := Awaiting(0))]
  }

  function Done(): Threads { Asked()[1 := User(1)] }

  function Slot(locked: bool, request: Option<Rid>, wakeup: Option<Tid>): Objects
  {
    map[O := Object(Some(1), {1, 2}, locked, request, wakeup)]
  }

  function Mail(status: Status): Requests
  {
    map[0 := Request(O, Some(3), status, [false, false, false], [false, false, false])]
  }

  function Start(): State { Snap(map[0 := Idle()], None, [], map[], map[], 0, 0, map[], map[]) }

  function Ready(ticks: nat, c: Tid,
      q: seq<Tid>): State { Snap(Crew(), Some(c), q, map[], map[], 0, ticks, map[], map[]) }

  function WithObject(): State
  {
    Snap(Crew(), Some(1), [2, 3], Slot(false, None, None), map[], 0, 2, map[O := []], map[O := []])
  }

  function Blocked(c: Tid, q: seq<Tid>, ticks: nat): State
  {
    Snap(Waiting(), Some(c), q, Slot(false, None, Some(1)), map[], 0, ticks, map[O := []], map[O := []])
  }

  function Posted(): State
  {
    Snap(Asked(), Some(2), [1], Slot(true, Some(0), None), Mail(Pending), 1, 3, map[O := [0]], map[O := []])
  }

  function Taken(c: Tid, q: seq<Tid>, ticks: nat): State
  {
    Snap(Asked(), Some(c), q, Slot(true, Some(0), None), Mail(Processed), 1, ticks, map[O := [0]], map[O := [0]])
  }

  function End(): State
  {
    Snap(Done(), Some(1), [2], Slot(true, Some(0), None), Mail(Processed), 1, 4, map[O := [0]], map[O := [0, 0]])
  }

  // ---------------------------------------------------------------- boot

  lemma FirstTick()
    ensures Does(Snap(Crew(), None, [1, 2, 3], map[], map[], 0, 0, map[], map[]), Irq(0), Ready(1, 0, [1, 2, 3]))
  {
    BootTick(Crew(), [1, 2, 3]);
  }

  // ---------------------------------------------------------------- the object and its first receiver

  lemma Creates()
    ensures var k, m := Ready(2, 1, [2, 3]), Step(Ready(2, 1, [2, 3]), NewObject(O));
            && Possible(k, NewObject(O)) && k.frequency > 0 && |k.irq| == IRQS
            && Possible(m, Grant(O, 2)) && m.frequency > 0 && |m.irq| == IRQS && Step(m, Grant(O, 2)) == WithObject()
  {
    var k := Ready(2, 1, [2, 3]);
    var m := Step(k, NewObject(O));
    assert m.objects == map[O := Object(Some(1), {1}, false, None, None)];
    assert {1} + {2} == {1, 2};
  }

  lemma FirstWaits()
    ensures var k := WithObject();
            && Possible(k, Fetch(O, true)) && k.frequency > 0 && |k.irq| == IRQS &&
                Step(k, Fetch(O, true)) == Blocked(2, [3], 2)
  {
    hide Switch;
    var k := WithObject();
    SwitchSnap(Waiting(), 1, [2, 3], Slot(false, None, Some(1)), map[], 0, 2, map[O := []], map[O := []]);
    assert k.objects[O := k.objects[O].(wakeupOnRq := Some(1))] == Slot(false, None, Some(1));
    assert [2, 3][1..] == [3];
  }

  // ---------------------------------------------------------------- the request, and both receivers

  lemma Asks()
    ensures var k := Blocked(3, [2], 3);
            && Possible(k, Ask(CALL)) && k.frequency > 0 && |k.irq| == IRQS && Step(k, Ask(CALL)) == Posted()
  {
    hide Switch;
    var k := Blocked(3, [2], 3);
    var p := Post(k, 3, CALL);
    Wakes(k, p);
    SwitchSnap(Asked(), 3, [2, 1], Slot(true, Some(0), None), Mail(Pending), 1, 3, map[O := [0]], map[O := []]);
    assert Crew()[1 := User(1).(cont := Receiving(O))][3 := User(2).(running := false, cont := Awaiting(0))] == Asked();
    assert [2, 1][1..] == [1];
  }

  lemma Wakes(k: State, p: State)
    requires k == Blocked(3, [2], 3) && p == Post(k, 3, CALL)
    ensures p ==
            Snap(Crew()[1 := User(1).(cont := Receiving(O))], Some(3), [2, 1], Slot(true, Some(0), None),
            Mail(Pending), 1, 3,
                      map[O := [0]], map[O := []])
  {
    assert k.objects[O := k.objects[O].(locked := true, request := Some(0), wakeupOnRq := None)] ==
           Slot(true, Some(0), None);
    assert k.requests[0 := NewRequest(k, 3, CALL)] == Mail(Pending);
    assert Waiting()[1 := Waiting()[1].(running := true)] == Crew()[1 := User(1).(cont := Receiving(O))];
    var two: seq<Tid> := [2];
    assert two + [1] == [2, 1] && k.queues[2] == two;
    assert k.queues[2 := two + [1]] == [[], [], [2, 1], []];
    assert k.created[O] + [0] == [0] && k.created[O := [0]] == map[O := [0]];
  }

  lemma SecondTakes()
    ensures var k := Posted();
            && Possible(k, Fetch(O, true)) && k.frequency > 0 && |k.irq| == IRQS &&
                Step(k, Fetch(O, true)) == Taken(2, [1], 3)
  {
    var k := Posted();
    assert k.requests[0 := k.requests[0].(status := Processed)] == Mail(Processed);
    assert k.threads[2 := k.threads[2].(cont := InUser)] == Asked();
    assert k.delivered[O] + [0] == [0] && k.delivered[O := [0]] == map[O := [0]];
  }

  lemma FirstTakesAgain()
    ensures var k := Taken(1, [2], 4);
            && Possible(k, Resume) && k.frequency > 0 && |k.irq| == IRQS && Step(k, Resume) == End()
  {
    var k := Taken(1, [2], 4);
    assert k.requests[0 := k.requests[0].(status := Processed)] == Mail(Processed);
    assert k.threads[1 := k.threads[1].(cont := InUser)] == Done();
    assert k.delivered[O] + [0] == [0, 0] && k.delivered[O := [0, 0]] == map[O := [0, 0]];
  }

  // ---------------------------------------------------------------- the whole run

  function Opening(): seq<Action> { [NewThread(1, 1, 2), NewThread(2, 1, 2), NewThread(3, 2, 2), Irq(0), Irq(0)] }

  function Middle(): seq<Action> { [NewObject(O), Grant(O, 2), Fetch(O, true), Irq(0)] }

  function Ending(): seq<Action> { [Ask(CALL), Fetch(O, true), Irq(0), Resume] }

  /** The ticks of the run. */
  lemma Ticks()
    ensures Ticked(Ready(1, 0, [1, 2, 3]), Ready(2, 1, [2, 3]))
    ensures Ticked(Blocked(2, [3], 2), Blocked(3, [2], 3))
    ensures Ticked(Taken(2, [1], 3), Taken(1, [2], 4))
  {
    hide Step, Possible;
    TickSnap(Crew(), 0, [1, 2, 3], map[], map[], 0, 1, map[], map[]);
    assert [1, 2, 3][1..] == [2, 3];
    TickSnap(Waiting(), 2, [3], Slot(false, None, Some(1)), map[], 0, 2, map[O := []], map[O := []]);
    assert ([3] + [2])[1..] == [2];
    TickSnap(Asked(), 2, [1], Slot(true, Some(0), None), Mail(Processed), 1, 3, map[O := [0]], map[O := [0]]);
    assert ([1] + [2])[1..] == [2];
  }

  ghost predicate Ticked(k: State, l: State) { Does(k, Irq(0), l) }

  lemma EndingHappens()
    ensures Happens(Blocked(3, [2], 3), Ending(), End())
  {
    hide Possible, Step, Happens, Snap;
    NoMore(End());
    Asks();
    SecondTakes();
    Ticks();
    FirstTakesAgain();
    Then(Taken(1, [2], 4), Resume, End(), [], End());
    assert [Resume] + [] == [Resume];
    Then(Taken(2, [1], 3), Irq(0), Taken(1, [2], 4), [Resume], End());
    Then(Posted(), Fetch(O, true), Taken(2, [1], 3), [Irq(0)] + [Resume], End());
    Then(Blocked(3, [2], 3), Ask(CALL), Posted(), [Fetch(O, true)] + ([Irq(0)] + [Resume]), End());
    assert Ending() == [Ask(CALL)] + ([Fetch(O, true)] + ([Irq(0)] + [Resume]));
  }

  lemma MiddleHappens()
    ensures Happens(Ready(2, 1, [2, 3]), Middle() + Ending(), End())
  {
    EndingHappens();
    hide Possible, Step, Happens, Snap, Ending;
    Creates();
    FirstWaits();
    Ticks();
    var e := Ending();
    Then(Blocked(2, [3], 2), Irq(0), Blocked(3, [2], 3), e, End());
    Then(WithObject(), Fetch(O, true), Blocked(2, [3], 2), [Irq(0)] + e, End());
    var m := Step(Ready(2, 1, [2, 3]), NewObject(O));
    Then(m, Grant(O, 2), WithObject(), [Fetch(O, true)] + ([Irq(0)] + e), End());
    Then(Ready(2, 1, [2, 3]), NewObject(O), m, [Grant(O, 2)] + ([Fetch(O, true)] + ([Irq(0)] + e)), End());
    assert Middle() + e == [NewObject(O)] + ([Grant(O, 2)] + ([Fetch(O, true)] + ([Irq(0)] + e)));
  }

  lemma OpeningHappens()
    ensures Happens(Start(), Opening() + (Middle() + Ending()), End())
  {
    MiddleHappens();
    hide Possible, Step, Happens, Ending, Middle;
    var r := Middle() + Ending();
    var t1, t2, t3 := map[0 := Idle()][1 := User(1)], map[0 := Idle()][1 := User(1)][2 := User(1)], Crew();
    Join(map[0 := Idle()], [], 1, 1);
    Join(t1, [1], 2, 1);
    Join(t2, [1, 2], 3, 2);
    assert t2[3 := User(2)] == t3 && [] + [1] == [1] && [1] + [2] == [1, 2] && [1, 2] + [3] == [1, 2, 3];
    FirstTick();
    Ticks();
    hide Snap, Crew;
    Then(Ready(1, 0, [1, 2, 3]), Irq(0), Ready(2, 1, [2, 3]), r, End());
    Then(Snap(t3, None, [1, 2, 3], map[], map[], 0, 0, map[], map[]), Irq(0), Ready(1, 0, [1, 2, 3]), [Irq(0)] + r,
        End());
    Then(Snap(t2, None, [1, 2], map[], map[], 0, 0, map[], map[]), NewThread(3, 2, 2),
         Snap(t3, None, [1, 2, 3], map[], map[], 0, 0, map[], map[]), [Irq(0)] + ([Irq(0)] + r), End());
    Then(Snap(t1, None, [1], map[], map[], 0, 0, map[], map[]), NewThread(2, 1, 2),
         Snap(t2, None, [1, 2], map[], map[], 0, 0, map[], map[]), [NewThread(3, 2, 2)] + ([Irq(0)] + ([Irq(0)] + r)),
             End());
    Then(Start(), NewThread(1, 1, 2), Snap(t1, None, [1], map[], map[], 0, 0, map[], map[]),
         [NewThread(2, 1, 2)] + ([NewThread(3, 2, 2)] + ([Irq(0)] + ([Irq(0)] + r))), End());
    assert Opening() + r ==
           [NewThread(1, 1, 2)] + ([NewThread(2, 1, 2)] + ([NewThread(3, 2, 2)] + ([Irq(0)] + ([Irq(0)] + r))));
  }

  /** From boot the run can happen, and it ends with the one request handed out twice. */
  lemma DeliveredTwice()
    ensures Initial(Start()) && Happens(Start(), Opening() + (Middle() + Ending()), End())
    ensures End().created[O] == [0] && End().delivered[O] == [0, 0]
  {
    OpeningHappens();
    hide Happens, Opening, Middle, Ending;
  }
}
