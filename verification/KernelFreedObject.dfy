/**
 A run from boot in which an object is freed while a thread sleeps in `mutex_lock` on it: thread 1 sends two messages to
 its own object and blocks on the second; thread 2 of the same process receives the first and closes the object.
 */
module KernelFreedObject {
  import opened Common
  import opened Timer
  import opened Kernel
  import opened KernelInv
  import opened KernelFaults
  import opened KernelRuns

  const MESSAGE: Call := Call(O, false, [false, false, false])

  function Pair(): Threads { map[0 := Idle(), 1 := User(1), 2 := User(1)] }

  function Stuck(): Threads { Pair()[1 := User(1).(running := false, cont := Locking(MESSAGE))] }

  function Own(locked: bool, request: Option<Rid>): Objects
  {
    map[O := Object(Some(1), {1}, locked, request, None)]
  }

  function Letter(): Requests
  {
    map[0 := Request(O, None, Pending, [false, false, false], [false, false, false])]
  }

  function Start(): State { Snap(map[0 := Idle()], None, [], map[], map[], 0, 0, map[], map[]) }

  function Ready(ticks: nat, c: Tid, q: seq<Tid>): State
  {
    Snap(Pair(), Some(c), q, map[], map[], 0, ticks, map[], map[])
  }

  function Made(): State { Snap(Pair(), Some(1), [2], Own(false, None), map[], 0, 2, map[O := []], map[O := []]) }

  function Sent(): State { Snap(Pair(), Some(1), [2], Own(true, Some(0)), Letter(), 1, 2, map[O := [0]], map[O := []]) }

  function Sleeping(k: State): State { k.(sleepers := [Sleeper(3, 1)]) }

  function Asleep(): State
  {
    Sleeping(Snap(Stuck(), Some(2), [], Own(true, Some(0)), Letter(), 1, 2, map[O := [0]], map[O := []]))
  }

  function Received(): State
  {
    Sleeping(Snap(Stuck(), Some(2), [], Own(false, None), map[], 1, 2, map[O := [0]], map[O := [0]]))
  }

  function Freed(): State { Sleeping(Snap(Stuck(), Some(2), [], map[], map[], 1, 2, map[O := [0]], map[O := [0]])) }

  // ---------------------------------------------------------------- step by step

  lemma FirstTick()
    ensures Does(Snap(Pair(), None, [1, 2], map[], map[], 0, 0, map[], map[]), Irq(0), Ready(1, 0, [1, 2]))
  {
    BootTick(Pair(), [1, 2]);
  }

  lemma SecondTick()
    ensures Does(Ready(1, 0, [1, 2]), Irq(0), Ready(2, 1, [2]))
  {
    hide Step, Possible;
    TickSnap(Pair(), 0, [1, 2], map[], map[], 0, 1, map[], map[]);
    assert [1, 2][1..] == [2];
  }

  lemma Creates()
    ensures Does(Ready(2, 1, [2]), NewObject(O), Made())
  {
  }

  lemma Sends()
    ensures Does(Made(), Ask(MESSAGE), Sent())
  {
    var k := Made();
    assert k.objects[O := k.objects[O].(locked := true, request := Some(0), wakeupOnRq := None)] == Own(true, Some(0));
    assert k.requests[0 := NewRequest(k, 1, MESSAGE)] == Letter();
    assert k.created[O] + [0] == [0] && k.created[O := [0]] == map[O := [0]];
    assert k.threads[1 := k.threads[1].(cont := InUser)] == Pair();
  }

  lemma Blocks()
    ensures Does(Sent(), Ask(MESSAGE), Asleep())
  {
    hide Switch;
    var k := Sent();
    assert Now(k) == 2;
    assert Entered(k.sleepers, Sleeper(3, 1)) == [Sleeper(3, 1)];
    OneLeft(Stuck(), 1, 2, Own(true, Some(0)), Letter(), 1, 2, map[O := [0]], map[O := []], [Sleeper(3, 1)]);
  }

  lemma Receives()
    ensures Does(Asleep(), Fetch(O, false), Received())
  {
    var k := Asleep();
    assert k.delivered[O] + [0] == [0] && k.delivered[O := [0]] == map[O := [0]];
    assert k.threads[2 := k.threads[2].(cont := InUser)] == Stuck();
    assert k.requests[0 := k.requests[0].(status := Processed)] - {0} == map[];
    assert k.objects[O := k.objects[O].(locked := false, request := None)] == Own(false, None);
  }

  lemma Closes()
    ensures Does(Received(), Close(O), Freed())
  {
    var k := Received();
    assert k.objects[O].holders - {1} == {};
    assert k.objects[O := k.objects[O].(holders := {})] - {O} == map[];
  }

  // ---------------------------------------------------------------- the whole run

  function Opening(): seq<Action> { [NewThread(1, 1, 2), NewThread(2, 1, 2), Irq(0), Irq(0)] }

  function Rest(): seq<Action> { [NewObject(O), Ask(MESSAGE), Ask(MESSAGE), Fetch(O, false), Close(O)] }

  lemma RestHappens()
    ensures Happens(Ready(2, 1, [2]), Rest(), Freed())
  {
    hide Possible, Step, Happens, Snap;
    NoMore(Freed());
    Creates();
    Sends();
    Blocks();
    Receives();
    Closes();
    Then(Received(), Close(O), Freed(), [], Freed());
    assert [Close(O)] + [] == [Close(O)];
    Then(Asleep(), Fetch(O, false), Received(), [Close(O)], Freed());
    Then(Sent(), Ask(MESSAGE), Asleep(), [Fetch(O, false)] + [Close(O)], Freed());
    Then(Made(), Ask(MESSAGE), Sent(), [Ask(MESSAGE)] + ([Fetch(O, false)] + [Close(O)]), Freed());
    Then(Ready(2, 1, [2]), NewObject(O), Made(), [Ask(MESSAGE)] + ([Ask(MESSAGE)] + ([Fetch(O, false)] + [Close(O)])),
         Freed());
    assert Rest() == [NewObject(O)] + ([Ask(MESSAGE)] + ([Ask(MESSAGE)] + ([Fetch(O, false)] + [Close(O)])));
  }

  lemma OpeningHappens()
    ensures Happens(Start(), Opening() + Rest(), Freed())
  {
    RestHappens();
    hide Possible, Step, Happens, Rest;
    var r, t0, t1 := Rest(), map[0 := Idle()], map[0 := Idle()][1 := User(1)];
    Join(t0, [], 1, 1);
    Join(t1, [1], 2, 1);
    assert t1[2 := User(1)] == Pair() && [] + [1] == [1] && [1] + [2] == [1, 2];
    FirstTick();
    SecondTick();
    hide Snap, Pair;
    var both := Snap(Pair(), None, [1, 2], map[], map[], 0, 0, map[], map[]);
    var one := Snap(t1, None, [1], map[], map[], 0, 0, map[], map[]);
    Then(Ready(1, 0, [1, 2]), Irq(0), Ready(2, 1, [2]), r, Freed());
    Then(both, Irq(0), Ready(1, 0, [1, 2]), [Irq(0)] + r, Freed());
    Then(one, NewThread(2, 1, 2), both, [Irq(0)] + ([Irq(0)] + r), Freed());
    Then(Start(), NewThread(1, 1, 2), one, [NewThread(2, 1, 2)] + ([Irq(0)] + ([Irq(0)] + r)), Freed());
    assert Opening() + r == [NewThread(1, 1, 2)] + ([NewThread(2, 1, 2)] + ([Irq(0)] + ([Irq(0)] + r)));
  }

  /** From boot the run can happen, and it ends with thread 1 asleep in `mutex_lock` on an object that is no more. */
  lemma FreedWhileWanted()
    ensures Initial(Start()) && Happens(Start(), Opening() + Rest(), Freed()) && Doomed(Freed(), 1)
  {
    OpeningHappens();
    hide Happens, Opening, Rest;
  }
}
