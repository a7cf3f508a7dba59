/** Runs given action by action, for showing that a state can be reached from boot. */
module KernelRuns {
  import opened Common
  import opened Queues
  import opened Timer
  import opened Kernel
  import opened KernelInv

  /** The actions `actions` can happen one after the other, and lead from `k` to `l`. */
  ghost predicate Happens(k: State, actions: seq<Action>, l: State)
    decreases |actions|
  {
    if actions == [] then k == l
    else Possible(k, actions[0]) && k.frequency > 0 && |k.irq| == IRQS && Happens(Step(k, actions[0]), actions[1..], l)
  }

  lemma NoMore(k: State)
    ensures Happens(k, [], k)
  {
  }

  lemma Then(k: State, a: Action, m: State, rest: seq<Action>, l: State)
    requires Possible(k, a) && k.frequency > 0 && |k.irq| == IRQS && Step(k, a) == m && Happens(m, rest, l)
    ensures Happens(k, [a] + rest, l)
  {
    hide Possible, Step;
    assert ([a] + rest)[1..] == rest;
  }

  const O: Oid := 7
  const CALL: Call := Call(7, true, [false, false, false])

  function Idle(): Thread { Thread(0, 0, true, InUser) }

  function User(process: Pid): Thread { Thread(process, 2, true, InUser) }

  /** A system with the idle thread 0 and the threads `ts`, of which those in `q` are ready at priority 2. */
  function Snap(ts: Threads, current: Option<Tid>, q: seq<Tid>, os: Objects, rs: Requests, next: Rid, ticks: nat,
                created: map<Oid, seq<Rid>>, delivered: map<Oid, seq<Rid>>): State
  {
    State(ts, current, 0, [if current.None? then [0] else [], [], q, []], [], seq(IRQS, _ => []), os, rs, next, ticks,
        1000,
          created, delivered, false)
  }

  /** The queues seen by the next switch, and what it takes. */
  lemma SwitchSnap(ts: Threads, c: Tid, q: seq<Tid>, os: Objects, rs: Requests, next: Rid, ticks: nat,
                   created: map<Oid, seq<Rid>>, delivered: map<Oid, seq<Rid>>)
    requires 0 in ts && c in ts && q != []
    requires c != 0 && ts[c].running ==> ts[c].priority == 2
    ensures var q1 := if c != 0 && ts[c].running then q + [c] else q;
            Switch(Snap(ts, Some(c), q, os, rs, next, ticks, created, delivered)) ==
            Snap(ts, Some(q1[0]), q1[1..], os, rs, next, ticks, created, delivered)
  {
    var q1 := if c != 0 && ts[c].running then q + [c] else q;
    var qs: seq<seq<Tid>> := [[], [], q1, []];
    LevelIs(qs, 2);
    assert [[], [], q, []][2 := q1] == qs;
    assert qs[2 := q1[1..]] == [[], [], q1[1..], []];
  }

  /** A tick with nobody asleep and nobody waiting for the interrupt. */
  lemma TickSnap(ts: Threads, c: Tid, q: seq<Tid>, os: Objects, rs: Requests, next: Rid, ticks: nat,
                 created: map<Oid, seq<Rid>>, delivered: map<Oid, seq<Rid>>)
    requires 0 in ts && c in ts && q != [] && ts[c].cont == InUser
    requires c != 0 && ts[c].running ==> ts[c].priority == 2
    ensures var k := Snap(ts, Some(c), q, os, rs, next, ticks, created, delivered);
            var q1 := if c != 0 && ts[c].running then q + [c] else q;
            && Possible(k, Irq(0)) && k.frequency > 0 && |k.irq| == IRQS
            && Step(k, Irq(0)) == Snap(ts, Some(q1[0]), q1[1..], os, rs, next, ticks + 1, created, delivered)
  {
    hide Switch, WakeUp, TimeAt;
    var k := Snap(ts, Some(c), q, os, rs, next, ticks, created, delivered);
    assert k.irq[0 := []] == k.irq;
    SwitchSnap(ts, c, q, os, rs, next, ticks + 1, created, delivered);
    assert k.sleepers[0..] == [] && Timer.Threads(k.sleepers[..0]) == [];
    assert Interrupt(k, 0) == Switch(k.(ticks := ticks + 1));
  }

  ghost predicate Does(k: State, a: Action, l: State)
  {
    Possible(k, a) && k.frequency > 0 && |k.irq| == IRQS && Step(k, a) == l
  }

  lemma Join(ts: Threads, q: seq<Tid>, t: Tid, p: Pid)
    requires t !in ts && t != 0
    ensures var k := Snap(ts, None, q, map[], map[], 0, 0, map[], map[]);
            && Possible(k, NewThread(t, p, 2)) && k.frequency > 0 && |k.irq| == IRQS
            && Step(k, NewThread(t, p, 2)) == Snap(ts[t := User(p)], None, q + [t], map[], map[], 0, 0, map[], map[])
  {
    assert [[0], [], q, []][2 := q + [t]] == [[0], [], q + [t], []];
  }

  /** The first tick takes the idle thread out of its queue. */
  lemma BootTick(ts: Threads, q: seq<Tid>)
    ensures Does(Snap(ts, None, q, map[], map[], 0, 0, map[], map[]), Irq(0),
                 Snap(ts, Some(0), q, map[], map[], 0, 1, map[], map[]))
  {
    hide WakeUp, TimeAt;
    var k := Snap(ts, None, q, map[], map[], 0, 0, map[], map[]);
    assert k.irq[0 := []] == k.irq;
    assert k.sleepers[0..] == [] && Timer.Threads(k.sleepers[..0]) == [];
    LevelIs(k.queues, 0);
    assert [[0], [], q, []][0 := []] == [[], [], q, []];
    assert [0][1..] == [];
  }

  /** A switch away from a blocked thread `c` to the only one that is ready. */
  lemma OneLeft(ts: Threads, c: Tid, d: Tid, os: Objects, rs: Requests, next: Rid, ticks: nat,
                created: map<Oid, seq<Rid>>, delivered: map<Oid, seq<Rid>>, l: seq<Sleeper>)
    requires c in ts && !ts[c].running
    ensures Switch(Snap(ts, Some(c), [d], os, rs, next, ticks, created, delivered).(sleepers := l)) ==
            Snap(ts, Some(d), [], os, rs, next, ticks, created, delivered).(sleepers := l)
  {
    var qs: seq<seq<Tid>> := [[], [], [d], []];
    LevelIs(qs, 2);
    var one: seq<Tid> := [d];
    assert one[1..] == [];
    assert qs[2 := one[1..]] == [[], [], [], []];
  }
}
