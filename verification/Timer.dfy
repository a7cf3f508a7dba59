/**
 The timer: the millisecond clock derived from ticks, and the list of sleeping threads sorted by
 deadline, with what holds over every run of ticks and sleeps. `Clocks` updates them in place.
 */
module Timer {
  /** A sleeping thread and the time at which it is to be woken. */
  datatype Sleeper = Sleeper(deadline: nat, thread: nat)

  /** Whole milliseconds passed after `n` ticks of a timer of `f` ticks per second. */
  function TimeAt(n: nat, f: nat): nat
    requires f > 0
  {
    1000 * n / f
  }

  lemma TimeMonotone(m: nat, n: nat, f: nat)
    requires f > 0 && m <= n
    ensures TimeAt(m, f) <= TimeAt(n, f)
  {
    var a, b := 1000 * m / f, 1000 * n / f;
    assert 1000 * m == f * a + 1000 * m % f && 1000 * n == f * b + 1000 * n % f;
    if b < a {
      Scale(f, b + 1, a);
    }
  }

  lemma Scale(f: nat, x: int, y: int)
    requires x <= y
    ensures f * x <= f * y
  {
    assert f * (y - x) >= 0;
  }

  /** Seconds and the ticks of the current second give the same milliseconds as all ticks together. */
  lemma TimeOfParts(uptime: nat, tick: nat, f: nat)
    requires f > 0
    ensures uptime * 1000 + tick * 1000 / f == TimeAt(uptime * f + tick, f)
  {
    var x := tick * 1000;
    var q, r := x / f, x % f;
    assert x == f * q + r;
    assert 1000 * (uptime * f + tick) == f * (uptime * 1000 + q) + r;
    QuotientIs(f, uptime * 1000 + q, r);
  }

  lemma QuotientIs(f: nat, d: int, r: int)
    requires 0 <= r < f
    ensures (f * d + r) / f == d
  {
    var v := f * d + r;
    var q, s := v / f, v % f;
    assert v == f * q + s;
    if q < d {
      Scale(f, q + 1, d);
    } else if d < q {
      Scale(f, d + 1, q);
    }
  }

  function Threads(l: seq<Sleeper>): (ts: seq<nat>)
    ensures |ts| == |l| && forall i :: 0 <= i < |l| ==> ts[i] == l[i].thread
  {
    seq(|l|, i requires 0 <= i < |l| => l[i].thread)
  }

  ghost predicate Sorted(l: seq<Sleeper>)
  {
    forall i, j :: 0 <= i < j < |l| ==> l[i].deadline <= l[j].deadline
  }

  /** Entered before the first sleeper whose deadline is not earlier. */
  function Entered(l: seq<Sleeper>, x: Sleeper): seq<Sleeper>
  {
    if l == [] || l[0].deadline >= x.deadline then [x] + l else [l[0]] + Entered(l[1..], x)
  }

  lemma EnteredAt(l: seq<Sleeper>, x: Sleeper, k: nat)
    requires k <= |l| && (forall i :: 0 <= i < k ==> l[i].deadline < x.deadline) &&
             (k < |l| ==> l[k].deadline >= x.deadline)
    ensures Entered(l, x) == l[..k] + [x] + l[k..]
  {
    if k > 0 {
      EnteredAt(l[1..], x, k - 1);
      assert l[..k] == [l[0]] + l[1..][..k - 1] && l[1..][k - 1..] == l[k..];
    }
  }

  lemma {:induction false} EnteredMembers(l: seq<Sleeper>, x: Sleeper)
    ensures multiset(Entered(l, x)) == multiset(l) + multiset{x}
    ensures forall y :: y in Entered(l, x) <==> y in l || y == x
  {
    if l == [] || l[0].deadline >= x.deadline {
    } else {
      EnteredMembers(l[1..], x);
      assert l == [l[0]] + l[1..];
    }
  }

  lemma {:induction false} EnteredSorted(l: seq<Sleeper>, x: Sleeper)
    requires Sorted(l)
    ensures Sorted(Entered(l, x))
  {
    if l == [] || l[0].deadline >= x.deadline {
    } else {
      var r := Entered(l[1..], x);
      EnteredSorted(l[1..], x);
      EnteredMembers(l[1..], x);
      forall i | 0 <= i < |r|
        ensures l[0].deadline <= r[i].deadline
      {
        assert r[i] == x || r[i] in l[1..];
      }
    }
  }

  /** The sleepers due at `time`: the prefix that the wake-up loop takes off the list. */
  function Due(l: seq<Sleeper>, time: nat): (k: nat)
    ensures k <= |l| && (forall i :: 0 <= i < k ==> l[i].deadline <= time) && (k < |l| ==> l[k].deadline > time)
  {
    if l == [] || l[0].deadline > time then 0 else 1 + Due(l[1..], time)
  }

  lemma DueIs(l: seq<Sleeper>, time: nat, k: nat)
    requires k <= |l| && (forall i :: 0 <= i < k ==> l[i].deadline <= time) && (k < |l| ==> l[k].deadline > time)
    ensures Due(l, time) == k
  {
  }

  /** In a sorted list exactly the sleepers whose deadline is reached are taken off. */
  lemma DueExactly(l: seq<Sleeper>, time: nat, x: Sleeper)
    requires Sorted(l) && x in l
    ensures x in l[..Due(l, time)] <==> x.deadline <= time
    ensures x in l[Due(l, time)..] <==> x.deadline > time
  {
    var k := Due(l, time);
    var i :| 0 <= i < |l| && l[i] == x;
    if i < k {
      assert l[..k][i] == x;
    } else {
      assert l[k..][i - k] == x;
      assert l[k].deadline > time;
    }
    if x in l[..k] {
      var j :| 0 <= j < k && l[j] == x;
    }
    if x in l[k..] {
      var j :| k <= j < |l| && l[j] == x;
    }
  }

  // ---------------------------------------------------------------- runs

  datatype Event = Ticked | Slept(thread: nat, msecs: nat)

  /** Ticks so far, and who is asleep. */
  datatype Past = Past(ticks: nat, asleep: seq<Sleeper>)

  function Next(p: Past, f: nat, e: Event): Past
    requires f > 0
  {
    match e
    case Ticked => Past(p.ticks + 1, p.asleep[Due(p.asleep, TimeAt(p.ticks + 1, f))..])
    case Slept(t, ms) => p.(asleep := Entered(p.asleep, Sleeper(TimeAt(p.ticks, f) + ms, t)))
  }

  function Run(p: Past, f: nat, es: seq<Event>): Past
    requires f > 0
    decreases |es|
  {
    if es == [] then p else Run(Next(p, f, es[0]), f, es[1..])
  }

  lemma NextSorted(p: Past, f: nat, e: Event)
    requires f > 0 && Sorted(p.asleep)
    ensures Sorted(Next(p, f, e).asleep) && p.ticks <= Next(p, f, e).ticks
  {
    if e.Slept? {
      EnteredSorted(p.asleep, Sleeper(TimeAt(p.ticks, f) + e.msecs, e.thread));
    }
  }

  lemma NextKeeps(p: Past, f: nat, e: Event, x: Sleeper)
    requires f > 0 && Sorted(p.asleep) && (e.Slept? ==> e.thread != x.thread)
    ensures x in Next(p, f, e).asleep <==> x in p.asleep && (e.Ticked? ==> TimeAt(p.ticks + 1, f) < x.deadline)
  {
    hide TimeAt, Entered, Due;
    match e
    case Ticked =>
      if x in p.asleep {
        DueExactly(p.asleep, TimeAt(p.ticks + 1, f), x);
      }
    case Slept(t, ms) =>
      var y := Sleeper(TimeAt(p.ticks, f) + ms, t);
      EnteredMembers(p.asleep, y);
  }

  /**
   Over every run in which it does not go to sleep again, a sleeping thread stays on the list
   exactly until a tick has brought the time to its deadline.
   */
  lemma {:induction false} SleepsUntilDue(p: Past, f: nat, es: seq<Event>, x: Sleeper)
    requires f > 0 && Sorted(p.asleep) && x in p.asleep
    requires forall e :: e in es && e.Slept? ==> e.thread != x.thread
    ensures Sorted(Run(p, f, es).asleep) && p.ticks <= Run(p, f, es).ticks
    ensures x in Run(p, f, es).asleep <==> Run(p, f, es).ticks == p.ticks || TimeAt(Run(p, f, es).ticks, f) < x.deadline
    decreases |es|
  {
    hide TimeAt, Sorted;
    if es != [] {
      assert es[0] in es;
      var q := Next(p, f, es[0]);
      NextSorted(p, f, es[0]);
      NextKeeps(p, f, es[0], x);
      if x in q.asleep {
        SleepsUntilDue(q, f, es[1..], x);
      } else {
        StaysAwake(q, f, es[1..], x);
        TimeMonotone(q.ticks, Run(q, f, es[1..]).ticks, f);
      }
    }
  }

  /** Once off the list it stays off. */
  lemma {:induction false} StaysAwake(p: Past, f: nat, es: seq<Event>, x: Sleeper)
    requires f > 0 && Sorted(p.asleep) && x !in p.asleep
    requires forall e :: e in es && e.Slept? ==> e.thread != x.thread
    ensures x !in Run(p, f, es).asleep && p.ticks <= Run(p, f, es).ticks && Sorted(Run(p, f, es).asleep)
    decreases |es|
  {
    hide TimeAt, Sorted;
    if es != [] {
      assert es[0] in es;
      NextSorted(p, f, es[0]);
      NextKeeps(p, f, es[0], x);
      StaysAwake(Next(p, f, es[0]), f, es[1..], x);
    }
  }

  /**
   The tick that wakes a sleeper is the first one after it went to sleep whose time reaches its
   deadline: not an earlier one, and not a later one.
   */
  lemma WokenByFirstTick(p: Past, f: nat, es: seq<Event>, x: Sleeper)
    requires f > 0 && Sorted(p.asleep) && x in p.asleep
    requires forall e :: e in es && e.Slept? ==> e.thread != x.thread
    ensures var q := Run(p, f, es);
            var now := TimeAt(q.ticks + 1, f);
            x in q.asleep[..Due(q.asleep, now)] <==>
                x.deadline <= now && (q.ticks == p.ticks || TimeAt(q.ticks, f) < x.deadline)
  {
    hide TimeAt, Sorted, Run;
    var q := Run(p, f, es);
    SleepsUntilDue(p, f, es, x);
    if x in q.asleep {
      DueExactly(q.asleep, TimeAt(q.ticks + 1, f), x);
    }
  }
}
