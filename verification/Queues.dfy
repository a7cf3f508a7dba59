/** The ready queues as plain sequences: one per priority level, level 0 first served. */
module Queues {
  const PRIORITIES: nat := 4

  function Append<T>(qs: seq<seq<T>>, p: nat, t: T): seq<seq<T>>
    requires p < |qs|
  {
    qs[p := qs[p] + [t]]
  }

  /** The most urgent level with a thread in it, or the number of levels. */
  function Level<T>(qs: seq<seq<T>>): (k: nat)
    ensures k <= |qs| && (k < |qs| ==> qs[k] != []) && forall i :: 0 <= i < k ==> qs[i] == []
  {
    if qs == [] || qs[0] != [] then 0 else 1 + Level(qs[1..])
  }

  lemma LevelIs<T>(qs: seq<seq<T>>, k: nat)
    requires k <= |qs| && (k < |qs| ==> qs[k] != []) && forall i :: 0 <= i < k ==> qs[i] == []
    ensures Level(qs) == k
  {
  }

  /** The queues without their first-served thread. */
  function Popped<T>(qs: seq<seq<T>>): seq<seq<T>>
  {
    var k := Level(qs);
    if k == |qs| then qs else qs[k := qs[k][1..]]
  }

  /** `t` waits at position `i` of level `q`. */
  ghost predicate At<T>(qs: seq<seq<T>>, q: int, i: int, t: T)
  {
    0 <= q < |qs| && 0 <= i < |qs[q]| && qs[q][i] == t
  }

  /** No thread waits twice. */
  ghost predicate Once<T>(qs: seq<seq<T>>)
  {
    forall q, i, r, j :: 0 <= q < |qs| && 0 <= i < |qs[q]| && 0 <= r < |qs| && 0 <= j < |qs[r]| && qs[q][i] == qs[r][j] ==> q == r && i == j
  }

  ghost predicate Waits<T>(qs: seq<seq<T>>, t: T)
  {
    exists q :: 0 <= q < |qs| && t in qs[q]
  }

  lemma AppendOnce<T>(qs: seq<seq<T>>, p: nat, t: T)
    requires Once(qs) && p < |qs| && !Waits(qs, t)
    ensures Once(Append(qs, p, t))
    ensures forall u :: Waits(Append(qs, p, t), u) <==> Waits(qs, u) || u == t
  {
    var r := Append(qs, p, t);
    forall a, i, b, j | 0 <= a < |r| && 0 <= i < |r[a]| && 0 <= b < |r| && 0 <= j < |r[b]| && r[a][i] == r[b][j]
      ensures a == b && i == j
    {
      assert r[a][i] == t || r[a][i] in qs[a];
      assert r[b][j] == t || r[b][j] in qs[b];
    }
    forall u
      ensures Waits(r, u) <==> Waits(qs, u) || u == t
    {
      if Waits(qs, u) {
        var q :| 0 <= q < |qs| && u in qs[q];
        assert u in r[q];
      }
      assert t in r[p];
      if Waits(r, u) && u != t {
        var q :| 0 <= q < |r| && u in r[q];
        assert u in qs[q];
      }
    }
  }

  lemma PoppedOnce<T>(qs: seq<seq<T>>)
    requires Once(qs) && Level(qs) < |qs|
    ensures Once(Popped(qs))
    ensures Waits(qs, qs[Level(qs)][0]) && !Waits(Popped(qs), qs[Level(qs)][0])
    ensures forall u :: u != qs[Level(qs)][0] ==> (Waits(Popped(qs), u) <==> Waits(qs, u))
  {
    var k := Level(qs);
    PoppedDistinct(qs, k);
    PoppedGone(qs, k);
    forall u | u != qs[k][0]
      ensures Waits(Popped(qs), u) <==> Waits(qs, u)
    {
      PoppedOthers(qs, k, u);
    }
  }

  lemma PoppedDistinct<T>(qs: seq<seq<T>>, k: nat)
    requires Once(qs) && k < |qs| && qs[k] != []
    ensures Once(qs[k := qs[k][1..]])
  {
    var r := qs[k := qs[k][1..]];
    forall a, i, b, j | 0 <= a < |r| && 0 <= i < |r[a]| && 0 <= b < |r| && 0 <= j < |r[b]| && r[a][i] == r[b][j]
      ensures a == b && i == j
    {
      assert r[a][i] == qs[a][if a == k then i + 1 else i] && r[b][j] == qs[b][if b == k then j + 1 else j];
    }
  }

  lemma PoppedGone<T>(qs: seq<seq<T>>, k: nat)
    requires Once(qs) && k < |qs| && qs[k] != []
    ensures Waits(qs, qs[k][0]) && !Waits(qs[k := qs[k][1..]], qs[k][0])
  {
    assert qs[k][0] in qs[k];
    var r := qs[k := qs[k][1..]];
    forall q | 0 <= q < |r|
      ensures qs[k][0] !in r[q]
    {
      var rest := r[q];
      forall i | 0 <= i < |rest|
        ensures rest[i] != qs[k][0]
      {
        assert rest[i] == qs[q][if q == k then i + 1 else i];
      }
    }
  }

  lemma PoppedOthers<T>(qs: seq<seq<T>>, k: nat, u: T)
    requires k < |qs| && qs[k] != [] && u != qs[k][0]
    ensures Waits(qs[k := qs[k][1..]], u) <==> Waits(qs, u)
  {
    var r := qs[k := qs[k][1..]];
    assert qs[k] == [qs[k][0]] + r[k];
    if Waits(qs, u) {
      var q :| 0 <= q < |qs| && u in qs[q];
      assert u in r[q];
    }
    if Waits(r, u) {
      var q :| 0 <= q < |r| && u in r[q];
      assert u in qs[q];
    }
  }

  // ---------------------------------------------------------------- first in, first out

  /** A use of the queues: a thread put in at a level, or the next one taken out. */
  datatype Use<T> = Put(level: nat, t: T) | Take

  /** The queues, and per level what was put in and what was taken out so far, oldest first. */
  datatype Served<T> = Served(queues: seq<seq<T>>, put: seq<seq<T>>, taken: seq<seq<T>>)

  function Serve<T>(s: Served<T>, u: Use<T>): Served<T>
    requires |s.queues| == |s.put| == |s.taken| && (u.Put? ==> u.level < |s.queues|)
  {
    match u
    case Put(p, t) => s.(queues := Append(s.queues, p, t), put := s.put[p := s.put[p] + [t]])
    case Take =>
      var p := Level(s.queues);
      s.(queues := Popped(s.queues),
         taken := if p < |s.queues| then s.taken[p := s.taken[p] + [s.queues[p][0]]] else s.taken)
  }

  ghost predicate Serves<T>(s: Served<T>, us: seq<Use<T>>, t: Served<T>)
    decreases |us|
  {
    if us == [] then s == t
    else
      && |s.queues| == |s.put| == |s.taken| && (us[0].Put? ==> us[0].level < |s.queues|)
      && Serves(Serve(s, us[0]), us[1..], t)
  }

  /** What was put in at a level is what was taken out there, followed by what still waits. */
  ghost predicate InOrder<T>(s: Served<T>)
  {
    && |s.queues| == |s.put| == |s.taken|
    && forall p :: 0 <= p < |s.queues| ==> s.put[p] == s.taken[p] + s.queues[p]
  }

  /** Over every run, each level is served in the order in which it was filled. */
  lemma {:induction false} FirstInFirstOut<T>(s: Served<T>, us: seq<Use<T>>, t: Served<T>)
    requires InOrder(s) && Serves(s, us, t)
    ensures InOrder(t)
    decreases |us|
  {
    if us != [] {
      ServeInOrder(s, us[0]);
      hide Serve, InOrder;
      FirstInFirstOut(Serve(s, us[0]), us[1..], t);
    }
  }

  lemma ServeInOrder<T>(s: Served<T>, u: Use<T>)
    requires InOrder(s) && (u.Put? ==> u.level < |s.queues|)
    ensures InOrder(Serve(s, u))
  {
    var r := Serve(s, u);
    if u.Take? && Level(s.queues) < |s.queues| {
      var p := Level(s.queues);
      assert s.queues[p] == [s.queues[p][0]] + s.queues[p][1..];
    }
    forall p | 0 <= p < |r.queues|
      ensures r.put[p] == r.taken[p] + r.queues[p]
    {
      assert s.put[p] == s.taken[p] + s.queues[p];
    }
  }

  /** A thread is only taken while no more urgent one waits. */
  lemma UrgentFirst<T>(s: Served<T>)
    requires InOrder(s)
    ensures var r := Serve(s, Take);
            && |r.taken| == |s.taken|
            && (forall p :: 0 <= p < |s.taken| && r.taken[p] != s.taken[p] ==>
                 |r.taken[p]| == |s.taken[p]| + 1 && forall q :: 0 <= q < p ==> s.queues[q] == [])
            && (r.taken == s.taken ==> forall p :: 0 <= p < |s.queues| ==> s.queues[p] == [])
  {
    var r, p := Serve(s, Take), Level(s.queues);
    if p < |s.queues| {
      assert |r.taken[p]| == |s.taken[p]| + 1;
    }
  }
}
