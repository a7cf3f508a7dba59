/** Lists of identifiers in which nothing occurs twice. */
module Lists {
  ghost predicate NoTwice(s: seq<nat>)
  {
    forall i, j :: 0 <= i < j < |s| ==> s[i] != s[j]
  }

  lemma NoTwiceFirst(x: nat, s: seq<nat>)
    ensures NoTwice([x] + s) <==> NoTwice(s) && x !in s
  {
    var r := [x] + s;
    if NoTwice(r) {
      forall i, j | 0 <= i < j < |s|
        ensures s[i] != s[j]
      {
        assert r[i + 1] != r[j + 1];
      }
      forall i | 0 <= i < |s|
        ensures s[i] != x
      {
        assert r[0] != r[i + 1];
      }
    }
  }
}
