/**
 What a server's return value becomes on its way to the requester: `srv_handle` splits it into two words,
 `request_answer` puts it together by the return type in the method number, and `request` hands it out.
 */
module Answers {
  import opened ObjectTables
  import opened ObjectPassing

  const WORD: int := 0x1_0000_0000

  /** The return and parameter types; 3 is a long long as a return value and shared memory as a parameter. */
  const LONG: int := 2
  const LONGLONG: int := 3

  predicate IsInt(v: int) { -WORD / 2 <= v < WORD / 2 }

  predicate IsLong(v: int) { -WORD * WORD / 2 <= v < WORD * WORD / 2 }

  /** A signed value as the word, or pair of words, that stores it, and back. */
  function Unsigned(v: int): (u: int)
    ensures IsInt(v) ==> 0 <= u < WORD
  {
    if v < 0 then v + WORD else v
  }

  function Signed(u: int): int { if u < WORD / 2 then u else u - WORD }

  function UnsignedLong(v: int): int { if v < 0 then v + WORD * WORD else v }

  function SignedLong(u: int): int { if u < WORD * WORD / 2 then u else u - WORD * WORD }

  /** What the `mr_*` constructors build. */
  datatype Return = Long(i: int) | LongLong(l: int) | Descriptor(i: int) | Void

  predicate WellFormed(r: Return)
  {
    match r
    case Long(i) => IsInt(i)
    case LongLong(l) => IsLong(l)
    case Descriptor(i) => IsInt(i)
    case Void => true
  }

  function Value(r: Return): int
  {
    match r
    case Long(i) => i
    case LongLong(l) => l
    case Descriptor(i) => i
    case Void => 0
  }

  /** The two words that `srv_handle` passes to `request_answer`. */
  function Packed(r: Return): (w: (int, int))
    ensures WellFormed(r) ==> 0 <= w.0 < WORD && 0 <= w.1 < WORD
  {
    match r
    case Long(i) => (Unsigned(i), 0)
    case Descriptor(i) => (Unsigned(i), 0)
    case LongLong(l) => (UnsignedLong(l) % WORD, UnsignedLong(l) / WORD)
    case Void => (0, 0)
  }

  /** The value read by a requester that expects a number: the halves of a long long lie in different bits. */
  function Seen(want: int, w: (int, int)): int
    requires want == LONG || want == LONGLONG
  {
    if want == LONGLONG then SignedLong(w.1 * WORD + w.0) else Signed(w.0)
  }

  /** What a requester in process `to` reads that expects a descriptor, the server being in process `from`. */
  function SeenDescriptor(s: State, from: Pid, to: Pid, w: (int, int)): (State, int)
    requires from in s.tables && to in s.tables
  {
    AnswerHandle(s, from, to, Signed(w.0))
  }

  lemma HalvesJoin(u: int)
    ensures u / WORD * WORD + u % WORD == u
  {
  }

  /** A 64-bit answer comes back whole, sign included. */
  lemma LongLongWhole(l: int)
    requires IsLong(l)
    ensures Seen(LONGLONG, Packed(LongLong(l))) == l
  {
    HalvesJoin(UnsignedLong(l));
  }

  lemma LowHalf(l: int)
    requires IsLong(l)
    ensures Signed(UnsignedLong(l) % WORD) == l <==> IsInt(l)
  {
    if 0 <= l < WORD {
      assert UnsignedLong(l) % WORD == l;
    } else if -WORD <= l < 0 {
      assert l + WORD * WORD == (WORD - 1) * WORD + (l + WORD);
      assert UnsignedLong(l) % WORD == (l + WORD) % WORD;
    }
  }

  /**
   The requester reads the very value the method returned exactly when nothing is cut off or misread: a long long
   read as one word must fit it, and one word read as a long long must not be negative.
   */
  lemma SeenIffFits(want: int, r: Return)
    requires WellFormed(r) && (want == LONG || want == LONGLONG)
    ensures Seen(want, Packed(r)) == Value(r) <==>
              match r
              case LongLong(l) => want == LONGLONG || IsInt(l)
              case Void => true
              case _ => want != LONGLONG || Value(r) >= 0
  {
    match r
    case LongLong(l) =>
      LongLongWhole(l);
      LowHalf(l);
    case _ =>
  }

  /**
   A descriptor is not read as the same number: error codes and descriptors within one process are; across processes it
   becomes a number for the same object in the requester's table, or -1 if the server has no such descriptor.
   */
  lemma DescriptorSeen(s: State, from: Pid, to: Pid, i: int)
    requires Inv(s) && from in s.tables && to in s.tables && IsInt(i)
    ensures var r := SeenDescriptor(s, from, to, Packed(Descriptor(i)));
            var o := Read(s.tables[from].entries, i);
            if i < 0 || from == to then r == (s, i)
            else if o.None? then r == (s, -1)
            else Inv(r.0) && to in r.0.tables && Read(r.0.tables[to].entries, r.1) == o
  {
    hide Inv, Add, Lookup;
    assert Signed(Unsigned(i)) == i;
    var o := Read(s.tables[from].entries, i);
    if i >= 0 && from != to && o.Some? {
      AnswerDenotes(s, from, to, i, o.value);
    }
  }

  // ---------------------------------------------------------------- method numbers

  /** `MP`: the types of the result and the three parameters above a 24-bit identifier. */
  function MethodNumber(id: int, types: seq<int>): (func: int)
    requires |types| == 4
  {
    (((types[0] * 4 + types[1]) * 4 + types[2]) * 4 + types[3]) * 0x100_0000 + id
  }

  /** `func >> 30`. */
  function ReturnType(func: int): int { func / 0x4000_0000 }

  function Power4(n: nat): (p: int)
    ensures p > 0
  {
    if n == 0 then 1 else 4 * Power4(n - 1)
  }

  /** `(func >> (28 - (2 * i))) & 3`. */
  function ParamType(func: int, i: nat): int
    requires i < 3
  {
    func / Power4(14 - i) % 4
  }

  lemma Powers()
    ensures Power4(12) == 0x100_0000 && Power4(13) == 0x400_0000 && Power4(14) == 0x1000_0000
  {
    assert Power4(4) == 256;
    assert Power4(8) == 0x1_0000;
    assert Power4(12) == 0x100_0000;
  }

  /** The kernel and the server read back the types that the number was built from. */
  lemma TypesRead(id: int, types: seq<int>)
    requires |types| == 4 && 0 <= id < 0x100_0000 && forall i :: 0 <= i < 4 ==> 0 <= types[i] < 4
    ensures var func := MethodNumber(id, types);
            && 0 <= func < WORD && ReturnType(func) == types[0]
            && forall i :: 0 <= i < 3 ==> ParamType(func, i) == types[i + 1]
  {
    Powers();
    hide Power4;
    var func := MethodNumber(id, types);
    assert ParamType(func, 0) == types[1];
    assert ParamType(func, 1) == types[2];
    assert ParamType(func, 2) == types[3];
  }
}
