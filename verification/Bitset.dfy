/** The bitset of `bitset.c`: a set of numbers kept in 32-bit words. */
module Bitsets {
  const FULL: bv32 := 0xFFFF_FFFF

  /** What `bitset_firstFree` returns when every bit it looks at is set. */
  const NONE: int := 0xFFFF_FFFF

  // ---------------------------------------------------------------- one word

  /** The word with bit `j` alone, which is `1 << j` (`MaskIsShift`). */
  function Mask(j: nat): bv32 { if j == 0 then 1 else Mask(j - 1) << 1 }

  lemma {:induction false} MaskIsShift(j: nat)
    requires j < 32
    ensures Mask(j) == 1 << j
  {
    if j > 0 {
      MaskIsShift(j - 1);
      ShiftOne(j);
    }
  }

  lemma ShiftOne(j: nat)
    requires 0 < j < 32
    ensures ((1 as bv32) << (j - 1)) << 1 == 1 << j
  {
    if j < 8 {
      assert j in {1, 2, 3, 4, 5, 6, 7};
    } else if j < 16 {
      assert j in {8, 9, 10, 11, 12, 13, 14, 15};
    } else if j < 24 {
      assert j in {16, 17, 18, 19, 20, 21, 22, 23};
    } else {
      assert j in {24, 25, 26, 27, 28, 29, 30, 31};
    }
  }

  function Masked(w: bv32, m: bv32): bv32 { w & m }

  function Merged(w: bv32, m: bv32): bv32 { w | m }

  function Stripped(w: bv32, m: bv32): bv32 { w & !m }

  predicate Bit(w: bv32, j: nat) { Masked(w, Mask(j)) != 0 }

  function With(w: bv32, j: nat): bv32 { Merged(w, Mask(j)) }

  function Without(w: bv32, j: nat): bv32 { Stripped(w, Mask(j)) }

  lemma Masks()
    ensures Mask(0) == 0x1 && Mask(1) == 0x2 && Mask(2) == 0x4 && Mask(3) == 0x8
    ensures Mask(4) == 0x10 && Mask(5) == 0x20 && Mask(6) == 0x40 && Mask(7) == 0x80
    ensures Mask(8) == 0x100 && Mask(9) == 0x200 && Mask(10) == 0x400 && Mask(11) == 0x800
    ensures Mask(12) == 0x1000 && Mask(13) == 0x2000 && Mask(14) == 0x4000 && Mask(15) == 0x8000
    ensures Mask(16) == 0x10000 && Mask(17) == 0x20000 && Mask(18) == 0x40000 && Mask(19) == 0x80000
    ensures Mask(20) == 0x100000 && Mask(21) == 0x200000 && Mask(22) == 0x400000 && Mask(23) == 0x800000
    ensures Mask(24) == 0x1000000 && Mask(25) == 0x2000000 && Mask(26) == 0x4000000 && Mask(27) == 0x8000000
    ensures Mask(28) == 0x10000000 && Mask(29) == 0x20000000 && Mask(30) == 0x40000000 && Mask(31) == 0x80000000
  {
    assert Mask(0) == 0x1 && Mask(1) == 0x2 && Mask(2) == 0x4 && Mask(3) == 0x8;
    assert Mask(4) == 0x10 && Mask(5) == 0x20 && Mask(6) == 0x40 && Mask(7) == 0x80;
    assert Mask(8) == 0x100 && Mask(9) == 0x200 && Mask(10) == 0x400 && Mask(11) == 0x800;
    assert Mask(12) == 0x1000 && Mask(13) == 0x2000 && Mask(14) == 0x4000 && Mask(15) == 0x8000;
    assert Mask(16) == 0x10000 && Mask(17) == 0x20000 && Mask(18) == 0x40000 && Mask(19) == 0x80000;
    assert Mask(20) == 0x100000 && Mask(21) == 0x200000 && Mask(22) == 0x400000 && Mask(23) == 0x800000;
    assert Mask(24) == 0x1000000 && Mask(25) == 0x2000000 && Mask(26) == 0x4000000 && Mask(27) == 0x8000000;
    assert Mask(28) == 0x10000000 && Mask(29) == 0x20000000 && Mask(30) == 0x40000000 && Mask(31) == 0x80000000;
  }

  lemma MaskNonzero(j: nat)
    requires j < 32
    ensures Mask(j) != 0
  {
    Masks();
    hide Mask;
  }

  lemma ShiftLow(a: bv32)
    ensures 1 & (a << 1) == 0
  {
  }

  lemma ShiftBoth(a: bv32, b: bv32)
    requires a & b == 0
    ensures (a << 1) & (b << 1) == 0
  {
  }

  lemma {:induction false} MasksApart(j: nat, k: nat)
    requires j < k
    ensures Mask(j) & Mask(k) == 0
  {
    if j == 0 {
      ShiftLow(Mask(k - 1));
    } else {
      MasksApart(j - 1, k - 1);
      ShiftBoth(Mask(j - 1), Mask(k - 1));
    }
  }

  lemma Commutes(a: bv32, b: bv32)
    ensures a & b == b & a
  {
  }

  lemma MasksDiffer(j: nat, k: nat)
    requires j < 32 && k < 32
    ensures Mask(j) != 0 && (j != k ==> Masked(Mask(j), Mask(k)) == 0)
  {
    MaskNonzero(j);
    if j < k {
      MasksApart(j, k);
    } else if k < j {
      MasksApart(k, j);
      Commutes(Mask(j), Mask(k));
    }
  }

  lemma MergedMask(w: bv32, a: bv32, b: bv32)
    ensures Masked(a, b) == 0 ==> Masked(Merged(w, a), b) == Masked(w, b)
    ensures Masked(Merged(w, a), a) == a
  {
  }

  lemma StrippedMask(w: bv32, a: bv32, b: bv32)
    ensures Masked(a, b) == 0 ==> Masked(Stripped(w, a), b) == Masked(w, b)
    ensures Masked(Stripped(w, a), a) == 0
  {
  }

  /** Setting a bit sets that bit and no other. */
  lemma SetOne(w: bv32, j: nat, k: nat)
    requires j < 32 && k < 32
    ensures Bit(With(w, j), k) <==> k == j || Bit(w, k)
  {
    hide Mask, Masked, Merged, Stripped;
    MasksDiffer(j, k);
    MergedMask(w, Mask(j), Mask(k));
  }

  /** Clearing a bit clears that bit and no other. */
  lemma ClearOne(w: bv32, j: nat, k: nat)
    requires j < 32 && k < 32
    ensures Bit(Without(w, j), k) <==> k != j && Bit(w, k)
  {
    hide Mask, Masked, Merged, Stripped;
    MasksDiffer(j, k);
    StrippedMask(w, Mask(j), Mask(k));
  }

  /** A word with every bit set is the full word: the inner loop of `bitset_firstFree` always finds a bit. */
  lemma AllBits(w: bv32)
    requires forall j :: 0 <= j < 32 ==> Bit(w, j)
    ensures w == FULL
  {
    hide Mask;
    Masks();
    assert Bit(w, 0) && Bit(w, 1) && Bit(w, 2) && Bit(w, 3) && Bit(w, 4) && Bit(w, 5) && Bit(w, 6) && Bit(w, 7);
    assert Bit(w, 8) && Bit(w, 9) && Bit(w, 10) && Bit(w, 11) && Bit(w, 12) && Bit(w, 13) && Bit(w, 14) && Bit(w, 15);
    assert Bit(w, 16) && Bit(w, 17) && Bit(w, 18) && Bit(w, 19) && Bit(w, 20) && Bit(w, 21) && Bit(w, 22) && Bit(w, 23);
    assert Bit(w, 24) && Bit(w, 25) && Bit(w, 26) && Bit(w, 27) && Bit(w, 28) && Bit(w, 29) && Bit(w, 30) && Bit(w, 31);
  }

  lemma FullBits(j: nat)
    requires j < 32
    ensures Bit(FULL, j)
  {
    hide Mask;
    MaskNonzero(j);
    FullMask(Mask(j));
  }

  lemma FullMask(m: bv32)
    ensures FULL & m == m
  {
  }

  // ---------------------------------------------------------------- many words

  ghost predicate In(words: seq<bv32>, n: nat) { n / 32 < |words| && Bit(words[n / 32], n % 32) }

  /** The numbers whose bits are set. */
  ghost function Members(words: seq<bv32>): set<nat>
  {
    set n: nat | n < 32 * |words| && In(words, n)
  }

  lemma SetWord(words: seq<bv32>, n: nat)
    requires n / 32 < |words|
    ensures Members(words[n / 32 := With(words[n / 32], n % 32)]) == Members(words) + {n}
  {
    hide With, Without, Bit;
    var i := n / 32;
    var after := words[i := With(words[i], n % 32)];
    forall k: nat
      ensures In(after, k) <==> k == n || In(words, k)
    {
      SetOne(words[i], n % 32, k % 32);
    }
  }

  lemma ClearWord(words: seq<bv32>, n: nat)
    requires n / 32 < |words|
    ensures Members(words[n / 32 := Without(words[n / 32], n % 32)]) == Members(words) - {n}
  {
    hide With, Without, Bit;
    var i := n / 32;
    var after := words[i := Without(words[i], n % 32)];
    forall k: nat
      ensures In(after, k) <==> k != n && In(words, k)
    {
      ClearOne(words[i], n % 32, k % 32);
    }
  }

  class Bitset {
    const bits: array<bv32>
    const size: nat

    constructor (words: nat, size: nat)
      ensures bits.Length == words && this.size == size && fresh(bits) && forall i :: 0 <= i < words ==> bits[i] == 0
    {
      bits := new bv32[words](_ => 0);
      this.size := size;
    }

    method Set(num: nat)
      requires num / 32 < bits.Length
      modifies bits
      ensures Members(bits[..]) == old(Members(bits[..])) + {num}
    {
      hide With, Without, Members;
      SetWord(bits[..], num);
      ghost var after := bits[..][num / 32 := With(bits[..][num / 32], num % 32)];
      bits[num / 32] := With(bits[num / 32], num % 32);
      assert bits[..] == after;
    }

    method Clear(num: nat)
      requires num / 32 < bits.Length
      modifies bits
      ensures Members(bits[..]) == old(Members(bits[..])) - {num}
    {
      hide With, Without, Members;
      ClearWord(bits[..], num);
      ghost var after := bits[..][num / 32 := Without(bits[..][num / 32], num % 32)];
      bits[num / 32] := Without(bits[num / 32], num % 32);
      assert bits[..] == after;
    }

    /** `bitset_test`; a caller sees only whether the masked word is 0. */
    method Test(num: nat) returns (r: bool)
      requires num / 32 < bits.Length
      ensures r <==> num in Members(bits[..])
    {
      hide Bit;
      r := Bit(bits[num / 32], num % 32);
      assert In(bits[..], num) <==> Bit(bits[num / 32], num % 32);
    }

    /** `bitset_firstFree`: the least number not in the set among the whole words of the first `size` bits. */
    method FirstFree() returns (free: int)
      requires size / 32 <= bits.Length && size < 0x1_0000_0000
      ensures free == 0xFFFF_FFFF ==> forall n: nat :: n < size / 32 * 32 ==> n in Members(bits[..])
      ensures free != 0xFFFF_FFFF ==>
                && 0 <= free < size / 32 * 32 && free !in Members(bits[..])
                && forall n: nat :: n < free ==> n in Members(bits[..])
    {
      hide Bit;
      var i := 0;
      while i < size / 32
        invariant 0 <= i <= size / 32
        invariant forall n: nat :: n < 32 * i ==> In(bits[..], n)
      {
        if bits[i] != FULL {
          var j := 0;
          while j < 32
            invariant 0 <= j <= 32
            invariant forall k :: 0 <= k < j ==> Bit(bits[i], k)
          {
            if !Bit(bits[i], j) {
              free := i * 4 * 8 + j;
              assert free / 32 == i && free % 32 == j;
              assert !In(bits[..], free);
              return;
            }
            j := j + 1;
          }
          AllBits(bits[i]);
          assert false;
        }
        forall n: nat | n < 32 * (i + 1)
          ensures In(bits[..], n)
        {
          FullBits(n % 32);
        }
        i := i + 1;
      }
      return NONE;
    }
  }
}
