/**
 The flat 32-bit address space of one process: 2^32 bytes, read and written as
 little-endian 32-bit words at any (also unaligned) address.
 */
module Words {
  const SPACE: int := 0x1_0000_0000

  type Byte = x: int | 0 <= x < 0x100
  type Word = x: int | 0 <= x < 0x1_0000_0000
  type Memory = m: seq<Byte> | |m| == SPACE ghost witness seq(SPACE, _ => 0)

  /** Unsigned 32-bit arithmetic: the value a C `uint32_t` keeps of `x`. */
  function Wrap(x: int): (w: Word)
    ensures 0 <= x < SPACE ==> w == x
  {
    x % SPACE
  }

  function Join(b0: Byte, b1: Byte, b2: Byte, b3: Byte): (w: Word)
  {
    (b0 as int) + 0x100 * (b1 as int) + 0x1_0000 * (b2 as int) + 0x100_0000 * (b3 as int)
  }

  lemma JoinSplit(w: Word)
    ensures Join(w % 0x100, w / 0x100 % 0x100, w / 0x1_0000 % 0x100, w / 0x100_0000) == w
  {
    assert w / 0x1_0000 == w / 0x100 / 0x100;
    assert w / 0x100_0000 == w / 0x1_0000 / 0x100;
  }

  function ReadWord(m: Memory, a: int): (w: Word)
    requires 0 <= a && a + 4 <= SPACE
  {
    Join(m[a], m[a + 1], m[a + 2], m[a + 3])
  }

  function WriteWord(m: Memory, a: int, w: Word): (r: Memory)
    requires 0 <= a && a + 4 <= SPACE
    ensures ReadWord(r, a) == w
    ensures forall b {:trigger ReadWord(r, b)} :: 0 <= b && b + 4 <= SPACE && (b + 4 <= a || a + 4 <= b) ==>
            ReadWord(r, b) == ReadWord(m, b)
    ensures forall x {:trigger r[x]} :: 0 <= x < SPACE && !(a <= x < a + 4) ==> r[x] == m[x]
  {
    JoinSplit(w);
    m[a := w % 0x100][a + 1 := w / 0x100 % 0x100][a + 2 := w / 0x1_0000 % 0x100][a + 3 := w / 0x100_0000]
  }
}
