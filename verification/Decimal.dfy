/**
 Decimal printing: the kernel writes digits from the left by searching the order of magnitude, the
 user library fills a buffer from the right. Both are proved to write the canonical numeral.
 */
module Decimal {
  const INT_MIN: int := -0x8000_0000
  const INT_MAX: int := 0x7FFF_FFFF

  function Digit(d: int): char
    requires 0 <= d < 10
  {
    '0' + d as char
  }

  /** The numeral of `v` without leading zeros; nothing at all for 0. */
  function Digits(v: nat): string
  {
    if v == 0 then "" else Digits(v / 10) + [Digit(v % 10)]
  }

  function Numeral(v: nat): string { if v == 0 then "0" else Digits(v) }

  function IntNumeral(v: int): string { if v < 0 then "-" + Numeral(-v) else Numeral(v) }

  /** The value that a string of decimal digits denotes. */
  function Value(s: string): int
  {
    if s == "" then 0 else 10 * Value(s[..|s| - 1]) + (s[|s| - 1] as int - '0' as int)
  }

  /** The numeral reads back as the number, and has no leading zero. */
  lemma {:induction false} DigitsRead(v: nat)
    ensures Value(Digits(v)) == v
    ensures forall c :: c in Digits(v) ==> '0' <= c <= '9'
    ensures v > 0 ==> Digits(v) != "" && Digits(v)[0] != '0'
  {
    if v > 0 {
      DigitsRead(v / 10);
      var s := Digits(v);
      assert s[..|s| - 1] == Digits(v / 10);
    }
  }

  lemma NumeralReads(v: nat)
    ensures Value(Numeral(v)) == v
    ensures v > 0 ==> Numeral(v)[0] != '0'
  {
    if v > 0 {
      DigitsRead(v);
    } else {
      assert "0"[..0] == "";
    }
  }

  function Pow10(k: nat): (p: int)
    ensures p >= 1
  {
    if k == 0 then 1 else 10 * Pow10(k - 1)
  }

  /** How many digits `v` has; none for 0. */
  function Length(v: nat): nat { if v == 0 then 0 else 1 + Length(v / 10) }

  lemma {:induction false} LengthBounds(v: nat)
    ensures v < Pow10(Length(v))
    ensures v > 0 ==> Pow10(Length(v) - 1) <= v
    ensures |Digits(v)| == Length(v)
  {
    if v > 0 {
      LengthBounds(v / 10);
    }
  }

  lemma {:induction false} PowMonotone(a: nat, b: nat)
    requires a < b
    ensures 10 * Pow10(a) <= Pow10(b)
  {
    if a + 1 < b {
      PowMonotone(a, b - 1);
    }
  }

  /** The length is determined by the powers of ten around the number. */
  lemma LengthIs(v: nat, k: nat)
    requires v < Pow10(k) && (k > 0 ==> Pow10(k - 1) <= v)
    ensures Length(v) == k
  {
    LengthBounds(v);
    var n := Length(v);
    if n < k {
      if n < k - 1 {
        PowMonotone(n, k - 1);
      }
    } else if k < n {
      if k < n - 1 {
        PowMonotone(k, n - 1);
      }
    }
  }

  function Zeros(n: nat): string { if n == 0 then "" else Zeros(n - 1) + "0" }

  lemma DivideAgain(v: nat, p: int)
    requires p >= 1
    ensures v / 10 / p == v / (10 * p) && v / 10 % p == v % (10 * p) / 10 && v % 10 == v % (10 * p) % 10
  {
    var d, r := v / (10 * p), v % (10 * p);
    assert v == 10 * p * d + r;
    var x := p * d;
    assert 10 * p * d == 10 * x;
    assert v / 10 == x + r / 10 && v % 10 == r % 10;
    Quotient(p, d, r / 10);
  }

  lemma Times(p: int, x: int)
    requires p >= 1 && x >= 1
    ensures p * x >= p
  {
  }

  lemma Quotient(p: int, d: int, r: int)
    requires 0 <= r < p
    ensures (p * d + r) / p == d && (p * d + r) % p == r
  {
    var v := p * d + r;
    var q, s := v / p, v % p;
    assert v == p * q + s;
    var x := q - d;
    assert p * q == p * d + p * x;
    if x >= 1 {
      Times(p, x);
    } else if x <= -1 {
      Times(p, -x);
    }
  }

  /** The leading digit of a number, the zeros after it, and the numeral of the rest. */
  lemma {:induction false} LeadingDigit(v: nat, k: nat)
    requires Pow10(k) <= v < Pow10(k + 1)
    ensures var p := Pow10(k);
            && 0 < v / p < 10 && Length(v % p) <= k
            && Digits(v) == [Digit(v / p)] + Zeros(k - Length(v % p)) + Digits(v % p)
    decreases k
  {
    var p := Pow10(k);
    Leading(v, p);
    LengthBounds(v % p);
    if k == 0 {
      assert Digits(v / 10) == "" && v % 1 == 0;
    } else {
      LeadingDigit(v / 10, k - 1);
      DivideAgain(v, Pow10(k - 1));
      var r := v % p;
      assert Digits(v) == Digits(v / 10) + [Digit(r % 10)];
      if r / 10 > 0 {
        assert Digits(r) == Digits(r / 10) + [Digit(r % 10)];
      } else if r == 0 {
        assert Zeros(k) == Zeros(k - 1) + [Digit(0)];
      } else {
        assert Length(r) == 1 && Digits(r) == [Digit(r % 10)];
      }
    }
  }

  lemma Leading(v: nat, p: int)
    requires 1 <= p <= v < 10 * p
    ensures 0 < v / p < 10 && 0 <= v % p < p
  {
  }

  lemma QuotientPositive(v: nat, p: int)
    requires p >= 1
    ensures v / p > 0 <==> p <= v
  {
  }

  /** The loop that searches the least power of ten above `v`, starting from 1. */
  method PowerAbove(v: nat) returns (order: int, ghost k: nat)
    requires v < 1_000_000_000
    ensures k == Length(v) && order == Pow10(k) <= 1_000_000_000
  {
    order, k := 1, 0;
    assert Pow10(9) == 1_000_000_000 by {
      assert Pow10(3) == 1000;
      assert Pow10(6) == 1_000_000;
    }
    while v / order > 0
      invariant order == Pow10(k) && k <= 9 && (k > 0 ==> Pow10(k - 1) <= v)
      decreases 9 - k
    {
      QuotientPositive(v, order);
      if k == 9 {
        assert false;
      }
      order := order * 10;
      k := k + 1;
    }
    QuotientPositive(v, order);
    LengthIs(v, k);
    if k > 9 {
      assert false;
    }
    if k < 9 {
      PowMonotone(k, 9);
    }
  }

  /** The zeros written between a leading digit of order 10^k and a rest of n digits. */
  method PadZeros(above: int, order: int, ghost n: nat, ghost k: nat) returns (out: string)
    requires above == Pow10(n) && order == Pow10(k) && n <= k
    ensures out == Zeros(k - n)
  {
    out := "";
    var no := above;
    ghost var z := 0;
    while no < order
      invariant n + z <= k && no == Pow10(n + z) && out == Zeros(z)
      decreases k - n - z
    {
      out := out + "0";
      no := no * 10;
      z := z + 1;
    }
    if n + z < k {
      PowMonotone(n + z, k);
    }
  }

  function TakeOff(v: nat, order: int): (rest: nat)
    requires order >= 1
    ensures rest == v % order
  {
    v - v / order * order
  }

  /** One round of `monitor_writeDec`: the leading digit, the zeros after it, and what is left to write. */
  method WriteLeading(v: nat) returns (out: string, rest: nat)
    requires 0 < v < 1_000_000_000
    ensures rest < v && out + Digits(rest) == Digits(v)
  {
    hide Digits, Length, Zeros;
    var order, no;
    ghost var k, n;
    order, k := PowerAbove(v);
    LengthBounds(v);
    assert k > 0 && order == 10 * Pow10(k - 1);
    order := order / 10;
    LeadingDigit(v, k - 1);
    Leading(v, order);
    rest := TakeOff(v, order);
    no, n := PowerAbove(rest);
    var zeros := PadZeros(no, order, n, k - 1);
    out := [Digit(v / order)] + zeros;
  }

  /** `monitor_writeDec`: the characters put on the screen. Below 10^9 no 32-bit order of magnitude overflows. */
  method WriteDec(value: nat) returns (out: string)
    requires value < 1_000_000_000
    ensures out == Numeral(value)
  {
    if value == 0 {
      return "0";
    }
    var v := value;
    out := "";
    while v > 0
      invariant 0 <= v <= value && out + Digits(v) == Digits(value)
    {
      var s;
      ghost var was := v;
      s, v := WriteLeading(v);
      assert out + Digits(was) == (out + s) + Digits(v);
      out := out + s;
    }
  }

  /** The value a C `int` keeps of `x`. */
  function Wrap32(x: int): int
  {
    var m := x % 0x1_0000_0000;
    if m > INT_MAX then m - 0x1_0000_0000 else m
  }

  /**
   `printk_int`: the string that is printed. It is the numeral for every number but the least,
   whose negation overflows: of that one only the sign is printed.
   */
  method PrintInt(value: int) returns (s: string)
    requires INT_MIN <= value <= INT_MAX
    ensures value != INT_MIN ==> s == IntNumeral(value)
    ensures value == INT_MIN ==> s == "-"
  {
    hide Digits, Length;
    if value == 0 {
      return "0";
    }
    var negative, number := false, value;
    if number < 0 {
      negative := true;
      number := Wrap32(0 - number);
      assert number == if value == INT_MIN then INT_MIN else -value;
    }
    var order := CountDigits(number);
    var digits := FillBackwards(number, order);
    s := if negative then "-" + digits else digits;
  }

  /** The loop of `printk_int` that fills the buffer from its end. */
  method FillBackwards(value: int, order: nat) returns (s: string)
    requires order == if value > 0 then Length(value) else 0
    ensures s == if value > 0 then Digits(value) else ""
  {
    var number := value;
    var buf := new char[order];
    var i := order;
    while i > 0
      invariant 0 <= i <= order
      invariant value > 0 ==> number >= 0 && Length(number) == i && Digits(number) + buf[i..] == Digits(value)
    {
      ghost var n := number;
      buf[i - 1] := Digit(number % 10);
      number := number / 10;
      i := i - 1;
      assert buf[i..] == [Digit(n % 10)] + buf[i + 1..];
    }
    s := buf[..];
    assert buf[0..] == buf[..];
  }

  method CountDigits(number: int) returns (order: nat)
    ensures order == if number > 0 then Length(number) else 0
  {
    var temp := number;
    order := 0;
    while temp > 0
      invariant number > 0 ==> temp >= 0 && order + Length(temp) == Length(number)
      invariant number <= 0 ==> temp <= 0 && order == 0
    {
      order := order + 1;
      temp := temp / 10;
    }
  }

  /** Where both printers apply they print the same characters, which read back as the number. */
  method PrintersAgree(v: nat) returns (kernel: string, library: string)
    requires v < 1_000_000_000
    ensures kernel == library && Value(kernel) == v
  {
    kernel := WriteDec(v);
    library := PrintInt(v);
    NumeralReads(v);
  }
}
