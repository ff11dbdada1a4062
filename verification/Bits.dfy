/** Fixed-width values shared by the hardware models. */
module Bits {

  datatype Option<+T> = None | Some(value: T)

  /** An eight-bit register; addition wraps at 256. */
  type Byte = bv8

  /** A 32-bit value by bytes, least significant first. */
  datatype Word = Word(b0: Byte, b1: Byte, b2: Byte, b3: Byte)

  const ZERO: Word := Word(0, 0, 0, 0)

  const ADDR_SPACE: nat := 0x1_0000_0000

  function Lane(w: Word, j: nat): Byte {
    match j case 0 => w.b0 case 1 => w.b1 case 2 => w.b2 case _ => w.b3
  }

  /** `old` with the bytes that `we` enables replaced by those of `new_`. */
  function Merge(old_: Word, we: bv4, new_: Word): Word {
    Word(if we & 1 != 0 then new_.b0 else old_.b0, if we & 2 != 0 then new_.b1 else old_.b1,
         if we & 4 != 0 then new_.b2 else old_.b2, if we & 8 != 0 then new_.b3 else old_.b3)
  }

  /** An eight-bit adder without carry. */
  function Plus(a: Byte, b: Byte): Byte { a + b }

  function Value(b: Byte): (n: nat)
    ensures n < 256
  {
    b as nat
  }

  function Succ(b: Byte): Byte { b + 1 }

  function Pred(b: Byte): Byte { b - 1 }

  lemma SuccValue(a: Byte)
    ensures Value(Succ(a)) == if Value(a) == 255 then 0 else Value(a) + 1
  {
  }

  lemma PredValue(a: Byte)
    requires a != 0
    ensures Value(a) > 0 && Value(Pred(a)) == Value(a) - 1
  {
    assert Succ(Pred(a)) == a;
    SuccValue(Pred(a));
  }

  lemma OneOver(a: Byte, b: Byte)
    ensures Plus(a, b) == Plus(Succ(a), Pred(b)) && Plus(a, 0) == a && Value(0) == 0
  {
  }

  /** The adder adds, modulo 256. */
  lemma {:induction false} PlusIsSum(a: Byte, b: Byte)
    ensures Value(Plus(a, b)) == (Value(a) + Value(b)) % 256
    decreases Value(b)
  {
    hide *;
    OneOver(a, b);
    if b != 0 {
      PredValue(b);
      PlusIsSum(Succ(a), Pred(b));
      SuccValue(a);
    }
  }

  function Pow2(n: nat): (p: nat)
    ensures p >= 1
  {
    if n == 0 then 1 else 2 * Pow2(n - 1)
  }

  /** `x` in a register that counts modulo `m`, for a sum of two values below `m`. */
  function Wrap(x: nat, m: nat): (r: nat)
    requires x < 2 * m
    ensures r < m && (r == x || r + m == x)
  {
    if x < m then x else x - m
  }

  /** Bit `i` of `b`, bit 0 being the least significant. */
  predicate Bit(b: Byte, i: nat)
    requires i < 8
  {
    b & (match i
         case 0 => 0x01
         case 1 => 0x02
         case 2 => 0x04
         case 3 => 0x08
         case 4 => 0x10
         case 5 => 0x20
         case 6 => 0x40
         case 7 => 0x80) != 0
  }

  lemma Regroup<T>(a: seq<T>, b: seq<T>, c: seq<T>)
    ensures a + (b + c) == (a + b) + c
  {
  }

  /** One step of a conservation law: what is held, plus what comes in, is what goes out, plus what is held
      after; `ins`, `outs` and `last` belong to the steps that follow. */
  lemma Telescope<T>(held: seq<T>, i: seq<T>, o: seq<T>, held': seq<T>, ins: seq<T>, outs: seq<T>, last: seq<T>)
    requires held + i == o + held' && held' + ins == outs + last
    ensures held + (i + ins) == (o + outs) + last
  {
    Regroup(held, i, ins);
    Regroup(o, held', ins);
    Regroup(o, outs, last);
  }

  lemma DivMod(x: nat, size: nat) returns (d: nat)
    requires size > 0
    ensures x == d * size + x % size && x % size < size
  {
    d := x / size;
  }

  lemma Distance(q: int, d: int, size: int)
    ensures (q - d) * size == q * size - d * size
  {
  }

  lemma AtLeast(e: int, size: int)
    requires e >= 1 && size > 0
    ensures e * size >= size
  {
  }

  /** A multiple of `size` plus something less has that as its remainder. */
  lemma Remainder(q: nat, r: nat, size: nat)
    requires r < size
    ensures (q * size + r) % size == r
  {
    var x := q * size + r;
    var d := DivMod(x, size);
    Distance(q, d, size);
    if q - d >= 1 {
      AtLeast(q - d, size);
    } else if q - d <= -1 {
      AtLeast(d - q, size);
      Distance(d, q, size);
    }
  }

  /** Adding multiples of a multiple of `n` changes nothing modulo `n`. */
  lemma SameModulo(h: nat, m: nat, l: nat, n: nat)
    requires n > 0 && m % n == 0
    ensures (h * m + l) % n == l % n
  {
    var q := DivMod(m, n);
    var d := DivMod(l, n);
    assert h * m == (h * q) * n by {
      assert m == q * n;
      Product(h, q, n);
    }
    Sum2(h * q, d, n);
    Remainder(h * q + d, l % n, n);
  }

  lemma Product(a: nat, b: nat, c: nat)
    ensures a * (b * c) == (a * b) * c
  {
  }

  lemma Sum2(a: nat, b: nat, c: nat)
    ensures (a + b) * c == a * c + b * c
  {
  }
}
