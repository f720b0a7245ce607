/**
 Unsigned machine words as natural numbers, with the shifts and the bitwise
 operators that the modelled C code applies to them. Shifts are defined by
 doubling and halving, so that reasoning about them stays linear.
 */
module Words {

  type Byte = x: int | 0 <= x < 0x100
  type Half = x: int | 0 <= x < 0x1_0000
  type Word = x: int | 0 <= x < 0x1_0000_0000

  const WORD_SIZE: nat := 0x1_0000_0000

  datatype Option<T> = None | Some(value: T)

  function Add32(a: Word, b: int): Word { (a + b) % WORD_SIZE }

  // The whole part of a 16.16 number.
  function Floor16(x: int): int { x / 0x1_0000 }

  function Zeros(n: nat): (z: seq<Byte>)
    ensures |z| == n && forall i :: 0 <= i < n ==> z[i] == 0
  {
    seq(n, _ => 0)
  }

  function Min(a: int, b: int): int { if a <= b then a else b }

  function Max(a: int, b: int): int { if a <= b then b else a }

  lemma MulMono(a: int, b: int, c: int)
    requires a <= b && 0 <= c
    ensures a * c <= b * c
  {
  }

  // x * 2^n, before any truncation to the word size.
  function Shl(x: nat, n: nat): (r: nat)
    ensures x <= r
    ensures x == 0 ==> r == 0
  {
    if n == 0 then x else 2 * Shl(x, n - 1)
  }

  // x / 2^n rounded down.
  function Shr(x: nat, n: nat): (r: nat)
    ensures r <= x
  {
    if n == 0 then x else Shr(x, n - 1) / 2
  }

  function Pow2(n: nat): nat { Shl(1, n) }

  lemma Pow2Values()
    ensures Pow2(1) == 2 && Pow2(5) == 32 && Pow2(8) == 0x100 && Pow2(16) == 0x1_0000
    ensures Pow2(24) == 0x100_0000 && Pow2(32) == WORD_SIZE
  {
    assert Shl(1, 8) == 0x100;
    assert Shl(1, 16) == 0x1_0000;
    assert Shl(1, 24) == 0x100_0000;
    assert Shl(1, 32) == WORD_SIZE;
  }

  lemma {:induction false} ShlAdd(x: nat, y: nat, n: nat)
    ensures Shl(x + y, n) == Shl(x, n) + Shl(y, n)
  {
    if n > 0 {
      ShlAdd(x, y, n - 1);
    }
  }

  lemma {:induction false} ShlShl(x: nat, a: nat, b: nat)
    ensures Shl(Shl(x, a), b) == Shl(x, a + b)
  {
    if b > 0 {
      ShlShl(x, a, b - 1);
    }
  }

  lemma {:induction false} ShlMono(x: nat, y: nat, n: nat)
    requires x <= y
    ensures Shl(x, n) <= Shl(y, n)
  {
    if n > 0 {
      ShlMono(x, y, n - 1);
    }
  }

  lemma {:induction false} Pow2Mono(a: nat, b: nat)
    requires a <= b
    ensures Pow2(a) <= Pow2(b)
  {
    if a < b {
      Pow2Mono(a, b - 1);
    }
  }

  lemma {:induction false} ShlOfWord(x: nat)
    ensures Shl(x, 32) == x * WORD_SIZE
  {
    if x == 0 {
    } else {
      ShlOfWord(x - 1);
      ShlAdd(x - 1, 1, 32);
      Pow2Values();
    }
  }

  // A value that fits a bits, shifted left by b, fits a + b bits with room for b more.
  lemma ShlFits(x: nat, a: nat, b: nat, low: nat)
    requires x < Pow2(a) && low < Pow2(b)
    ensures Shl(x, b) + low < Pow2(a + b)
  {
    ShlMono(x + 1, Pow2(a), b);
    ShlAdd(x, 1, b);
    ShlShl(1, a, b);
  }

  // Shifting right by n drops exactly the n low bits.
  lemma {:induction false} ShrParts(hi: nat, lo: nat, n: nat)
    requires lo < Pow2(n)
    ensures Shr(Shl(hi, n) + lo, n) == hi
  {
    if n > 0 {
      ShrStep(Shl(hi, n) + lo, n);
      assert (Shl(hi, n) + lo) / 2 == Shl(hi, n - 1) + lo / 2;
      ShrParts(hi, lo / 2, n - 1);
    }
  }

  // The halvings of a right shift may be taken first or last.
  lemma {:induction false} ShrStep(x: nat, n: nat)
    requires n > 0
    ensures Shr(x, n) == Shr(x / 2, n - 1)
  {
    if n > 1 {
      ShrStep(x, n - 1);
    }
  }

  // Bitwise inclusive or.
  function Or(a: nat, b: nat): nat
    decreases a + b
  {
    if a == 0 && b == 0 then 0
    else Max(a % 2, b % 2) + 2 * Or(a / 2, b / 2)
  }

  // Or-ing a value into a field that is still zero adds it.
  lemma {:induction false} OrDisjoint(a: nat, b: nat, k: nat)
    requires b < Pow2(k)
    ensures Or(Shl(a, k), b) == Shl(a, k) + b
  {
    if k == 0 {
      OrZero(a);
    } else {
      OrDisjoint(a, b / 2, k - 1);
    }
  }

  lemma {:induction false} OrZero(a: nat)
    ensures Or(a, 0) == a
  {
    if a != 0 {
      OrZero(a / 2);
    }
  }

  lemma {:induction false} OrBound(a: nat, b: nat, k: nat)
    requires a < Pow2(k) && b < Pow2(k)
    ensures Or(a, b) < Pow2(k)
  {
    if k == 0 {
    } else if a == 0 && b == 0 {
    } else {
      OrBound(a / 2, b / 2, k - 1);
    }
  }
}
