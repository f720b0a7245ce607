/**
 A byte sequence read as a stream of bits, most significant bit of each byte
 first, with zeros past its end.
 */
module BitStream {
  import opened Words

  function BitAt(data: seq<Byte>, i: nat): nat
  {
    if i / 8 < |data| then Shr(data[i / 8], 7 - i % 8) % 2 else 0
  }

  // The n bits that start at bit p, first bit most significant.
  function Window(data: seq<Byte>, p: nat, n: nat): nat
  {
    if n == 0 then 0 else 2 * Window(data, p, n - 1) + BitAt(data, p + n - 1)
  }

  lemma WindowEmpty(data: seq<Byte>, p: nat)
    ensures Window(data, p, 0) == 0
  {
  }

  lemma {:induction false} WindowBound(data: seq<Byte>, p: nat, n: nat)
    ensures Window(data, p, n) < Pow2(n)
  {
    if n > 0 {
      WindowBound(data, p, n - 1);
    }
  }

  lemma {:induction false} WindowSplit(data: seq<Byte>, p: nat, a: nat, b: nat)
    ensures Window(data, p, a + b) == Shl(Window(data, p, a), b) + Window(data, p + a, b)
  {
    if b > 0 {
      WindowSplit(data, p, a, b - 1);
      assert p + (a + b) - 1 == (p + a) + b - 1;
    }
  }

  lemma {:induction false} WindowInByte(data: seq<Byte>, i: nat, n: nat)
    requires n <= 8
    ensures i < |data| ==> Window(data, 8 * i, n) == Shr(data[i], 8 - n)
    ensures i >= |data| ==> Window(data, 8 * i, n) == 0
  {
    if n == 0 {
      if i < |data| {
        Pow2Values();
        ShrParts(0, data[i], 8);
      }
    } else {
      WindowInByte(data, i, n - 1);
      assert (8 * i + n - 1) / 8 == i && (8 * i + n - 1) % 8 == n - 1;
    }
  }

  lemma WindowByte(data: seq<Byte>, i: nat)
    ensures Window(data, 8 * i, 8) == if i < |data| then data[i] else 0
  {
    WindowInByte(data, i, 8);
  }

  // ---------- Bits laid out in a stream ----------

  // The n low bits of v, most significant first.
  function BitsOf(v: nat, n: nat): (r: seq<nat>)
    ensures |r| == n
  {
    if n == 0 then [] else BitsOf(v / 2, n - 1) + [v % 2]
  }

  // The stream holds the bits e from position p.
  predicate Holds(data: seq<Byte>, p: nat, e: seq<nat>)
  {
    forall k :: 0 <= k < |e| ==> BitAt(data, p + k) == e[k]
  }

  lemma {:induction false} WindowOfBits(data: seq<Byte>, p: nat, v: nat, n: nat)
    requires Holds(data, p, BitsOf(v, n)) && v < Pow2(n)
    ensures Window(data, p, n) == v
  {
    if n > 0 {
      var front := BitsOf(v / 2, n - 1);
      assert BitsOf(v, n) == front + [v % 2];
      assert BitAt(data, p + (n - 1)) == BitsOf(v, n)[n - 1];
      forall k | 0 <= k < n - 1
        ensures BitAt(data, p + k) == front[k]
      {
        assert BitsOf(v, n)[k] == front[k];
      }
      WindowOfBits(data, p, v / 2, n - 1);
    }
  }

  lemma HoldsPrefix(data: seq<Byte>, p: nat, e: seq<nat>, f: seq<nat>)
    requires Holds(data, p, e + f)
    ensures Holds(data, p, e) && Holds(data, p + |e|, f)
  {
    forall k | 0 <= k < |e|
      ensures BitAt(data, p + k) == e[k]
    {
      assert (e + f)[k] == e[k];
    }
    forall k | 0 <= k < |f|
      ensures BitAt(data, p + |e| + k) == f[k]
    {
      assert BitAt(data, p + (|e| + k)) == (e + f)[|e| + k];
    }
  }
}
