/**
 The big-endian bit reader that feeds the CEL engine, in its plain form and in
 the form that walks the left halves of interleaved row pairs.
 */
module CelBits {
  import opened Words
  import opened BitStream

  const MAX_WIDTH: nat := 32

  // BitReaderBig_SetBitRate
  function Width(bits: nat): nat
  {
    if bits > MAX_WIDTH then MAX_WIDTH else if bits == 0 then 1 else bits
  }

  // The n low bits of x.
  function Low(x: nat, n: nat): nat
  {
    ShlOfShr(x, n);
    x - Shl(Shr(x, n), n)
  }

  lemma {:induction false} ShlOfShr(x: nat, n: nat)
    ensures Shl(Shr(x, n), n) <= x
  {
    if n > 0 {
      ShrStep(x, n);
      ShlOfShr(x / 2, n - 1);
    }
  }

  lemma LowOfParts(hi: nat, lo: nat, n: nat)
    requires lo < Pow2(n)
    ensures Low(Shl(hi, n) + lo, n) == lo
  {
    ShrParts(hi, lo, n);
  }

  function ByteAt(data: seq<Byte>, i: nat): Byte
  {
    if i < |data| then data[i] else 0
  }

  // The top n bits of a byte.
  lemma TopOfByte(data: seq<Byte>, i: nat, n: nat)
    requires n <= 8
    ensures Shr(ByteAt(data, i), 8 - n) == Window(data, 8 * i, n)
  {
    WindowInByte(data, i, n);
    if i >= |data| {
      ShrParts(0, 0, 8 - n);
    }
  }

  // n bits from inside a byte.
  lemma InsideByte(data: seq<Byte>, i: nat, a: nat, n: nat)
    requires a + n <= 8
    ensures Low(Shr(ByteAt(data, i), 8 - a - n), n) == Window(data, 8 * i + a, n)
  {
    hide Shl, Shr, Window, Low;
    TopOfByte(data, i, a + n);
    WindowSplit(data, 8 * i, a, n);
    WindowBound(data, 8 * i + a, n);
    LowOfParts(Window(data, 8 * i, a), Window(data, 8 * i + a, n), n);
  }

  // Appending k bits to a value already read.
  lemma AppendBits(data: seq<Byte>, p: nat, m: nat, k: nat)
    ensures Or(Shl(Window(data, p, m), k), Window(data, p + m, k)) == Window(data, p, m + k)
  {
    hide Shl, Or, Window;
    WindowBound(data, p + m, k);
    OrDisjoint(Window(data, p, m), Window(data, p + m, k), k);
    WindowSplit(data, p, m, k);
  }

  class BigReader {
    var data: seq<Byte>   // memory from the attached address on
    var attached: bool
    var point: nat
    var bitpoint: nat

    ghost function Pos(): nat
      reads this
    {
      8 * point + bitpoint
    }

    method Attach(data: seq<Byte>)
      modifies this
      ensures this.data == data && attached && Pos() == 0 && bitpoint < 8
    {
      this.data, attached, point, bitpoint := data, true, 0, 0;
    }

    // BitReaderBig_Skip
    method Skip(bits: nat)
      requires bitpoint < 8
      modifies this`point, this`bitpoint
      ensures Pos() == old(Pos()) + bits && bitpoint < 8
    {
      var b := bits + bitpoint;
      point := point + b / 8;
      bitpoint := b % 8;
    }

    // BitReaderBig_Read: any width from any position reads the next bits and moves past them.
    method Read(bits: nat) returns (v: nat)
      requires bitpoint < 8
      modifies this`point, this`bitpoint
      ensures bitpoint < 8
      ensures var n := if bits > 32 then 32 else if bits == 0 then 1 else bits;
              attached ==> v == Window(data, old(Pos()), n) && Pos() == old(Pos()) + n
      ensures !attached ==> v == 0 && Pos() == old(Pos())
    {
      hide Shl, Shr, Or, Window, Low;
      v := 0;
      var n := Width(bits);
      if !attached {
        return;
      }
      ghost var p := Pos();
      if 8 - bitpoint > n {
        InsideByte(data, point, bitpoint, n);
        v := Low(Shr(ByteAt(data, point), 8 - bitpoint - n), n);
        bitpoint := bitpoint + n;
        return;
      }
      var left := n;
      if bitpoint != 0 {
        FromMiddle(data, point, bitpoint);
        v := Low(ByteAt(data, point), 8 - bitpoint);
        point := point + 1;
        left := left - (8 - bitpoint);
      } else {
        WindowEmpty(data, p);
      }
      while left >= 8
        invariant 0 <= left <= n && v == Window(data, p, n - left) && 8 * point == p + (n - left)
      {
        WholeByte(data, point);
        AppendBits(data, p, n - left, 8);
        v := Or(Shl(v, 8), ByteAt(data, point));
        point := point + 1;
        left := left - 8;
      }
      if left != 0 {
        TopOfByte(data, point, left);
        AppendBits(data, p, n - left, left);
        v := Or(Shl(v, left), Shr(ByteAt(data, point), 8 - left));
      }
      bitpoint := left;
    }

    // Reading a list of widths one by one reads the stream they add up to.
    method ReadAll(widths: seq<nat>) returns (vs: seq<nat>)
      requires bitpoint < 8 && attached
      modifies this`point, this`bitpoint
      ensures bitpoint < 8 && |vs| == |widths|
      ensures Pos() == old(Pos()) + Total(widths)
      ensures Joined(vs, widths) == Window(data, old(Pos()), Total(widths))
    {
      hide Shl, Window;
      ghost var p := Pos();
      WindowEmpty(data, p);
      vs := [];
      for i := 0 to |widths|
        invariant bitpoint < 8 && |vs| == i && Pos() == p + Total(widths[..i])
        invariant Joined(vs, widths[..i]) == Window(data, p, Total(widths[..i]))
      {
        assert widths[..i + 1][..i] == widths[..i];
        var v := Read(widths[i]);
        WindowSplit(data, p, Total(widths[..i]), Width(widths[i]));
        assert (vs + [v])[..i] == vs;
        vs := vs + [v];
      }
      assert widths[..|widths|] == widths;
    }
  }

  lemma WholeByte(data: seq<Byte>, i: nat)
    ensures ByteAt(data, i) == Window(data, 8 * i, 8)
  {
    WindowByte(data, i);
  }

  // The rest of a byte from bit a on.
  lemma FromMiddle(data: seq<Byte>, i: nat, a: nat)
    requires 0 < a < 8
    ensures Low(ByteAt(data, i), 8 - a) == Window(data, 8 * i + a, 8 - a)
  {
    InsideByte(data, i, a, 8 - a);
    assert Shr(ByteAt(data, i), 0) == ByteAt(data, i);
  }

  function Total(widths: seq<nat>): nat
  {
    if widths == [] then 0 else Total(widths[..|widths| - 1]) + Width(widths[|widths| - 1])
  }

  // Values laid end to end, each in its own width.
  function Joined(vs: seq<nat>, widths: seq<nat>): nat
    requires |vs| == |widths|
  {
    if vs == [] then 0
    else Shl(Joined(vs[..|vs| - 1], widths[..|vs| - 1]), Width(widths[|vs| - 1])) + vs[|vs| - 1]
  }

  // ---------- The left/right form ----------

  // Byte i of a row whose bytes alternate, two by two, with those of its partner.
  function LRAddress(i: nat): nat { i % 2 + 4 * (i / 2) }

  // The row on its own.
  function Row(data: seq<Byte>, n: nat): (r: seq<Byte>)
    ensures |r| == n
  {
    seq(n, i requires 0 <= i => ByteAt(data, LRAddress(i)))
  }

  // Two rows laid out that way.
  function Interleaved(left: seq<Byte>, right: seq<Byte>): (data: seq<Byte>)
    requires |left| == |right| && |left| % 2 == 0
    ensures |data| == 2 * |left|
    decreases |left|
  {
    if left == [] then [] else left[..2] + right[..2] + Interleaved(left[2..], right[2..])
  }

  lemma {:induction false} InterleavedAt(left: seq<Byte>, right: seq<Byte>, i: nat)
    requires |left| == |right| && |left| % 2 == 0 && i < |left|
    ensures LRAddress(i) + 2 < 2 * |left|
    ensures Interleaved(left, right)[LRAddress(i)] == left[i]
    ensures Interleaved(left, right)[LRAddress(i) + 2] == right[i]
    decreases |left|
  {
    if i >= 2 {
      InterleavedAt(left[2..], right[2..], i - 2);
      assert LRAddress(i) == LRAddress(i - 2) + 4;
    }
  }

  // From the start of two interleaved rows the left one is read, and from two bytes on the right one, whatever
  // follows them in memory.
  lemma RowsOfPair(left: seq<Byte>, right: seq<Byte>, rest: seq<Byte>)
    requires |left| == |right| && |left| % 2 == 0
    ensures Row(Interleaved(left, right) + rest, |left|) == left
    ensures |left| > 0 ==> Row((Interleaved(left, right) + rest)[2..], |left|) == right
  {
    hide Interleaved, LRAddress;
    var data := Interleaved(left, right) + rest;
    forall i | 0 <= i < |left|
      ensures LRAddress(i) + 2 < 2 * |left|
      ensures data[LRAddress(i)] == left[i] && data[LRAddress(i) + 2] == right[i]
    {
      InterleavedAt(left, right, i);
    }
  }

  // BitReaderBig_ReadLRForm reads the row's own bits, one at a time.
  method ReadLRForm(data: seq<Byte>, point0: nat, bitpoint0: nat, bits: nat, ghost n: nat)
    returns (v: nat, point: nat, bitpoint: nat)
    requires bitpoint0 < 8 && 8 * point0 + bitpoint0 + Width(bits) <= 8 * n
    ensures var w := if bits > 32 then 32 else if bits == 0 then 1 else bits;
            && bitpoint < 8 && 8 * point + bitpoint == 8 * point0 + bitpoint0 + w
            && v == Window(Row(data, n), 8 * point0 + bitpoint0, w)
  {
    hide Shr, Window;
    v, point, bitpoint := 0, point0, bitpoint0;
    ghost var p := 8 * point0 + bitpoint0;
    WindowEmpty(Row(data, n), p);
    for i := 0 to Width(bits)
      invariant bitpoint < 8 && 8 * point + bitpoint == p + i
      invariant v == Window(Row(data, n), p, i)
    {
      WindowNext(Row(data, n), p, i);
      assert (p + i) / 8 == point && (p + i) % 8 == bitpoint;
      assert Row(data, n)[point] == ByteAt(data, LRAddress(point));
      v := 2 * v + Shr(ByteAt(data, LRAddress(point)), 7 - bitpoint) % 2;
      bitpoint := bitpoint + 1;
      if bitpoint == 8 {
        bitpoint := 0;
        point := point + 1;
      }
    }
  }

  lemma WindowNext(data: seq<Byte>, p: nat, n: nat)
    ensures Window(data, p, n + 1) == 2 * Window(data, p, n) + BitAt(data, p + n)
  {
  }
}
