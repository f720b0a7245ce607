/**
 Packed rows as they are made: packets of literal, transparent and repeated
 pixels laid out bit by bit. What a row paints is then known pixel by pixel.
 */
module CelPackets {
  import opened Words
  import opened BitStream
  import opened CelBits
  import opened CelRow

  // ---------- Packets in bits ----------

  datatype Packet = Pixels(raw: seq<nat>) | Gap(n: nat) | Repeat(n: nat, pixel: nat)

  // Pixel values fit their width and a packet has 1 to 64 pixels.
  predicate Fits(k: Packet, bpp: nat)
  {
    match k
    case Pixels(raw) => 1 <= |raw| <= 64 && forall i :: 0 <= i < |raw| ==> raw[i] < Pow2(bpp)
    case Gap(n) => 1 <= n <= 64
    case Repeat(n, pixel) => 1 <= n <= 64 && pixel < Pow2(bpp)
  }

  predicate AllFit(ks: seq<Packet>, bpp: nat) { forall i :: 0 <= i < |ks| ==> Fits(ks[i], bpp) }

  function PixelBits(raw: seq<nat>, bpp: nat): seq<nat>
  {
    if raw == [] then [] else PixelBits(raw[..|raw| - 1], bpp) + BitsOf(raw[|raw| - 1], bpp)
  }

  // A two-bit type, the count less one in six bits, then the pixels.
  function PacketBits(k: Packet, bpp: nat): seq<nat>
    requires Fits(k, bpp)
  {
    match k
    case Pixels(raw) => [0, 1] + BitsOf(|raw| - 1, 6) + PixelBits(raw, bpp)
    case Gap(n) => [1, 0] + BitsOf(n - 1, 6)
    case Repeat(n, pixel) => [1, 1] + BitsOf(n - 1, 6) + BitsOf(pixel, bpp)
  }

  // The packets one after the other.
  function RowBits(ks: seq<Packet>, bpp: nat): seq<nat>
    requires AllFit(ks, bpp)
  {
    if ks == [] then [] else PacketBits(ks[0], bpp) + RowBits(ks[1..], bpp)
  }

  // The packets stand at bit p, inside the row, and it ends behind them: by an end packet, whose type is zero, or
  // because the next type would not be read before the row's last byte is over.
  predicate LaidOut(s: Source, p: nat, ks: seq<Packet>)
    requires AllFit(ks, s.bpp)
  {
    var end := p + |RowBits(ks, s.bpp)|;
    && Holds(s.data, p, RowBits(ks, s.bpp)) && end <= 8 * s.limit
    && (Holds(s.data, end, [0, 0]) || end + 2 >= 8 * s.limit)
  }

  // What the packets stand for.
  function PacketRow(k: Packet): seq<Pixel>
  {
    match k
    case Pixels(raw) => seq(|raw|, i requires 0 <= i < |raw| => Some(raw[i]))
    case Gap(n) => seq(n, _ => None)
    case Repeat(n, pixel) => seq(n, _ => Some(pixel))
  }

  function Row(ks: seq<Packet>): seq<Pixel>
  {
    if ks == [] then [] else PacketRow(ks[0]) + Row(ks[1..])
  }

  // ---------- Reading them back ----------

  lemma {:induction false} PixelWindow(data: seq<Byte>, p: nat, raw: seq<nat>, s: Source, i: nat)
    requires Holds(data, p, PixelBits(raw, s.bpp)) && i < |raw| && raw[i] < Pow2(s.bpp)
    ensures |PixelBits(raw, s.bpp)| == Bits(s, |raw|)
    ensures Window(data, p + Bits(s, i), s.bpp) == raw[i]
    decreases |raw|
  {
    hide Window, Holds, BitsOf, Bits, Shl;
    var last := |raw| - 1;
    var front := raw[..last];
    HoldsPrefix(data, p, PixelBits(front, s.bpp), BitsOf(raw[last], s.bpp));
    PixelBitsLength(front, s);
    PixelBitsLength(raw, s);
    if i == last {
      WindowOfBits(data, p + Bits(s, last), raw[last], s.bpp);
    } else {
      PixelWindow(data, p, front, s, i);
    }
  }

  lemma {:induction false} PixelBitsLength(raw: seq<nat>, s: Source)
    ensures |PixelBits(raw, s.bpp)| == Bits(s, |raw|)
    decreases |raw|
  {
    hide BitsOf, Bits;
    BitsAdd(s, 0, 0);
    if raw != [] {
      PixelBitsLength(raw[..|raw| - 1], s);
      BitsAdd(s, |raw| - 1, 1);
    }
  }

  // Two bits of type and six of count, as the reader of a packet's header sees them.
  lemma HeaderSeen(s: Source, p: nat, hi: nat, lo: nat, count: nat)
    requires hi <= 1 && lo <= 1 && 1 <= count <= 64 && p + 8 <= 8 * s.limit
    requires Holds(s.data, p, [hi, lo] + BitsOf(count - 1, 6))
    ensures CountAt(s, p) == count
    ensures KindAt(s, p) == if hi == 0 then (if lo == 0 then EndOfLine else Literal)
                            else if lo == 0 then Transparent else CelRow.Packed
  {
    hide BitsOf, Holds, Window, Shl;
    HoldsPrefix(s.data, p, [hi, lo], BitsOf(count - 1, 6));
    TwoBitsOf(hi, lo);
    SixBits();
    WindowOfBits(s.data, p, 2 * hi + lo, 2);
    WindowOfBits(s.data, p + 2, count - 1, 6);
  }

  lemma TwoBitsOf(hi: nat, lo: nat)
    requires hi <= 1 && lo <= 1
    ensures BitsOf(2 * hi + lo, 2) == [hi, lo] && 2 * hi + lo < Pow2(2)
  {
    assert BitsOf(hi, 1) == BitsOf(0, 0) + [hi];
    assert BitsOf(2 * hi + lo, 2) == BitsOf(hi, 1) + [lo];
  }

  lemma SixBits()
    ensures Pow2(6) == 64
  {
    assert Shl(1, 3) == 8;
  }

  // The packet at p of a stream that holds its bits there.
  lemma PacketSeen(s: Source, p: nat, k: Packet)
    requires Fits(k, s.bpp) && Holds(s.data, p, PacketBits(k, s.bpp)) && p + 8 <= 8 * s.limit
    ensures KindAt(s, p) != EndOfLine && PacketPixels(s, p) == PacketRow(k)
    ensures SizeAt(s, p) == |PacketBits(k, s.bpp)|
  {
    hide Holds, Window, BitsOf, Bits, KindAt, CountAt, Shl;
    match k
    case Pixels(raw) =>
      HoldsPrefix(s.data, p, [0, 1] + BitsOf(|raw| - 1, 6), PixelBits(raw, s.bpp));
      HeaderSeen(s, p, 0, 1, |raw|);
      PixelBitsLength(raw, s);
      forall i | 0 <= i < |raw|
        ensures PacketPixels(s, p)[i] == Some(raw[i])
      {
        PixelWindow(s.data, p + 8, raw, s, i);
      }
    case Gap(n) => HeaderSeen(s, p, 1, 0, n);
    case Repeat(n, pixel) =>
      HoldsPrefix(s.data, p, [1, 1] + BitsOf(n - 1, 6), BitsOf(pixel, s.bpp));
      HeaderSeen(s, p, 1, 1, n);
      WindowOfBits(s.data, p + 8, pixel, s.bpp);
  }

  // A row read where its packets were laid out is the row they stand for.
  lemma {:induction false} RowSeen(s: Source, p: nat, ks: seq<Packet>)
    requires AllFit(ks, s.bpp) && LaidOut(s, p, ks)
    ensures RowPixels(s, p) == Row(ks)
    decreases |ks|
  {
    hide Holds, PacketBits, PacketPixels, PacketRow, KindAt, SizeAt, Fits;
    if ks == [] {
      NoneLeft(s, p);
    } else {
      var first, rest := PacketBits(ks[0], s.bpp), RowBits(ks[1..], s.bpp);
      HoldsPrefix(s.data, p, first, rest);
      HeaderFirst(ks[0], s.bpp);
      PacketSeen(s, p, ks[0]);
      RowSeen(s, p + SizeAt(s, p), ks[1..]);
    }
  }

  lemma HeaderFirst(k: Packet, bpp: nat)
    requires Fits(k, bpp)
    ensures |PacketBits(k, bpp)| >= 8
  {
    hide BitsOf;
  }

  lemma NoneLeft(s: Source, p: nat)
    requires Holds(s.data, p, [0, 0]) || p + 2 >= 8 * s.limit
    ensures RowPixels(s, p) == []
  {
    hide Holds, Window, BitsOf, Shl;
    TwoBitsOf(0, 0);
    if Holds(s.data, p, [0, 0]) {
      WindowOfBits(s.data, p, 0, 2);
    }
  }

  // ---------- What is painted, address by address ----------

  // Where column k's pixel goes.
  function Target(e: Engine, l: Line, k: nat): int
  {
    e.writeAt(Floor16(l.x + k * l.dx), Floor16(l.y + k * l.dy))
  }

  // Columns a to b - 1 go to different places of one frame buffer that is read and written.
  ghost predicate Apart(e: Engine, l: Line, mem: seq<Half>, a: nat, b: nat)
  {
    && (forall k :: a <= k < b ==> 0 <= Target(e, l, k) < |mem|)
    && (forall k :: a <= k < b ==> e.readAt(Floor16(l.x + k * l.dx), Floor16(l.y + k * l.dy)) == Target(e, l, k))
    && (forall j, k :: a <= j < k < b ==> Target(e, l, j) != Target(e, l, k))
  }

  predicate Opaque(e: Engine, p: Pixel) { p.Some? && !e.decode(p.value).transparent }

  // Each opaque pixel of the columns is blended with what its place held, and no other place changes.
  lemma {:induction false} ColumnsPainted(e: Engine, l: Line, mem: seq<Half>, ps: seq<Pixel>, a: nat, b: nat)
    requires b <= |ps| && Apart(e, l, mem, a, b)
    ensures var r := PaintColumns(e, l, mem, ps, a, b);
            && |r| == |mem|
            && (forall k :: a <= k < b && Opaque(e, ps[k]) ==>
                              r[Target(e, l, k)] == e.blend(e.decode(ps[k].value), mem[Target(e, l, k)]))
            && (forall x :: 0 <= x < |mem| && (forall k :: a <= k < b && Opaque(e, ps[k]) ==> Target(e, l, k) != x) ==>
                              r[x] == mem[x])
    decreases b
  {
    hide Floor16;
    if a < b {
      ColumnsPainted(e, l, mem, ps, a, b - 1);
    }
  }

  // An opaque pixel of the row goes to x.
  ghost predicate Hit(e: Engine, l: Line, row: seq<Pixel>, skip: nat, from: nat, to: nat, x: int)
  {
    exists k :: from <= k < to && skip + k < |row| && Opaque(e, row[skip + k]) && Target(e, l, k) == x
  }

  // Main result: a row of packets drawn in LINE mode. Of the pixels the packets stand for, without the first skip
  // ones, those of columns from to to - 1 are blended into their own places and nothing else changes.
  method DrawPackets(r: BigReader, s: Source, e: Engine, l: Line, mem0: seq<Half>, skip: nat, from: nat, to: nat,
                     ghost ks: seq<Packet>)
    returns (mem: seq<Half>)
    requires r.attached && r.data == s.data && r.bitpoint < 8 && Ready(s) && WholeSteps(l) && from < to
    requires AllFit(ks, s.bpp) && LaidOut(s, r.Pos(), ks) && Apart(e, l, mem0, from, to)
    modifies r`point, r`bitpoint
    ensures |mem| == |mem0|
    ensures forall k :: from <= k < to && skip + k < |Row(ks)| && Opaque(e, Row(ks)[skip + k]) ==>
              mem[Target(e, l, k)] == e.blend(e.decode(Row(ks)[skip + k].value), mem0[Target(e, l, k)])
    ensures forall x :: 0 <= x < |mem0| && !Hit(e, l, Row(ks), skip, from, to, x) ==> mem[x] == mem0[x]
  {
    hide Window, PaintColumns, RowPixels, LaidOut, Row, Floor16;
    RowSeen(s, r.Pos(), ks);
    mem := DrawRow(r, s, e, l, mem0, skip, from, to);
    ghost var d := Dropped(Row(ks), skip);
    ColumnsPainted(e, l, mem0, d, from, Min(to, |d|));
  }
}
