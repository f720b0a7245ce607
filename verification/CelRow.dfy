/**
 A packed CEL row drawn in LINE mode: packets are unpacked on the fly while a
 source skip, a clip-window skip and a clip-window limit are applied, and runs
 go through a painter that caches its last blend.

 The specification first expands the whole row (`RowPixels`), then drops,
 restricts and paints it one pixel at a time.
 */
module CelRow {
  import opened Words
  import opened BitStream
  import opened CelBits

  // ---------- Painting ----------

  // A decoded pixel.
  datatype Texel = Texel(pixel: Half, lamv: Half, transparent: bool)

  // The frame buffers' address maps, the pixel decoder (PDEC) and the blend (PPROC then
  // PPROJ_OUTPUT) are taken as given functions; nothing is assumed about how addresses overlap.
  datatype Engine = Engine(
    readAt: (int, int) -> int,
    writeAt: (int, int) -> int,
    decode: nat -> Texel,
    blend: (Texel, Half) -> Half)

  function Peek16(mem: seq<Half>, a: int): Half { if 0 <= a < |mem| then mem[a] else 0 }

  function Poke16(mem: seq<Half>, a: int, v: Half): seq<Half> { if 0 <= a < |mem| then mem[a := v] else mem }

  // process_pixel
  function ProcessPixel(e: Engine, mem: seq<Half>, x: int, y: int, t: Texel): seq<Half>
  {
    Poke16(mem, e.writeAt(x, y), e.blend(t, Peek16(mem, e.readAt(x, y))))
  }

  // Where a row is drawn: the 16.16 position of its column 0 and the step per column.
  datatype Line = Line(x: int, y: int, dx: int, dy: int)

  predicate WholeSteps(l: Line) { l.dx % 0x1_0000 == 0 && l.dy % 0x1_0000 == 0 }

  function PaintColumn(e: Engine, l: Line, mem: seq<Half>, k: nat, t: Texel): seq<Half>
  {
    ProcessPixel(e, mem, Floor16(l.x + k * l.dx), Floor16(l.y + k * l.dy), t)
  }

  // n columns from k on, one process_pixel each.
  function PaintRun(e: Engine, l: Line, mem: seq<Half>, k: nat, n: nat, t: Texel): seq<Half>
  {
    if n == 0 then mem else PaintColumn(e, l, PaintRun(e, l, mem, k, n - 1, t), k + n - 1, t)
  }

  lemma FloorWhole(x: int, d: int)
    requires d % 0x1_0000 == 0
    ensures Floor16(x + d) == Floor16(x) + Floor16(d)
  {
  }

  // TexelDrawLine: blends again only when the frame buffer's value changes, yet leaves the same
  // memory as painting pixel by pixel, however the two frame buffers overlap.
  method TexelDrawLine(e: Engine, l: Line, mem0: seq<Half>, k: nat, count: int, t: Texel) returns (mem: seq<Half>)
    requires WholeSteps(l)
    ensures mem == PaintRun(e, l, mem0, k, Max(count, 0), t)
  {
    hide Floor16;
    mem := mem0;
    var x, y := Floor16(l.x + k * l.dx), Floor16(l.y + k * l.dy);
    var curr := 0xFFFF_FFFF;
    var pixel: Half := 0;
    var i := 0;
    while i < count
      invariant 0 <= i <= Max(count, 0)
      invariant x == Floor16(l.x + (k + i) * l.dx) && y == Floor16(l.y + (k + i) * l.dy)
      invariant curr == 0xFFFF_FFFF || (0 <= curr < 0x1_0000 && pixel == e.blend(t, curr))
      invariant mem == PaintRun(e, l, mem0, k, i, t)
    {
      var next := Peek16(mem, e.readAt(x, y));
      if next != curr {
        curr := next;
        pixel := e.blend(t, next);
      }
      mem := Poke16(mem, e.writeAt(x, y), pixel);
      NextColumn(l.x, l.dx, k + i);
      NextColumn(l.y, l.dy, k + i);
      x, y, i := x + Floor16(l.dx), y + Floor16(l.dy), i + 1;
    }
  }

  lemma NextColumn(x: int, d: int, k: int)
    requires d % 0x1_0000 == 0
    ensures Floor16(x + (k + 1) * d) == Floor16(x + k * d) + Floor16(d)
  {
    assert (k + 1) * d == k * d + d;
    FloorWhole(x + k * d, d);
  }

  // ---------- The row, expanded ----------

  // The row's bytes, its pixel width and the byte at which the source forces an end of row.
  datatype Source = Source(data: seq<Byte>, bpp: nat, limit: nat)

  datatype Kind = EndOfLine | Literal | Transparent | Packed

  function KindAt(s: Source, p: nat): Kind
  {
    if (p + 2) / 8 >= s.limit then EndOfLine
    else
      match Window(s.data, p, 2)
      case 0 => EndOfLine
      case 1 => Literal
      case 2 => Transparent
      case _ => Packed
  }

  function CountAt(s: Source, p: nat): nat { Window(s.data, p + 2, 6) + 1 }

  // Bits of a packet, header included.
  function SizeAt(s: Source, p: nat): (n: nat)
    ensures n >= 8
  {
    match KindAt(s, p)
    case EndOfLine => 8
    case Literal => 8 + Bits(s, CountAt(s, p))
    case Transparent => 8
    case Packed => 8 + s.bpp
  }

  // n pixels' worth of bits.
  function Bits(s: Source, n: nat): (b: nat)
  {
    NonNegative(n, s.bpp);
    n * s.bpp
  }

  lemma NonNegative(a: nat, b: nat)
    ensures a * b >= 0
  {
  }

  lemma BitsAdd(s: Source, a: nat, b: nat)
    ensures Bits(s, a + b) == Bits(s, a) + Bits(s, b)
    ensures Bits(s, 0) == 0 && Bits(s, 1) == s.bpp
  {
  }

  // A packet's pixel i; None leaves the frame buffer alone.
  type Pixel = Option<nat>

  function PixelAt(s: Source, p: nat, i: nat): Pixel
  {
    match KindAt(s, p)
    case EndOfLine => None
    case Literal => Some(Window(s.data, p + 8 + Bits(s, i), s.bpp))
    case Transparent => None
    case Packed => Some(Window(s.data, p + 8, s.bpp))
  }

  function PacketPixels(s: Source, p: nat): (r: seq<Pixel>)
    ensures |r| == CountAt(s, p)
  {
    seq(CountAt(s, p), i requires 0 <= i => PixelAt(s, p, i))
  }

  // Every pixel of the row from bit p on.
  function RowPixels(s: Source, p: nat): seq<Pixel>
    decreases 8 * s.limit - p
  {
    if KindAt(s, p) == EndOfLine then []
    else PacketPixels(s, p) + RowPixels(s, p + SizeAt(s, p))
  }

  // ---------- What a row must paint ----------

  function PaintPixel(e: Engine, l: Line, mem: seq<Half>, k: nat, p: Pixel): seq<Half>
  {
    if p == None || e.decode(p.value).transparent then mem else PaintColumn(e, l, mem, k, e.decode(p.value))
  }

  // Columns a to b - 1 of the pixels ps, left to right.
  function PaintColumns(e: Engine, l: Line, mem: seq<Half>, ps: seq<Pixel>, a: nat, b: nat): seq<Half>
    requires b <= |ps|
    decreases b
  {
    if b <= a then mem else PaintPixel(e, l, PaintColumns(e, l, mem, ps, a, b - 1), b - 1, ps[b - 1])
  }

  // The row with its first skip pixels dropped.
  function Dropped(ps: seq<Pixel>, skip: nat): seq<Pixel> { if skip <= |ps| then ps[skip..] else [] }

  // The whole row: dropped, then restricted to columns [from, to).
  function PaintRow(e: Engine, l: Line, mem: seq<Half>, ps: seq<Pixel>, skip: nat, from: nat, to: nat): seq<Half>
  {
    var d := Dropped(ps, skip);
    PaintColumns(e, l, mem, d, from, Min(to, |d|))
  }

  // ---------- Painting a stretch of one packet ----------

  lemma {:induction false} PaintNone(e: Engine, l: Line, mem: seq<Half>, ps: seq<Pixel>, a: nat, k: nat, n: nat)
    requires a <= k && k + n <= |ps| && forall j :: k <= j < k + n ==> ps[j] == None
    ensures PaintColumns(e, l, mem, ps, a, k + n) == PaintColumns(e, l, mem, ps, a, k)
    decreases n
  {
    if n > 0 {
      PaintNone(e, l, mem, ps, a, k, n - 1);
    }
  }

  lemma {:induction false} PaintSame(e: Engine, l: Line, mem: seq<Half>, ps: seq<Pixel>, a: nat, k: nat, n: nat, v: nat)
    requires a <= k && k + n <= |ps| && forall j :: k <= j < k + n ==> ps[j] == Some(v)
    ensures PaintColumns(e, l, mem, ps, a, k + n) ==
            var before := PaintColumns(e, l, mem, ps, a, k);
            if e.decode(v).transparent then before else PaintRun(e, l, before, k, n, e.decode(v))
    decreases n
  {
    hide PaintColumn;
    if n > 0 {
      PaintSame(e, l, mem, ps, a, k, n - 1, v);
    }
  }

  // ---------- Reading packets ----------

  predicate Ready(s: Source) { 1 <= s.bpp <= MAX_WIDTH }

  // The two-bit type and six-bit count; the type is overruled at the end of the row.
  method ReadHeader(r: BigReader, s: Source) returns (kind: Kind, count: nat)
    requires r.attached && r.data == s.data && r.bitpoint < 8
    modifies r`point, r`bitpoint
    ensures r.bitpoint < 8 && r.Pos() == old(r.Pos()) + 8
    ensures kind == KindAt(s, old(r.Pos())) && count == CountAt(s, old(r.Pos()))
  {
    hide Window;
    ghost var p := r.Pos();
    var t := r.Read(2);
    TwoBits(s.data, p);
    kind := if t == 0 then EndOfLine else if t == 1 then Literal else if t == 2 then Transparent else Packed;
    if r.point >= s.limit {
      kind := EndOfLine;
    }
    var c := r.Read(6);
    count := c + 1;
  }

  lemma TwoBits(data: seq<Byte>, p: nat)
    ensures Window(data, p, 2) < 4
  {
    WindowBound(data, p, 2);
    assert Pow2(2) == 4;
  }

  // How many of a packet's pixels the source skip takes.
  function SkipOf(kind: Kind, count: nat, skip: nat): nat { if kind == EndOfLine then 0 else Min(skip, count) }

  // PackedSkipPixels
  method SkipPixels(r: BigReader, s: Source, kind: Kind, count: nat, skip: nat) returns (left: nat, still: nat)
    requires r.bitpoint < 8
    modifies r`point, r`bitpoint
    ensures r.bitpoint < 8
    ensures left == count - SkipOf(kind, count, skip) && still == skip - SkipOf(kind, count, skip)
    ensures r.Pos() == old(r.Pos()) +
                       (if kind == Literal then Bits(s, SkipOf(kind, count, skip))
                        else if kind == Packed && skip >= count > 0 then s.bpp else 0)
  {
    if skip == 0 || count == 0 || kind == EndOfLine {
      BitsAdd(s, 0, 0);
      return count, skip;
    }
    var skipped := if skip < count then skip else count;
    if kind == Literal {
      r.Skip(Bits(s, skipped));
    } else if kind == Packed && skipped == count {
      r.Skip(s.bpp);
    }
    left, still := count - skipped, skip - skipped;
  }

  // The clip window's skip of a packet of which n pixels are left.
  method SkipColumns(r: BigReader, s: Source, kind: Kind, n: nat, scipw: nat) returns (left: nat, still: nat)
    requires r.bitpoint < 8 && kind != EndOfLine && n > 0
    modifies r`point, r`bitpoint
    ensures r.bitpoint < 8
    ensures left == n - Min(scipw, n) && still == scipw - Min(scipw, n)
    ensures r.Pos() == old(r.Pos()) +
                       (if kind == Literal then Bits(s, Min(scipw, n))
                        else if kind == Packed && scipw >= n then s.bpp else 0)
  {
    left, still := n, scipw;
    if scipw == 0 {
      BitsAdd(s, 0, 0);
      return;
    }
    if scipw >= n {
      still, left := scipw - n, 0;
      if kind == Literal {
        r.Skip(Bits(s, n));
      } else if kind == Packed {
        r.Skip(s.bpp);
      }
    } else {
      left := n - scipw;
      if kind == Literal {
        r.Skip(Bits(s, scipw));
      }
      still := 0;
    }
  }

  // n literal pixels at columns k on.
  method DrawLiterals(r: BigReader, s: Source, e: Engine, l: Line, mem0: seq<Half>, n: nat,
                      ghost all: seq<Half>, ghost ps: seq<Pixel>, ghost a: nat, k: nat)
    returns (mem: seq<Half>)
    requires r.attached && r.data == s.data && r.bitpoint < 8 && Ready(s)
    requires a <= k && k + n <= |ps|
    requires forall j :: 0 <= j < n ==> ps[k + j] == Some(Window(s.data, r.Pos() + Bits(s, j), s.bpp))
    requires mem0 == PaintColumns(e, l, all, ps, a, k)
    modifies r`point, r`bitpoint
    ensures r.bitpoint < 8 && r.Pos() == old(r.Pos()) + Bits(s, n)
    ensures mem == PaintColumns(e, l, all, ps, a, k + n)
  {
    hide Window, PaintColumn, Floor16, Bits;
    ghost var p := r.Pos();
    BitsAdd(s, 0, 0);
    mem := mem0;
    var xcur, ycur := l.x + k * l.dx, l.y + k * l.dy;
    var i := 0;
    while i < n
      invariant 0 <= i <= n && r.bitpoint < 8 && r.Pos() == p + Bits(s, i)
      invariant xcur == l.x + (k + i) * l.dx && ycur == l.y + (k + i) * l.dy
      invariant mem == PaintColumns(e, l, all, ps, a, k + i)
    {
      var raw := r.Read(s.bpp);
      assert ps[k + i] == Some(raw);
      var t := e.decode(raw);
      if !t.transparent {
        ColumnIs(e, l, mem, k + i, t);
        mem := ProcessPixel(e, mem, Floor16(xcur), Floor16(ycur), t);
      }
      BitsAdd(s, i, 1);
      NextProduct(k + i, l.dx);
      NextProduct(k + i, l.dy);
      xcur, ycur, i := xcur + l.dx, ycur + l.dy, i + 1;
    }
  }

  lemma ColumnIs(e: Engine, l: Line, mem: seq<Half>, k: nat, t: Texel)
    ensures PaintColumn(e, l, mem, k, t) == ProcessPixel(e, mem, Floor16(l.x + k * l.dx), Floor16(l.y + k * l.dy), t)
  {
  }

  lemma NextProduct(k: int, d: int)
    ensures (k + 1) * d == k * d + d
  {
  }

  // ---------- The row loop ----------

  // The next packet's pixels are next in the row.
  lemma PacketInRow(s: Source, p: nat, ps: seq<Pixel>, done: nat)
    requires done <= |ps| && ps[done..] == RowPixels(s, p) && KindAt(s, p) != EndOfLine
    ensures done + CountAt(s, p) <= |ps|
    ensures forall i :: 0 <= i < CountAt(s, p) ==> ps[done + i] == PixelAt(s, p, i)
    ensures ps[done + CountAt(s, p)..] == RowPixels(s, p + SizeAt(s, p))
  {
    var n := CountAt(s, p);
    var rest := ps[done..];
    assert rest == PacketPixels(s, p) + RowPixels(s, p + SizeAt(s, p));
    assert rest[n..] == ps[done + n..];
    forall i | 0 <= i < n
      ensures ps[done + i] == PixelAt(s, p, i)
    {
      assert rest[i] == PacketPixels(s, p)[i];
    }
  }

  // How far a row has been drawn: done source pixels consumed, of which the first skip count as
  // no column at all.
  ghost predicate Drawn(e: Engine, l: Line, all: seq<Half>, ps: seq<Pixel>, skip: nat, from: nat, to: nat,
                        mem: seq<Half>, done: nat, c: Cursor)
  {
    && done <= |ps|
    && CursorAt(c, skip, from, to, done)
    && c.col <= |Dropped(ps, skip)|
    && mem == PaintColumns(e, l, all, Dropped(ps, skip), from, c.col)
  }

  // Where the row loop's variables stand after done source pixels.
  predicate CursorAt(c: Cursor, skip: nat, from: nat, to: nat, done: nat)
  {
    && c.col == Max(0, done - skip)
    && c.srcSkip == Max(0, skip - done)
    && c.scipw == Max(0, from - c.col)
    && c.wcnt == Max(from, c.col) < to
  }

  // The cursor after both skips of a packet of count pixels.
  function Skipped(c: Cursor, count: nat): Cursor
  {
    var s1 := Min(c.srcSkip, count);
    var s2 := Min(c.scipw, count - s1);
    Cursor(c.srcSkip - s1, c.scipw - s2, c.wcnt, c.col + s2)
  }

  function LeftOf(c: Cursor, count: nat): (n: nat)
    ensures n <= count
  {
    count - Min(c.srcSkip, count) - Min(c.scipw, count - Min(c.srcSkip, count))
  }

  // A packet is either skipped whole, or both skips end inside it at a known column.
  lemma SkipsEnd(c: Cursor, skip: nat, from: nat, to: nat, done: nat, count: nat)
    requires CursorAt(c, skip, from, to, done)
    ensures LeftOf(c, count) == 0 ==>
              CursorAt(Skipped(c, count), skip, from, to, done + count) && (Skipped(c, count).col <= from || count == 0)
    ensures LeftOf(c, count) > 0 ==>
              var c' := Skipped(c, count);
              && c'.srcSkip == 0 && c'.scipw == 0 && c'.wcnt == c'.col == Max(from, c.col) < to
              && c'.col == done + (count - LeftOf(c, count)) - skip
  {
  }

  // Columns k to k + n - 1 of d are the packet's pixels from i on.
  ghost predicate Stretch(s: Source, p: nat, i: nat, d: seq<Pixel>, k: nat, n: nat)
  {
    k + n <= |d| && forall q :: k <= q < k + n ==> d[q] == PixelAt(s, p, i + q - k)
  }

  // The packet type's stretch of columns, painted: pixels i to i + n - 1 of the packet at p.
  method DrawStretch(r: BigReader, s: Source, e: Engine, l: Line, mem0: seq<Half>, kind: Kind, n: nat, k: nat,
                     ghost p: nat, ghost i: nat,
                     ghost all: seq<Half>, ghost d: seq<Pixel>, ghost from: nat)
    returns (mem: seq<Half>)
    requires r.attached && r.data == s.data && r.bitpoint < 8 && Ready(s) && WholeSteps(l)
    requires kind == KindAt(s, p) != EndOfLine && from <= k && k + n <= |d|
    requires Stretch(s, p, i, d, k, n)
    requires r.Pos() == p + 8 + (if kind == Literal then Bits(s, i) else 0)
    requires mem0 == PaintColumns(e, l, all, d, from, k)
    modifies r`point, r`bitpoint
    ensures r.bitpoint < 8
    ensures r.Pos() == p + 8 + (if kind == Literal then Bits(s, i + n) else if kind == Packed then s.bpp else 0)
    ensures mem == PaintColumns(e, l, all, d, from, k + n)
  {
    hide Window, PaintColumns, PaintRun, Bits;
    match kind {
      case Literal =>
        BitsAdd(s, i, n);
        forall j | 0 <= j < n
          ensures d[k + j] == Some(Window(s.data, r.Pos() + Bits(s, j), s.bpp))
        {
          BitsAdd(s, i, j);
          assert d[k + j] == PixelAt(s, p, i + (k + j) - k);
        }
        mem := DrawLiterals(r, s, e, l, mem0, n, all, d, from, k);
      case Transparent =>
        forall j | k <= j < k + n
          ensures d[j] == None
        {
          assert d[j] == PixelAt(s, p, i + j - k);
        }
        PaintNone(e, l, all, d, from, k, n);
        mem := mem0;
      case Packed =>
        var raw := r.Read(s.bpp);
        forall j | k <= j < k + n
          ensures d[j] == Some(raw)
        {
          assert d[j] == PixelAt(s, p, i + j - k);
        }
        PaintSame(e, l, all, d, from, k, n, raw);
        mem := mem0;
        var t := e.decode(raw);
        if !t.transparent {
          mem := TexelDrawLine(e, l, mem0, k, n, t);
        }
    }
  }

  lemma PaintedNothing(e: Engine, l: Line, mem: seq<Half>, d: seq<Pixel>, from: nat, b: nat)
    requires b <= from && b <= |d|
    ensures PaintColumns(e, l, mem, d, from, b) == mem
  {
  }

  lemma AtEnd(s: Source, p: nat)
    requires KindAt(s, p) == EndOfLine
    ensures RowPixels(s, p) == []
  {
  }

  lemma BelowLimit(s: Source, p: nat)
    requires KindAt(s, p) != EndOfLine
    ensures p < 8 * s.limit && CountAt(s, p) >= 1
    ensures SizeAt(s, p) == 8 + (if KindAt(s, p) == Literal then Bits(s, CountAt(s, p))
                                 else if KindAt(s, p) == Packed then s.bpp else 0)
  {
  }

  // The packet's pixels from i on are the dropped row's columns from col on.
  lemma ColumnsOfPacket(s: Source, p: nat, ps: seq<Pixel>, skip: nat, done: nat, i: nat, n: nat)
    requires skip <= done + i && i + n <= CountAt(s, p) && done + CountAt(s, p) <= |ps|
    requires forall j :: 0 <= j < CountAt(s, p) ==> ps[done + j] == PixelAt(s, p, j)
    ensures Stretch(s, p, i, Dropped(ps, skip), done + i - skip, n)
  {
    hide PixelAt;
    var d, k := Dropped(ps, skip), done + i - skip;
    forall q | k <= q < k + n
      ensures d[q] == PixelAt(s, p, i + q - k)
    {
      assert ps[done + (i + q - k)] == PixelAt(s, p, i + q - k);
    }
  }

  // The row loop's variables: pixels of the source and columns of the window still to skip, the
  // window count, and the current column (the source keeps its position instead).
  datatype Cursor = Cursor(srcSkip: nat, scipw: nat, wcnt: nat, col: nat)

  // Both skips applied to a packet whose header has been read.
  method SkipInPacket(r: BigReader, s: Source, kind: Kind, count: nat, c: Cursor) returns (n: nat, c': Cursor)
    requires r.bitpoint < 8 && kind != EndOfLine && count >= 1
    modifies r`point, r`bitpoint
    ensures r.bitpoint < 8
    ensures n == LeftOf(c, count) && c' == Skipped(c, count)
    ensures r.Pos() == old(r.Pos()) +
                       (if kind == Literal then Bits(s, count - n) else if kind == Packed && n == 0 then s.bpp else 0)
  {
    hide Bits;
    BitsAdd(s, 0, 0);
    n, c' := count, c;
    if c.srcSkip != 0 {
      var still;
      n, still := SkipPixels(r, s, kind, count, c.srcSkip);
      c' := c'.(srcSkip := still);
      if n == 0 {
        return;
      }
    }
    var before := n;
    var scipw;
    n, scipw := SkipColumns(r, s, kind, n, c.scipw);
    BitsAdd(s, count - before, before - n);
    c' := c'.(scipw := scipw, col := c.col + (before - n));
  }

  // One packet: either the row goes on behind it, or the window is full.
  method DrawPacket(r: BigReader, s: Source, e: Engine, l: Line, mem0: seq<Half>, kind: Kind, count: nat, c: Cursor,
                    to: nat, ghost p: nat, ghost all: seq<Half>, ghost ps: seq<Pixel>, ghost skip: nat,
                    ghost from: nat, ghost done: nat)
    returns (mem: seq<Half>, c': Cursor, full: bool)
    requires r.attached && r.data == s.data && r.bitpoint < 8 && Ready(s) && WholeSteps(l) && from < to
    requires kind == KindAt(s, p) != EndOfLine && count == CountAt(s, p) && r.Pos() == p + 8
    requires done + count <= |ps| && forall j :: 0 <= j < count ==> ps[done + j] == PixelAt(s, p, j)
    requires Drawn(e, l, all, ps, skip, from, to, mem0, done, c)
    modifies r`point, r`bitpoint
    ensures r.bitpoint < 8
    ensures full ==> to <= |Dropped(ps, skip)| && mem == PaintColumns(e, l, all, Dropped(ps, skip), from, to)
    ensures !full ==> r.Pos() == p + SizeAt(s, p) && Drawn(e, l, all, ps, skip, from, to, mem, done + count, c')
  {
    hide Window, PaintColumns, KindAt, CountAt, PixelAt, SizeAt, Bits;
    hide CursorAt, Skipped, LeftOf;
    ghost var d := Dropped(ps, skip);
    BelowLimit(s, p);
    BitsAdd(s, 0, 0);
    SkipsEnd(c, skip, from, to, done, count);
    mem, full := mem0, false;
    var n;
    n, c' := SkipInPacket(r, s, kind, count, c);
    if n == 0 {
      AllSkipped(e, l, mem0, all, ps, skip, from, to, done, count, c);
      return;
    }
    ghost var i := count - n;
    ReachedWindow(e, l, mem0, all, ps, skip, from, to, done, c, c'.col);
    ColumnsOfPacket(s, p, ps, skip, done, i, n);
    c' := c'.(wcnt := c'.wcnt + n);
    if c'.wcnt > to {
      n := n - (c'.wcnt - to);
    }
    mem := DrawStretch(r, s, e, l, mem, kind, n, c'.col, p, i, all, d, from);
    c' := c'.(col := c'.col + n);
    full := c'.wcnt >= to;
    if !full {
      CursorBehind(c', skip, from, to, done + count);
    }
  }

  lemma CursorBehind(c: Cursor, skip: nat, from: nat, to: nat, done: nat)
    requires c.srcSkip == 0 && c.scipw == 0 && from <= c.col == done - skip && c.wcnt == c.col < to
    ensures CursorAt(c, skip, from, to, done)
  {
  }

  // A packet skipped whole paints nothing.
  lemma AllSkipped(e: Engine, l: Line, mem: seq<Half>, all: seq<Half>, ps: seq<Pixel>, skip: nat, from: nat, to: nat,
                   done: nat, count: nat, c: Cursor)
    requires Drawn(e, l, all, ps, skip, from, to, mem, done, c) && done + count <= |ps| && count >= 1
    requires LeftOf(c, count) == 0
    ensures Drawn(e, l, all, ps, skip, from, to, mem, done + count, Skipped(c, count))
  {
    hide PaintColumns;
    SkipsEnd(c, skip, from, to, done, count);
    var d := Dropped(ps, skip);
    PaintedNothing(e, l, all, d, from, c.col);
    PaintedNothing(e, l, all, d, from, Skipped(c, count).col);
  }

  // Skipping up to the window's first column paints nothing.
  lemma ReachedWindow(e: Engine, l: Line, mem: seq<Half>, all: seq<Half>, ps: seq<Pixel>, skip: nat, from: nat, to: nat,
                      done: nat, c: Cursor, col: nat)
    requires Drawn(e, l, all, ps, skip, from, to, mem, done, c)
    requires col == Max(from, c.col) <= |Dropped(ps, skip)|
    ensures mem == PaintColumns(e, l, all, Dropped(ps, skip), from, col)
  {
    hide PaintColumns;
    var d := Dropped(ps, skip);
    PaintedNothing(e, l, all, d, from, Min(from, c.col));
    PaintedNothing(e, l, all, d, from, Min(from, col));
  }

  // The inner loop of the packed LINE branch: for every mix of packets it paints exactly the
  // expanded row, dropped and restricted.
  method DrawRow(r: BigReader, s: Source, e: Engine, l: Line, mem0: seq<Half>, skip: nat, from: nat, to: nat)
    returns (mem: seq<Half>)
    requires r.attached && r.data == s.data && r.bitpoint < 8 && Ready(s) && WholeSteps(l) && from < to
    modifies r`point, r`bitpoint
    ensures mem == PaintRow(e, l, mem0, RowPixels(s, old(r.Pos())), skip, from, to)
  {
    hide Window, PaintColumns, KindAt, CountAt, PixelAt, SizeAt, RowPixels, Bits;
    ghost var ps := RowPixels(s, r.Pos());
    ghost var done: nat := 0;
    mem := mem0;
    var c := Cursor(skip, from, from, 0);
    PaintedNothing(e, l, mem0, Dropped(ps, skip), from, 0);
    while true
      invariant r.bitpoint < 8 && r.attached && r.data == s.data
      invariant Drawn(e, l, mem0, ps, skip, from, to, mem, done, c)
      invariant ps[done..] == RowPixels(s, r.Pos())
      decreases 8 * s.limit - r.Pos()
    {
      ghost var p := r.Pos();
      var kind, count := ReadHeader(r, s);
      if kind == EndOfLine {
        AtEnd(s, p);
        return;
      }
      PacketInRow(s, p, ps, done);
      BelowLimit(s, p);
      var full;
      mem, c, full := DrawPacket(r, s, e, l, mem, kind, count, c, to, p, mem0, ps, skip, from, done);
      if full {
        return;
      }
      done := done + count;
    }
  }

  // One packed row from its header on: the stored offset bounds it, then its packets are drawn.
  method DrawPackedRow(r: BigReader, data: seq<Byte>, bpp: nat, e: Engine, l: Line, mem0: seq<Half>,
                       skip: nat, from: nat, to: nat)
    returns (mem: seq<Half>, next: nat)
    requires 1 <= bpp <= MAX_WIDTH && WholeSteps(l) && from < to
    modifies r
    ensures var h := if bpp < 8 then 8 else 16;
            && next == 4 * (Window(data, 0, h) + 2)
            && mem == PaintRow(e, l, mem0, RowPixels(Source(data, bpp, next), h), skip, from, to)
  {
    hide PaintRow, RowPixels, Window;
    r.Attach(data);
    var h := if bpp < 8 then 8 else 16;
    var offset := r.Read(h);
    next := 4 * (offset + 2);
    mem := DrawRow(r, Source(data, bpp, next), e, l, mem0, skip, from, to);
  }
}
