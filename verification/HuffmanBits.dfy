/**
 The most-significant-bit-first reader of encoding_huffman.c: a 32-bit
 left-aligned cache refilled a byte at a time from a zero-extended stream.

 `Bits` is the value of the reader's fields, the functions on it are the
 specification of the C functions, and `BitReader` is the reader itself. The
 independent meaning of a read is `BitStream.Window`, which knows nothing of the
 cache.
 */
module HuffmanBits {
  import opened Words
  import opened BitStream

  const CACHE_MIN: nat := 24

  // ---------- The reader's fields as a value ----------

  datatype Bits = Bits(data: seq<Byte>, offset: nat, used: nat, cache: Word, bits: int, overflow: bool)

  // What every reader keeps whatever its cache holds.
  predicate InRange(b: Bits)
  {
    0 <= b.bits <= 32 && (b.used > 8 * |b.data| ==> b.overflow)
  }

  // The stream position of the next bit to come out.
  function Pos(b: Bits): int
  {
    8 * b.offset - b.bits
  }

  // The cache holds exactly the `bits` stream bits from Pos, left aligned, zeros below them.
  predicate Coherent(b: Bits)
  {
    && InRange(b)
    && 0 <= Pos(b)
    && b.cache == Shl(Window(b.data, Pos(b), b.bits), 32 - b.bits)
  }

  // True from initialisation until the first flush.
  predicate InStep(b: Bits)
  {
    b.used == Pos(b)
  }

  function Init(data: seq<Byte>): Bits
  {
    Bits(data, 0, 0, 0, 0, false)
  }

  function FillStep(b: Bits): (r: Bits)
    requires 0 <= b.bits <= CACHE_MIN
    ensures InRange(b) ==> InRange(r)
  {
    var cache := if b.offset < |b.data| then OrByte(b.cache, b.data[b.offset], b.bits) else b.cache;
    b.(cache := cache, offset := b.offset + 1, bits := b.bits + 8)
  }

  // The cache with byte x placed below its first n bits.
  function OrByte(cache: Word, x: Byte, n: nat): Word
    requires n <= CACHE_MIN
  {
    PieceBound(x, CACHE_MIN - n);
    OrBound(cache, Shl(x, CACHE_MIN - n), 32);
    Or(cache, Shl(x, CACHE_MIN - n))
  }

  lemma PieceBound(x: Byte, k: nat)
    requires k <= CACHE_MIN
    ensures Shl(x, k) < Pow2(k + 8) <= Pow2(32) == WORD_SIZE
  {
    Pow2Values();
    ShlFits(x, 8, k, 0);
    Pow2Mono(k + 8, 32);
  }

  function Fill(b: Bits): (r: Bits)
    requires 0 <= b.bits
    ensures r.data == b.data && r.used == b.used && r.overflow == b.overflow
    ensures b.bits <= CACHE_MIN ==> CACHE_MIN < r.bits <= 32
    ensures InRange(b) ==> InRange(r)
    decreases 32 - b.bits
  {
    if b.bits <= CACHE_MIN then Fill(FillStep(b)) else b
  }

  // A left-aligned word's first n bits, and the word once they are gone.
  function Top(w: Word, n: nat): nat
    requires n <= 32
  {
    Shr(w, 32 - n)
  }

  function Shift(w: Word, n: nat): Word
  {
    Shl(w, n) % WORD_SIZE
  }

  function Clamp(n: int): int { Min(n, CACHE_MIN) }

  // The reader after rhuff_bits_peek.
  function Peeked(b: Bits, n: int): (r: Bits)
    requires 0 <= b.bits
    ensures r.data == b.data && r.used == b.used && r.overflow == b.overflow
    ensures InRange(b) ==> InRange(r)
    ensures r.bits >= Clamp(n)
  {
    if b.bits < Clamp(n) then Fill(b) else b
  }

  // The value rhuff_bits_peek returns.
  function PeekValue(b: Bits, n: int): nat
    requires 0 <= b.bits
  {
    if n <= 0 then 0 else Top(Peeked(b, n).cache, Clamp(n))
  }

  function Removed(b: Bits, n: int): (r: Bits)
    requires 0 <= b.bits
    ensures r.data == b.data
    ensures InRange(b) ==> InRange(r)
  {
    if n <= 0 then b
    else
      var k := Clamp(n);
      var f := Peeked(b, n);
      f.(cache := Shift(f.cache, k),
      bits := f.bits - k,
      used := f.used + k,
      overflow := f.overflow || f.used + k > 8 * |f.data|)
  }

  function FlushedOffset(b: Bits): nat
    requires 0 <= b.bits
    decreases b.bits
  {
    if b.bits >= 8 && b.offset > 0 then FlushedOffset(b.(offset := b.offset - 1, bits := b.bits - 8))
    else Min(b.offset, |b.data|)
  }

  function Flushed(b: Bits): Bits
    requires 0 <= b.bits
  {
    b.(offset := FlushedOffset(b), bits := 0, cache := 0)
  }

  // ---------- What the operations mean on the stream ----------

  // An empty cache describes the stream at any byte boundary.
  lemma EmptyCoherent(b: Bits)
    requires InRange(b) && b.bits == 0 && b.cache == 0
    ensures Coherent(b) && Pos(b) == 8 * b.offset
  {
    assert Window(b.data, Pos(b), 0) == 0;
  }

  lemma InitCoherent(data: seq<Byte>)
    ensures Coherent(Init(data)) && InStep(Init(data)) && Pos(Init(data)) == 0
  {
    EmptyCoherent(Init(data));
  }

  // Placing a byte below n cached bits appends it to them.
  lemma AppendByte(w: nat, x: Byte, n: nat)
    requires n <= CACHE_MIN && Shl(w, 32 - n) < WORD_SIZE
    ensures OrByte(Shl(w, 32 - n), x, n) == Shl(Shl(w, 8) + x, 24 - n)
  {
    hide Or, Shl;
    PieceBound(x, 24 - n);
    OrDisjoint(w, Shl(x, 24 - n), 32 - n);
    ShlShl(w, 8, 24 - n);
    ShlAdd(Shl(w, 8), x, 24 - n);
  }

  // The top n of m cached bits.
  lemma TopOfParts(hi: nat, lo: nat, n: nat, m: nat)
    requires n <= m <= 32 && lo < Pow2(m - n) && Shl(Shl(hi, m - n) + lo, 32 - m) < WORD_SIZE
    ensures Top(Shl(Shl(hi, m - n) + lo, 32 - m), n) == hi
  {
    hide Shl, Shr;
    ShlAdd(Shl(hi, m - n), lo, 32 - m);
    ShlShl(hi, m - n, 32 - m);
    ShlFits(lo, m - n, 32 - m, 0);
    ShrParts(hi, Shl(lo, 32 - m), 32 - n);
  }

  // Shifting the top n of m cached bits out of the word.
  lemma ShiftOutTop(hi: nat, lo: nat, n: nat, m: nat)
    requires n <= m <= 32 && lo < Pow2(m - n) && Shl(Shl(hi, m - n) + lo, 32 - m) < WORD_SIZE
    ensures Shift(Shl(Shl(hi, m - n) + lo, 32 - m), n) == Shl(lo, 32 - (m - n))
  {
    hide Shl;
    var k := 32 - m + n;
    ShlShl(Shl(hi, m - n) + lo, 32 - m, n);
    ShlAdd(Shl(hi, m - n), lo, k);
    ShlShl(hi, m - n, k);
    ShlFits(lo, m - n, k, 0);
    Pow2Values();
    ShlOfWord(hi);
    assert hi * WORD_SIZE + Shl(lo, k) == Shl(Shl(Shl(hi, m - n) + lo, 32 - m), n);
  }

  lemma FillStepCoherent(b: Bits)
    requires Coherent(b) && b.bits <= CACHE_MIN
    ensures Coherent(FillStep(b)) && Pos(FillStep(b)) == Pos(b)
  {
    hide Shl, Or, Window;
    var p, n := Pos(b), b.bits;
    var x: Byte := if b.offset < |b.data| then b.data[b.offset] else 0;
    WindowByte(b.data, b.offset);
    WindowSplit(b.data, p, n, 8);
    assert p + n == 8 * b.offset;
    AppendByte(Window(b.data, p, n), x, n);
    if b.offset >= |b.data| {
      OrZero(b.cache);
    }
  }

  lemma {:induction false} FillCoherent(b: Bits)
    requires Coherent(b)
    ensures Coherent(Fill(b)) && Pos(Fill(b)) == Pos(b)
    decreases 32 - b.bits
  {
    if b.bits <= CACHE_MIN {
      FillStepCoherent(b);
      FillCoherent(FillStep(b));
    }
  }

  // Peeking shows the next n bits of the zero-extended stream and consumes nothing.
  lemma PeekIsWindow(b: Bits, n: int)
    requires Coherent(b) && 0 <= n <= CACHE_MIN
    ensures Coherent(Peeked(b, n)) && Pos(Peeked(b, n)) == Pos(b)
    ensures PeekValue(b, n) == Window(b.data, Pos(b), n)
  {
    hide Shl, Shr, Window, Fill;
    FillCoherent(b);
    if n == 0 {
      WindowEmpty(b.data, Pos(b));
    } else {
      var p, r := Pos(b), Peeked(b, n);
      var m := r.bits;
      WindowSplit(b.data, p, n, m - n);
      WindowBound(b.data, p + n, m - n);
      TopOfParts(Window(b.data, p, n), Window(b.data, p + n, m - n), n, m);
    }
  }

  // Removing n bits moves the position by n and leaves the cache describing the stream there.
  lemma RemoveAdvances(b: Bits, n: int)
    requires Coherent(b) && 0 <= n <= CACHE_MIN
    ensures Coherent(Removed(b, n)) && Pos(Removed(b, n)) == Pos(b) + n
    ensures Removed(b, n).used == b.used + n
    ensures Removed(b, n).overflow <==> b.overflow || b.used + n > 8 * |b.data|
  {
    hide Shl, Shr, Window, Fill;
    PeekIsWindow(b, n);
    if n > 0 {
      var p, r := Pos(b), Peeked(b, n);
      var m := r.bits;
      WindowSplit(b.data, p, n, m - n);
      WindowBound(b.data, p + n, m - n);
      ShiftOutTop(Window(b.data, p, n), Window(b.data, p + n, m - n), n, m);
    }
  }

  // Flushing lands on the first byte boundary at or after the position, clamped to the buffer.
  lemma {:induction false} FlushAligns(b: Bits)
    requires 0 <= b.bits <= 8 * b.offset
    ensures FlushedOffset(b) == Min((Pos(b) + 7) / 8, |b.data|)
    decreases b.bits
  {
    if b.bits >= 8 {
      FlushAligns(b.(offset := b.offset - 1, bits := b.bits - 8));
    }
  }

  // ---------- The reader ----------

  class BitReader {
    var data: seq<Byte>
    var offset: nat
    var used: nat
    var cache: Word
    var bits: int
    var overflow: bool

    ghost function State(): Bits
      reads this
    {
      Bits(data, offset, used, cache, bits, overflow)
    }

    constructor (data: seq<Byte>)
      ensures State() == Init(data)
    {
      this.data, offset, used, cache, bits, overflow := data, 0, 0, 0, 0, false;
    }

    method FillCache()
      requires 0 <= bits
      modifies this
      ensures State() == Fill(old(State()))
    {
      while bits <= CACHE_MIN
        invariant 0 <= bits
        invariant Fill(State()) == Fill(old(State()))
        decreases 32 - bits
      {
        ghost var was := State();
        if offset < |data| {
          cache := OrByte(cache, data[offset], bits);
        }
        offset := offset + 1;
        bits := bits + 8;
        assert State() == FillStep(was);
      }
    }

    method Peek(numbits: int) returns (v: nat)
      requires InRange(State())
      modifies this
      ensures State() == if numbits <= 0 then old(State()) else Peeked(old(State()), numbits)
      ensures v == PeekValue(old(State()), numbits)
    {
      if numbits <= 0 {
        return 0;
      }
      var n := if numbits > CACHE_MIN then CACHE_MIN else numbits;
      if bits < n {
        FillCache();
      }
      v := Top(cache, n);
    }

    method Remove(numbits: int)
      requires InRange(State())
      modifies this
      ensures State() == Removed(old(State()), numbits)
    {
      if numbits <= 0 {
        return;
      }
      var n := if numbits > CACHE_MIN then CACHE_MIN else numbits;
      if bits < n {
        FillCache();
      }
      cache := Shift(cache, n);
      bits := bits - n;
      used := used + n;
      if used > 8 * |data| {
        overflow := true;
      }
    }

    // Reading yields the next bits of the stream and advances past them.
    method Read(numbits: int) returns (v: nat)
      requires Coherent(State()) && 0 <= numbits <= CACHE_MIN
      modifies this
      ensures v == Window(data, Pos(old(State())), numbits)
      ensures Coherent(State()) && Pos(State()) == Pos(old(State())) + numbits
      ensures data == old(data) && used == old(used) + numbits
      ensures overflow <==> old(overflow) || used > 8 * |data|
    {
      ghost var b := State();
      PeekIsWindow(b, numbits);
      v := Peek(numbits);
      RemoveAdvances(State(), numbits);
      Remove(numbits);
    }

    method Flush() returns (at: nat)
      requires Coherent(State())
      modifies this
      ensures State() == Flushed(old(State()))
      ensures at == offset == Min((Pos(old(State())) + 7) / 8, |data|)
      ensures Coherent(State()) && Pos(State()) == 8 * at && used == old(used) && overflow == old(overflow)
    {
      ghost var b := State();
      FlushAligns(b);
      while bits >= 8 && offset > 0
        invariant 0 <= bits && data == b.data && used == b.used && overflow == b.overflow
        invariant FlushedOffset(State()) == FlushedOffset(b)
        decreases bits
      {
        offset := offset - 1;
        bits := bits - 8;
      }
      bits := 0;
      cache := 0;
      if offset > |data| {
        offset := |data|;
      }
      at := offset;
      EmptyCoherent(State());
    }
  }
}
