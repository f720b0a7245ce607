/**
 rhuff_dec_build, rhuff_dec_decode_one and the inlined symbol loop of
 rhuff_decode_block.
 */
module HuffmanDecoder {
  import opened Words
  import opened BitStream
  import opened HuffmanBits
  import opened HuffmanCode

  const MAX_CODES: nat := 2048
  const MAX_BITS: nat := 16
  const LENGTH_FIELD: nat := 32  // a lookup entry keeps its code length in five bits

  datatype Status = Ok | ErrorData

  // ---------- What a lookup table must hold ----------

  function Pack(i: nat, length: nat): nat { LENGTH_FIELD * i + length }

  // Entry v is right for leaf x: the symbol whose code covers x, or zero when none does.
  ghost predicate EntryFor(v: nat, s: seq<nat>, m: nat, x: nat)
    requires Fit(s, m)
  {
    && (forall i :: 0 <= i < |s| && Covers(s, m, i, x) ==> v == Pack(i, s[i]))
    && (x >= Kraft(s, m) ==> v == 0)
  }

  ghost predicate TableFor(table: seq<Half>, s: seq<nat>, m: nat)
  {
    Buildable(s, m, |table|) && forall x :: 0 <= x < |table| ==> EntryFor(table[x], s, m, x)
  }

  // A right table is determined by the lengths: no entry is left to chance.
  lemma TableUnique(t: seq<Half>, u: seq<Half>, s: seq<nat>, m: nat)
    requires TableFor(t, s, m) && TableFor(u, s, m) && |t| == |u|
    ensures t == u
  {
    forall x | 0 <= x < |t|
      ensures t[x] == u[x]
    {
      assert EntryFor(t[x], s, m, x) && EntryFor(u[x], s, m, x);
      if x < Kraft(s, m) {
        var i := CoversTotal(s, m, x);
      }
    }
  }

  // ---------- Building ----------

  method Histogram(s: seq<nat>, m: nat) returns (fit: bool, histo: seq<nat>)
    ensures fit <==> Fit(s, m)
    ensures |histo| == m + 1
    ensures fit ==> forall l :: 0 <= l <= m ==> histo[l] == Count(s, l)
  {
    histo := seq(m + 1, _ => 0);
    for i := 0 to |s|
      invariant |histo| == m + 1 && Fit(s[..i], m)
      invariant forall l :: 0 <= l <= m ==> histo[l] == Count(s[..i], l)
    {
      if s[i] > m {
        return false, histo;
      }
      histo := histo[s[i] := histo[s[i]] + 1];
      assert s[..i + 1][..i] == s[..i];
    }
    assert s[..|s|] == s;
    fit := true;
  }

  method FirstCodes(s: seq<nat>, m: nat, counts: seq<nat>) returns (even: bool, starts: seq<nat>)
    requires |counts| == m + 1 && forall l :: 0 <= l <= m ==> counts[l] == Count(s, l)
    ensures even <==> TotalsEven(s, m)
    ensures |starts| == m + 1
    ensures even ==> forall l :: 1 <= l <= m ==> starts[l] == Start(s, m, l)
  {
    starts := counts;
    var curstart := 0;
    var len := m;
    while len > 0
      invariant 0 <= len <= m && |starts| == m + 1
      invariant curstart == Start(s, m, len)
      invariant forall l :: 0 <= l <= len ==> starts[l] == Count(s, l)
      invariant forall l :: len < l <= m ==> starts[l] == Start(s, m, l)
      invariant forall l :: 2 <= l && len < l <= m ==> Total(s, m, l) % 2 == 0
    {
      var total := curstart + starts[len];
      if len != 1 && total % 2 != 0 {
        assert Total(s, m, len) % 2 != 0;
        return false, starts;
      }
      starts := starts[len := curstart];
      curstart := total / 2;
      len := len - 1;
    }
    even := true;
  }

  method AssignCodes(s: seq<nat>, m: nat, starts: seq<nat>) returns (codes: seq<Half>)
    requires Fit(s, m) && |s| <= MAX_CODES
    requires |starts| == m + 1 && forall l :: 1 <= l <= m ==> starts[l] == Start(s, m, l)
    ensures |codes| == |s|
    ensures forall i :: 0 <= i < |s| && s[i] > 0 ==> codes[i] == Code(s, m, i)
  {
    codes := [];
    var next := starts;
    for i := 0 to |s|
      invariant |codes| == i && |next| == m + 1
      invariant forall l :: 1 <= l <= m ==> next[l] == Start(s, m, l) + Count(s[..i], l)
      invariant forall j :: 0 <= j < i && s[j] > 0 ==> codes[j] == Code(s, m, j)
    {
      assert s[..i + 1][..i] == s[..i];
      if s[i] > 0 {
        CodeBound(s, m, i);
        codes := codes + [next[s[i]]];
        next := next[s[i] := next[s[i]] + 1];
      } else {
        codes := codes + [0];
      }
    }
  }

  lemma {:induction false} ClaimedPrefix(s: seq<nat>, m: nat, k: nat)
    requires Fit(s, m) && k <= |s|
    ensures Claimed(s[..k], m) <= Claimed(s, m)
    decreases |s|
  {
    if k < |s| {
      ClaimedPrefix(s[..|s| - 1], m, k);
      assert s[..|s| - 1][..k] == s[..k];
    } else {
      assert s[..k] == s;
    }
  }

  // Adds up claimed leaves, stopping early once the table is known to be full.
  method Coverage(s: seq<nat>, m: nat, entries: nat) returns (full: bool)
    requires Fit(s, m)
    ensures full <==> Kraft(s, m) >= entries
  {
    ClaimedIsKraft(s, m);
    var covered := 0;
    for i := 0 to |s|
      invariant covered == Claimed(s[..i], m)
      invariant covered < entries || covered == 0
    {
      assert s[..i + 1][..i] == s[..i];
      if s[i] != 0 {
        covered := covered + Pow2(m - s[i]);
        if covered >= entries {
          ClaimedPrefix(s, m, i + 1);
          return true;
        }
      }
    }
    assert s[..|s|] == s;
    full := covered >= entries;
  }

  // After the first n symbols are filled in: their leaves are right, the rest is as it was.
  ghost predicate Painted(table: seq<Half>, blank: seq<Half>, s: seq<nat>, m: nat, n: nat)
    requires Fit(s, m) && n <= |s|
  {
    && |table| == |blank|
    && (forall i, x :: 0 <= i < n && 0 <= x < |table| && Covers(s, m, i, x) ==> table[x] == Pack(i, s[i]))
    && (forall x :: 0 <= x < |table| && x >= Kraft(s, m) ==> table[x] == blank[x])
  }

  lemma PaintOne(before: seq<Half>, after: seq<Half>, blank: seq<Half>, s: seq<nat>, m: nat, n: nat)
    requires Fit(s, m) && n < |s| && s[n] > 0 && Painted(before, blank, s, m, n)
    requires |after| == |before|
    requires forall x :: 0 <= x < |after| ==>
                           after[x] == if Covers(s, m, n, x) then Pack(n, s[n]) else before[x]
    ensures Painted(after, blank, s, m, n + 1)
  {
    forall i, x | 0 <= i < n + 1 && 0 <= x < |after| && Covers(s, m, i, x)
      ensures after[x] == Pack(i, s[i])
    {
      if i < n && Covers(s, m, n, x) {
        CoversDisjoint(s, m, i, n, x);
      }
    }
    forall x | 0 <= x < |after| && x >= Kraft(s, m)
      ensures after[x] == blank[x]
    {
      Tiling(s, m, x);
    }
  }

  method FillSymbol(lookup: array<Half>, dest: nat, count: nat, value: Half)
    requires dest + count <= lookup.Length
    modifies lookup
    ensures forall x :: 0 <= x < lookup.Length ==>
                          lookup[x] == if dest <= x < dest + count then value else old(lookup[x])
  {
    for j := 0 to count
      invariant forall x :: 0 <= x < lookup.Length ==>
                              lookup[x] == if dest <= x < dest + j then value else old(lookup[x])
    {
      lookup[dest + j] := value;
    }
  }

  // The entry value as the source composes it: the index above a five-bit length.
  lemma PackIsOr(i: nat, length: nat)
    requires i < MAX_CODES && length <= MAX_BITS
    ensures Or(Shl(i, 5), length) == Pack(i, length) < 0x1_0000
  {
    Pow2Values();
    OrDisjoint(i, length, 5);
    assert Shl(i, 1) == 2 * i;
    assert Shl(i, 2) == 4 * i;
    assert Shl(i, 4) == 16 * i;
  }

  method FillTable(lookup: array<Half>, s: seq<nat>, m: nat, codes: seq<Half>) returns (ok: bool)
    requires Fit(s, m) && m <= MAX_BITS && |s| <= MAX_CODES && TotalsEven(s, m)
    requires |codes| == |s| && forall i :: 0 <= i < |s| && s[i] > 0 ==> codes[i] == Code(s, m, i)
    modifies lookup
    ensures ok <==> Kraft(s, m) <= lookup.Length
    ensures ok ==> Painted(lookup[..], old(lookup[..]), s, m, |s|)
  {
    hide Shl, Or, Count, LeafStart, Start, Rank;
    ghost var blank := lookup[..];
    for i := 0 to |s|
      invariant Painted(lookup[..], blank, s, m, i)
      invariant forall j :: 0 <= j < i && s[j] > 0 ==> Leaf(s, m, j) + Pow2(m - s[j]) <= lookup.Length
    {
      if s[i] != 0 {
        ghost var before := lookup[..];
        var shift := m - s[i];
        var dest := Shl(codes[i], shift);
        var count := Pow2(shift);
        CodeIsLeaf(s, m, i);
        PackIsOr(i, s[i]);
        if dest + count > lookup.Length {
          LeafInBlock(s, m, i);
          LeafStartMono(s, m, 0, s[i] - 1);
          return false;
        }
        FillSymbol(lookup, dest, count, Or(Shl(i, 5), s[i]));
        PaintOne(before, lookup[..], blank, s, m, i);
      } else {
        SkipUnused(lookup[..], blank, s, m, i);
      }
    }
    if Kraft(s, m) > lookup.Length {
      var i := CoversTotal(s, m, lookup.Length);
    }
    ok := true;
  }

  lemma SkipUnused(table: seq<Half>, blank: seq<Half>, s: seq<nat>, m: nat, n: nat)
    requires Fit(s, m) && n < |s| && s[n] == 0 && Painted(table, blank, s, m, n)
    ensures Painted(table, blank, s, m, n + 1)
  {
  }

  class Decoder {
    const lookup: array<Half>
    const numCodes: nat
    const maxBits: nat
    var lengths: seq<nat>

    ghost predicate Valid()
      reads this
    {
      && 1 <= numCodes <= MAX_CODES
      && 1 <= maxBits <= MAX_BITS
      && Pow2(maxBits) <= lookup.Length
      && |lengths| == numCodes
    }

    constructor (numCodes: nat, maxBits: nat, lookup: array<Half>)
      requires 1 <= numCodes <= MAX_CODES && 1 <= maxBits <= MAX_BITS && Pow2(maxBits) <= lookup.Length
      ensures Valid() && this.lookup == lookup && this.maxBits == maxBits
      ensures lengths == seq(numCodes, _ => 0)
    {
      this.lookup, this.numCodes, this.maxBits := lookup, numCodes, maxBits;
      lengths := seq(numCodes, _ => 0);
    }

    // Succeeds exactly on the buildable lengths, and then every entry is right, whether or
    // not the clearing pass was skipped.
    method Build() returns (status: Status)
      requires Valid()
      modifies lookup
      ensures status == Ok <==> Buildable(lengths, maxBits, lookup.Length)
      ensures status == Ok ==> TableFor(lookup[..], lengths, maxBits)
    {
      EvenMeansWhole(lengths, maxBits);
      var fit, histo := Histogram(lengths, maxBits);
      if !fit {
        return ErrorData;
      }
      var even, starts := FirstCodes(lengths, maxBits, histo);
      if !even {
        return ErrorData;
      }
      var codes := AssignCodes(lengths, maxBits, starts);
      var full := Coverage(lengths, maxBits, lookup.Length);
      if !full {
        FillSymbol(lookup, 0, lookup.Length, 0);
      }
      ghost var blank := lookup[..];
      var ok := FillTable(lookup, lengths, maxBits, codes);
      if !ok {
        return ErrorData;
      }
      PaintedIsRight(lookup[..], blank, lengths, maxBits);
      status := Ok;
    }
  }

  lemma PaintedIsRight(table: seq<Half>, blank: seq<Half>, s: seq<nat>, m: nat)
    requires Buildable(s, m, |table|) && Painted(table, blank, s, m, |s|)
    requires Kraft(s, m) < |table| ==> forall x :: 0 <= x < |blank| ==> blank[x] == 0
    ensures TableFor(table, s, m)
  {
    forall x | 0 <= x < |table|
      ensures EntryFor(table[x], s, m, x)
    {
    }
  }

  // ---------- Decoding one symbol at a time ----------

  lemma TopBound(w: Word, n: nat)
    requires n <= 32
    ensures Top(w, n) < Pow2(n)
  {
    Pow2Values();
    ShrRemainder(w, 32 - n);
    if Top(w, n) >= Pow2(n) {
      ShlMono(Pow2(n), Top(w, n), 32 - n);
      ShlShl(1, n, 32 - n);
    }
  }

  predicate Usable(table: seq<Half>, m: nat, b: Bits)
  {
    InRange(b) && 1 <= m <= CACHE_MIN && Pow2(m) <= |table|
  }

  // The entry the next max_bits bits select.
  function Entry(table: seq<Half>, m: nat, b: Bits): Half
    requires Usable(table, m, b)
  {
    TopBound(Peeked(b, m).cache, m);
    table[PeekValue(b, m)]
  }

  function SymbolNext(table: seq<Half>, m: nat, b: Bits): nat
    requires Usable(table, m, b)
  {
    var v := Entry(table, m, b);
    if v % LENGTH_FIELD == 0 then 0 else v / LENGTH_FIELD
  }

  function AfterNext(table: seq<Half>, m: nat, b: Bits): (r: Bits)
    requires Usable(table, m, b)
    ensures Usable(table, m, r) && r.data == b.data
  {
    var length := Entry(table, m, b) % LENGTH_FIELD;
    var p := Peeked(b, m);
    if length == 0 then Removed(p.(overflow := true), 1) else Removed(p, length)
  }

  // The reader after n symbols, and the symbols.
  function AfterMany(table: seq<Half>, m: nat, b: Bits, n: nat): (r: Bits)
    requires Usable(table, m, b)
    ensures Usable(table, m, r) && r.data == b.data
  {
    if n == 0 then b else AfterNext(table, m, AfterMany(table, m, b, n - 1))
  }

  function Symbols(table: seq<Half>, m: nat, b: Bits, n: nat): (r: seq<nat>)
    requires Usable(table, m, b)
    ensures |r| == n
  {
    if n == 0 then []
    else Symbols(table, m, b, n - 1) + [SymbolNext(table, m, AfterMany(table, m, b, n - 1))]
  }

  method DecodeOne(lookup: array<Half>, maxBits: nat, b: BitReader) returns (symbol: nat)
    requires Usable(lookup[..], maxBits, b.State())
    modifies b
    ensures symbol == SymbolNext(lookup[..], maxBits, old(b.State()))
    ensures b.State() == AfterNext(lookup[..], maxBits, old(b.State()))
  {
    ghost var was := b.State();
    TopBound(Peeked(was, maxBits).cache, maxBits);
    var peeked := b.Peek(maxBits);
    var value := lookup[peeked];
    assert value == Entry(lookup[..], maxBits, was);
    var length := value % LENGTH_FIELD;
    if length == 0 {
      b.overflow := true;
      b.Remove(1);
      return 0;
    }
    b.Remove(length);
    symbol := value / LENGTH_FIELD;
  }

  // ---------- The inlined bulk loop ----------

  // The refill loop over the cached locals.
  method Refill(data: seq<Byte>, offset0: nat, cache0: Word, bits0: int, ghost used: nat, ghost over: bool)
    returns (offset: nat, cache: Word, bits: int)
    requires 0 <= bits0 <= 32
    ensures Bits(data, offset, used, cache, bits, over) == Fill(Bits(data, offset0, used, cache0, bits0, over))
    ensures 0 <= bits <= 32
  {
    offset, cache, bits := offset0, cache0, bits0;
    while bits <= CACHE_MIN
      invariant 0 <= bits <= 32
      invariant Fill(Bits(data, offset, used, cache, bits, over))
             == Fill(Bits(data, offset0, used, cache0, bits0, over))
      decreases 32 - bits
    {
      if offset < |data| {
        cache := OrByte(cache, data[offset], bits);
      }
      offset := offset + 1;
      bits := bits + 8;
    }
  }

  // The bulk loop's view of the reader: overflow from exhaustion is not yet latched.
  ghost predicate Mirrors(r: Bits, data: seq<Byte>, offset: nat, cache: Word, bits: int, used: nat, overflow: bool)
  {
    && r.data == data && r.offset == offset && r.cache == cache && r.bits == bits && r.used == used
    && (r.overflow <==> overflow || used > 8 * |data|)
  }

  // A refill does not look at the accounting fields.
  lemma {:induction false} FillIgnoresAccounting(b: Bits, used: nat, over: bool)
    requires 0 <= b.bits
    ensures Fill(b.(used := used, overflow := over)) == Fill(b).(used := used, overflow := over)
    decreases 32 - b.bits
  {
    if b.bits <= CACHE_MIN {
      FillIgnoresAccounting(FillStep(b), used, over);
    }
  }

  // One iteration: refill for the peek, look up, refill for the removal, shift.
  method BulkStep(lookup: array<Half>, maxBits: nat, data: seq<Byte>,
                  offset0: nat, cache0: Word, bits0: int, overflow0: bool, ghost r: Bits)
    returns (symbol: nat, offset: nat, cache: Word, bits: int, overflow: bool, length: nat)
    requires Usable(lookup[..], maxBits, r)
    requires Mirrors(r, data, offset0, cache0, bits0, r.used, overflow0)
    ensures symbol == SymbolNext(lookup[..], maxBits, r)
    ensures Mirrors(AfterNext(lookup[..], maxBits, r), data, offset, cache, bits, r.used + length, overflow)
  {
    hide Shl, Shr, Pow2, Fill, Or;
    offset, cache, bits, overflow := offset0, cache0, bits0, overflow0;
    if bits < maxBits {
      offset, cache, bits := Refill(data, offset, cache, bits, r.used, r.overflow);
    }
    ghost var p := Peeked(r, maxBits);
    TopBound(cache, maxBits);
    var value := lookup[Top(cache, maxBits)];
    assert value == Entry(lookup[..], maxBits, r);
    length := value % LENGTH_FIELD;
    symbol := value / LENGTH_FIELD;
    if length == 0 {
      overflow := true;
      length := 1;
      symbol := 0;
      p := p.(overflow := true);
    } else if length > CACHE_MIN {
      length := CACHE_MIN;
    }
    assert AfterNext(lookup[..], maxBits, r) == Removed(p, length);
    if bits < length {
      offset, cache, bits := Refill(data, offset, cache, bits, p.used, p.overflow);
    }
    cache := Shift(cache, length);
    bits := bits - length;
  }

  // The bulk loop leaves the same bytes and the same reader as dst.Length calls of DecodeOne,
  // for every table and every stream.
  method DecodeBulk(lookup: array<Half>, maxBits: nat, b: BitReader, dst: array<Byte>)
    requires Usable(lookup[..], maxBits, b.State())
    modifies b, dst
    ensures b.State() == AfterMany(old(lookup[..]), maxBits, old(b.State()), dst.Length)
    ensures forall i :: 0 <= i < dst.Length ==>
                          dst[i] == Symbols(old(lookup[..]), maxBits, old(b.State()), dst.Length)[i] % 0x100
  {
    hide AfterNext, SymbolNext, Shl, Fill;
    ghost var table, start := lookup[..], b.State();
    var data, offset, cache, bits, overflow := b.data, b.offset, b.cache, b.bits, b.overflow;
    var consumed := 0;
    for i := 0 to dst.Length
      invariant lookup[..] == table && b.State() == start
      invariant Mirrors(AfterMany(table, maxBits, start, i), data, offset, cache, bits, start.used + consumed, overflow)
      invariant forall j :: 0 <= j < i ==> dst[j] == Symbols(table, maxBits, start, i)[j] % 0x100
    {
      ghost var r := AfterMany(table, maxBits, start, i);
      var symbol, length;
      symbol, offset, cache, bits, overflow, length :=
        BulkStep(lookup, maxBits, data, offset, cache, bits, overflow, r);
      consumed := consumed + length;
      dst[i] := symbol % 0x100;
    }
    b.offset, b.cache, b.bits := offset, cache, bits;
    b.used := b.used + consumed;
    b.overflow := overflow;
    if b.used > 8 * |b.data| {
      b.overflow := true;
    }
  }

  // ---------- Decoding inverts coding ----------

  // Symbols with a code that fits its own length, which all codes do unless they oversubscribe the tree.
  predicate Encodable(s: seq<nat>, m: nat, symbols: seq<nat>)
  {
    forall k :: 0 <= k < |symbols| ==> HasCode(s, m, symbols[k])
  }

  predicate HasCode(s: seq<nat>, m: nat, i: nat)
  {
    i < |s| && 0 < s[i] <= m && Code(s, m, i) < Pow2(s[i])
  }

  // Of a built decoder that is not oversubscribed, every symbol with a length has a code.
  lemma EverySymbolHasCode(table: seq<Half>, s: seq<nat>, m: nat, i: nat)
    requires TableFor(table, s, m) && Kraft(s, m) <= Pow2(m) && i < |s| && 0 < s[i]
    ensures HasCode(s, m, i)
  {
    BuildableEven(s, m, |table|);
    CodeFitsLength(s, m, i);
  }

  function Encode(s: seq<nat>, m: nat, symbols: seq<nat>): seq<nat>
    requires Encodable(s, m, symbols)
  {
    if symbols == [] then []
    else
      var front, last := symbols[..|symbols| - 1], symbols[|symbols| - 1];
      Encode(s, m, front) + BitsOf(Code(s, m, last), s[last])
  }

  // The bits of a symbol's code select that symbol's entry, whatever follows them.
  lemma EntryAtCode(table: seq<Half>, s: seq<nat>, m: nat, b: Bits, i: nat)
    requires TableFor(table, s, m) && Pow2(m) <= |table| && 1 <= m <= MAX_BITS
    requires Coherent(b) && i < |s| && 0 < s[i] <= m
    requires Window(b.data, Pos(b), s[i]) == Code(s, m, i)
    ensures Entry(table, m, b) == Pack(i, s[i])
  {
    hide Shl, Shr, Window, Fill, Code, Leaf, Peeked, Buildable, Kraft;
    var p, n := Pos(b), m - s[i];
    PeekIsWindow(b, m);
    var x := PeekValue(b, m);
    TopBound(Peeked(b, m).cache, m);
    WindowSplit(b.data, p, s[i], n);
    WindowBound(b.data, p + s[i], n);
    ShrParts(Window(b.data, p, s[i]), Window(b.data, p + s[i], n), n);
    BuildableEven(s, m, |table|);
    CoversIsPrefix(s, m, i, x);
    assert EntryFor(table[x], s, m, x);
  }

  lemma BuildableEven(s: seq<nat>, m: nat, entries: nat)
    requires Buildable(s, m, entries)
    ensures Fit(s, m) && TotalsEven(s, m) && Kraft(s, m) <= entries
  {
    EvenMeansWhole(s, m);
  }

  // A reader standing at a symbol's code decodes that symbol and steps over it.
  lemma DecodesOne(table: seq<Half>, s: seq<nat>, m: nat, b: Bits, i: nat)
    requires TableFor(table, s, m) && Pow2(m) <= |table| && 1 <= m <= MAX_BITS
    requires Coherent(b) && i < |s| && 0 < s[i] <= m
    requires Window(b.data, Pos(b), s[i]) == Code(s, m, i)
    ensures SymbolNext(table, m, b) == i
    ensures Coherent(AfterNext(table, m, b)) && Pos(AfterNext(table, m, b)) == Pos(b) + s[i]
    ensures AfterNext(table, m, b).used == b.used + s[i]
    ensures AfterNext(table, m, b).overflow <==> b.overflow || b.used + s[i] > 8 * |b.data|
  {
    hide Shl, Shr, Window, Fill, Code, TableFor, Entry, Peeked, Removed;
    EntryAtCode(table, s, m, b, i);
    PeekIsWindow(b, m);
    RemoveAdvances(Peeked(b, m), s[i]);
  }

  // Any string of codes is decoded back to its symbols, advancing by the bits it took.
  lemma {:induction false} DecodeInvertsEncode(table: seq<Half>, s: seq<nat>, m: nat, b: Bits, symbols: seq<nat>)
    requires TableFor(table, s, m) && Pow2(m) <= |table| && 1 <= m <= MAX_BITS
    requires Coherent(b) && Encodable(s, m, symbols) && Holds(b.data, Pos(b), Encode(s, m, symbols))
    ensures Symbols(table, m, b, |symbols|) == symbols
    ensures Coherent(AfterMany(table, m, b, |symbols|))
    ensures Pos(AfterMany(table, m, b, |symbols|)) == Pos(b) + |Encode(s, m, symbols)|
    ensures AfterMany(table, m, b, |symbols|).used == b.used + |Encode(s, m, symbols)|
    ensures AfterMany(table, m, b, |symbols|).overflow <==>
              b.overflow || b.used + |Encode(s, m, symbols)| > 8 * |b.data|
    decreases |symbols|
  {
    hide Shl, Shr, Window, Fill, Code, AfterNext, SymbolNext, TableFor, BitsOf, Holds, BitAt;
    if symbols != [] {
      var n := |symbols| - 1;
      var front, last := symbols[..n], symbols[n];
      assert Encodable(s, m, front);
      HoldsPrefix(b.data, Pos(b), Encode(s, m, front), BitsOf(Code(s, m, last), s[last]));
      DecodeInvertsEncode(table, s, m, b, front);
      var r := AfterMany(table, m, b, n);
      assert HasCode(s, m, last);
      WindowOfBits(b.data, Pos(r), Code(s, m, last), s[last]);
      DecodesOne(table, s, m, r, last);
      assert symbols == front + [last];
    }
  }

  // A pattern the tree does not cover yields symbol zero, one consumed bit and a latched overflow.
  lemma UnmappedLatches(table: seq<Half>, s: seq<nat>, m: nat, b: Bits)
    requires TableFor(table, s, m) && Pow2(m) <= |table| && 1 <= m <= MAX_BITS
    requires Coherent(b) && Window(b.data, Pos(b), m) >= Kraft(s, m)
    ensures SymbolNext(table, m, b) == 0
    ensures AfterNext(table, m, b).overflow && Pos(AfterNext(table, m, b)) == Pos(b) + 1
  {
    hide Shl, Shr, Window, Fill;
    PeekIsWindow(b, m);
    TopBound(Peeked(b, m).cache, m);
    assert EntryFor(table[PeekValue(b, m)], s, m, PeekValue(b, m));
    assert Entry(table, m, b) == 0;
    var p := Peeked(b, m).(overflow := true);
    assert Coherent(p);
    RemoveAdvances(p, 1);
  }
}
