/**
 Block transfers, LDM and STM, with the 16-bit population count that sizes them
 and the ROM overlay that the first store to DRAM takes away.
 */
module ArmBlock {
  import opened Words

  // ---------- The population count ----------

  function Pairs(x: bv16): bv16 { (x & 0x5555) + ((x >> 1) & 0x5555) }

  function Quads(a: bv16): bv16 { (a & 0x3333) + ((a >> 2) & 0x3333) }

  function Bytes(b: bv16): bv16 { (b & 0x00ff) + (b >> 8) }

  function Whole(c: bv16): bv16 { (c & 0x000f) + (c >> 4) }

  // The source's folding count of the register list.
  function Folded(x: bv16): bv16 { Whole(Bytes(Quads(Pairs(x)))) }

  function One(b: bool): bv16 { if b then 1 else 0 }

  // The register list of an opcode's low half, lowest register first.
  function ListOf(x: bv16): (list: seq<bool>)
    ensures |list| == 16
  {
    seq(16, i requires 0 <= i < 16 => Flag(x, i))
  }

  // How many registers a list names.
  function Count(list: seq<bool>): (n: nat)
    ensures n <= |list|
  {
    if list == [] then 0 else Count(list[..|list| - 1]) + if list[|list| - 1] then 1 else 0
  }

  // A count up to sixteen as a sixteen-bit value.
  function Small(n: nat): bv16
    requires n <= 16
  {
    match n
    case 0 => 0
    case 1 => 1
    case 2 => 2
    case 3 => 3
    case 4 => 4
    case 5 => 5
    case 6 => 6
    case 7 => 7
    case 8 => 8
    case 9 => 9
    case 10 => 10
    case 11 => 11
    case 12 => 12
    case 13 => 13
    case 14 => 14
    case 15 => 15
    case _ => 16
  }

  function Plus(x: bv16, y: bv16): bv16 { x + y }

  // Adding a quad's count.
  lemma SmallPlus(a: nat, b: nat)
    requires b <= 4 && a + b <= 16
    ensures Small(a + b) == Plus(Small(a), Small(b))
  {
    match b
    case 0 => SmallPlus0(a);
    case 1 => SmallPlus1(a);
    case 2 => SmallPlus2(a);
    case 3 => SmallPlus3(a);
    case 4 => SmallPlus4(a);
  }

  lemma SmallPlus0(a: nat)
    requires a <= 16
    ensures Small(a + 0) == Plus(Small(a), 0)
  {
    match a
    case 0 => case 1 => case 2 => case 3 => case 4 => case 5 => case 6 => case 7 => case 8 =>
    case 9 => case 10 => case 11 => case 12 => case 13 => case 14 => case 15 => case 16 =>
  }

  lemma SmallPlus1(a: nat)
    requires a <= 15
    ensures Small(a + 1) == Plus(Small(a), 1)
  {
    match a
    case 0 => case 1 => case 2 => case 3 => case 4 => case 5 => case 6 => case 7 => case 8 =>
    case 9 => case 10 => case 11 => case 12 => case 13 => case 14 => case 15 =>
  }

  lemma SmallPlus2(a: nat)
    requires a <= 14
    ensures Small(a + 2) == Plus(Small(a), 2)
  {
    match a
    case 0 => case 1 => case 2 => case 3 => case 4 => case 5 => case 6 => case 7 => case 8 =>
    case 9 => case 10 => case 11 => case 12 => case 13 => case 14 =>
  }

  lemma SmallPlus3(a: nat)
    requires a <= 13
    ensures Small(a + 3) == Plus(Small(a), 3)
  {
    match a
    case 0 => case 1 => case 2 => case 3 => case 4 => case 5 => case 6 => case 7 => case 8 =>
    case 9 => case 10 => case 11 => case 12 => case 13 =>
  }

  lemma SmallPlus4(a: nat)
    requires a <= 12
    ensures Small(a + 4) == Plus(Small(a), 4)
  {
    match a
    case 0 => case 1 => case 2 => case 3 => case 4 => case 5 => case 6 => case 7 => case 8 =>
    case 9 => case 10 => case 11 => case 12 =>
  }

  lemma {:induction false} CountAdds(a: seq<bool>, b: seq<bool>)
    ensures Count(a + b) == Count(a) + Count(b)
  {
    if b == [] {
      assert a + b == a;
    } else {
      CountAdds(a, b[..|b| - 1]);
      assert (a + b)[..|a + b| - 1] == a + b[..|b| - 1];
    }
  }

  // The flags of four neighbouring bits.
  function Four(p: bool, q: bool, r: bool, s: bool): bv16 { Sum4(One(p), One(q), One(r), One(s)) }

  lemma CountFour(p: bool, q: bool, r: bool, s: bool)
    ensures Count([p, q, r, s]) <= 4
    ensures Four(p, q, r, s) == Small(Count([p, q, r, s])) <= 4
  {
    assert [p, q, r, s][..3] == [p, q, r];
    assert [p, q, r][..2] == [p, q];
    assert [p, q][..1] == [p];
    assert [p][..0] == [];
    var n1 := if p then 1 else 0;
    var n2 := n1 + if q then 1 else 0;
    var n3 := n2 + if r then 1 else 0;
    assert Count([p]) == n1 && Count([p, q]) == n2 && Count([p, q, r]) == n3;
    assert Small(1) == 1 && Small(2) == 2 && Small(3) == 3 && Small(4) == 4;
  }

  function Nibble(h: bv16, k: nat): bv16
    requires k < 4
  {
    match k
    case 0 => h & 0xF
    case 1 => (h >> 4) & 0xF
    case 2 => (h >> 8) & 0xF
    case _ => (h >> 12) & 0xF
  }

  function Flag(x: bv16, i: nat): bool
    requires i < 16
  {
    x & [0x1, 0x2, 0x4, 0x8, 0x10, 0x20, 0x40, 0x80, 0x100, 0x200, 0x400, 0x800, 0x1000, 0x2000, 0x4000, 0x8000][i] != 0
  }

  // The first two folds act on each nibble alone, so four small facts of each suffice.
  function BitSum(v: bv16): bv16 { Sum4(v & 1, (v >> 1) & 1, (v >> 2) & 1, (v >> 3) & 1) }

  function Sum4(p: bv16, q: bv16, r: bv16, s: bv16): bv16 { p + q + r + s }

  lemma FoldsNibble(v: bv16)
    requires v <= 15
    ensures Quads(Pairs(v)) == BitSum(v)
  {
  }

  lemma PairsNibble0(x: bv16)
    ensures Pairs(x) & 0xF == Pairs(x & 0xF)
  {
  }

  lemma QuadsNibble0(x: bv16)
    ensures Quads(x) & 0xF == Quads(x & 0xF)
  {
  }

  lemma FlagsNibble0(x: bv16)
    ensures var v := x & 0xF;
            && v <= 15 && v & 1 == One(x & 0x1 != 0) && (v >> 1) & 1 == One(x & 0x2 != 0)
            && (v >> 2) & 1 == One(x & 0x4 != 0) && (v >> 3) & 1 == One(x & 0x8 != 0)
  {
  }

  lemma Nibble0(x: bv16)
    ensures Nibble(Quads(Pairs(x)), 0)
         == Four(x & 0x1 != 0, x & 0x2 != 0, x & 0x4 != 0, x & 0x8 != 0)
  {
    hide Pairs, Quads, One, Sum4;
    PairsNibble0(x);
    QuadsNibble0(Pairs(x));
    FlagsNibble0(x);
    FoldsNibble(x & 0xF);
  }

  lemma PairsNibble1(x: bv16)
    ensures (Pairs(x) >> 4) & 0xF == Pairs((x >> 4) & 0xF)
  {
  }

  lemma QuadsNibble1(x: bv16)
    ensures (Quads(x) >> 4) & 0xF == Quads((x >> 4) & 0xF)
  {
  }

  lemma FlagsNibble1(x: bv16)
    ensures var v := (x >> 4) & 0xF;
            && v <= 15 && v & 1 == One(x & 0x10 != 0) && (v >> 1) & 1 == One(x & 0x20 != 0)
            && (v >> 2) & 1 == One(x & 0x40 != 0) && (v >> 3) & 1 == One(x & 0x80 != 0)
  {
  }

  lemma Nibble1(x: bv16)
    ensures Nibble(Quads(Pairs(x)), 1)
         == Four(x & 0x10 != 0, x & 0x20 != 0, x & 0x40 != 0, x & 0x80 != 0)
  {
    hide Pairs, Quads, One, Sum4;
    PairsNibble1(x);
    QuadsNibble1(Pairs(x));
    FlagsNibble1(x);
    FoldsNibble((x >> 4) & 0xF);
  }

  lemma PairsNibble2(x: bv16)
    ensures (Pairs(x) >> 8) & 0xF == Pairs((x >> 8) & 0xF)
  {
  }

  lemma QuadsNibble2(x: bv16)
    ensures (Quads(x) >> 8) & 0xF == Quads((x >> 8) & 0xF)
  {
  }

  lemma FlagsNibble2(x: bv16)
    ensures var v := (x >> 8) & 0xF;
            && v <= 15 && v & 1 == One(x & 0x100 != 0) && (v >> 1) & 1 == One(x & 0x200 != 0)
            && (v >> 2) & 1 == One(x & 0x400 != 0) && (v >> 3) & 1 == One(x & 0x800 != 0)
  {
  }

  lemma Nibble2(x: bv16)
    ensures Nibble(Quads(Pairs(x)), 2)
         == Four(x & 0x100 != 0, x & 0x200 != 0, x & 0x400 != 0, x & 0x800 != 0)
  {
    hide Pairs, Quads, One, Sum4;
    PairsNibble2(x);
    QuadsNibble2(Pairs(x));
    FlagsNibble2(x);
    FoldsNibble((x >> 8) & 0xF);
  }

  lemma PairsNibble3(x: bv16)
    ensures (Pairs(x) >> 12) & 0xF == Pairs((x >> 12) & 0xF)
  {
  }

  lemma QuadsNibble3(x: bv16)
    ensures (Quads(x) >> 12) & 0xF == Quads((x >> 12) & 0xF)
  {
  }

  lemma FlagsNibble3(x: bv16)
    ensures var v := (x >> 12) & 0xF;
            && v <= 15 && v & 1 == One(x & 0x1000 != 0) && (v >> 1) & 1 == One(x & 0x2000 != 0)
            && (v >> 2) & 1 == One(x & 0x4000 != 0) && (v >> 3) & 1 == One(x & 0x8000 != 0)
  {
  }

  lemma Nibble3(x: bv16)
    ensures Nibble(Quads(Pairs(x)), 3)
         == Four(x & 0x1000 != 0, x & 0x2000 != 0, x & 0x4000 != 0, x & 0x8000 != 0)
  {
    hide Pairs, Quads, One, Sum4;
    PairsNibble3(x);
    QuadsNibble3(Pairs(x));
    FlagsNibble3(x);
    FoldsNibble((x >> 12) & 0xF);
  }

  // Folding nibbles of at most four each never carries across a field it has not masked.
  lemma FoldNibbles(b: bv16)
    requires Nibble(b, 0) <= 4 && Nibble(b, 1) <= 4 && Nibble(b, 2) <= 4 && Nibble(b, 3) <= 4
    ensures Whole(Bytes(b)) == Plus(Plus(Plus(Nibble(b, 0), Nibble(b, 1)), Nibble(b, 2)), Nibble(b, 3))
  {
  }

  // The folding count is the number of registers named, for every list.
  lemma FoldedIsCount(x: bv16)
    ensures Folded(x) == Small(Count(ListOf(x)))
  {
    hide Whole, Bytes, Quads, Pairs, Small, Count, Plus, ListOf;
    FoldedInQuads(x);
    CountInQuads(ListOf(x));
  }

  lemma FoldedInQuads(x: bv16)
    ensures var f := ListOf(x);
            && Count(f[0..4]) <= 4 && Count(f[4..8]) <= 4 && Count(f[8..12]) <= 4 && Count(f[12..16]) <= 4
            && Folded(x) == Plus(Plus(Plus(Small(Count(f[0..4])), Small(Count(f[4..8]))), Small(Count(f[8..12]))),
                                 Small(Count(f[12..16])))
  {
    hide Whole, Bytes, Quads, Pairs, Small, Count, Plus, Four, Nibble, Flag;
    var f := ListOf(x);
    var h := Quads(Pairs(x));
    FlagNibbles(x);
    QuadCount(f, 0, Nibble(h, 0));
    QuadCount(f, 4, Nibble(h, 1));
    QuadCount(f, 8, Nibble(h, 2));
    QuadCount(f, 12, Nibble(h, 3));
    FoldNibbles(h);
  }

  lemma CountInQuads(f: seq<bool>)
    requires |f| == 16
    requires Count(f[0..4]) <= 4 && Count(f[4..8]) <= 4 && Count(f[8..12]) <= 4 && Count(f[12..16]) <= 4
    ensures Small(Count(f)) == Plus(Plus(Plus(Small(Count(f[0..4])), Small(Count(f[4..8]))), Small(Count(f[8..12]))),
                                    Small(Count(f[12..16])))
  {
    hide Small, Count, Plus;
    CountQuads(f);
    SmallSum(Count(f[0..4]), Count(f[4..8]), Count(f[8..12]), Count(f[12..16]));
  }

  lemma CountQuads(f: seq<bool>)
    requires |f| == 16
    ensures Count(f) == Count(f[0..4]) + Count(f[4..8]) + Count(f[8..12]) + Count(f[12..16])
  {
    hide Count;
    var a, b, c, d := f[0..4], f[4..8], f[8..12], f[12..16];
    CountAdds(a, b);
    CountAdds(a + b, c);
    CountAdds(a + b + c, d);
    assert f == a + b + c + d;
  }

  lemma SmallSum(a: nat, b: nat, c: nat, d: nat)
    requires a <= 4 && b <= 4 && c <= 4 && d <= 4
    ensures Small(a + b + c + d) == Plus(Plus(Plus(Small(a), Small(b)), Small(c)), Small(d))
  {
    hide Small, Plus;
    SmallPlus(a, b);
    SmallPlus(a + b, c);
    SmallPlus(a + b + c, d);
  }

  // A nibble holding four flags holds their count.
  lemma QuadCount(f: seq<bool>, j: nat, nibble: bv16)
    requires j + 4 <= |f| && nibble == Four(f[j], f[j + 1], f[j + 2], f[j + 3])
    ensures Count(f[j..j + 4]) <= 4 && nibble == Small(Count(f[j..j + 4])) && nibble <= 4
  {
    hide Small, Count, Four;
    CountFour(f[j], f[j + 1], f[j + 2], f[j + 3]);
    assert f[j..j + 4] == [f[j], f[j + 1], f[j + 2], f[j + 3]];
  }

  lemma FlagNibbles(x: bv16)
    ensures var h := Quads(Pairs(x));
            && Nibble(h, 0) == Four(Flag(x, 0), Flag(x, 1), Flag(x, 2), Flag(x, 3))
            && Nibble(h, 1) == Four(Flag(x, 4), Flag(x, 5), Flag(x, 6), Flag(x, 7))
            && Nibble(h, 2) == Four(Flag(x, 8), Flag(x, 9), Flag(x, 10), Flag(x, 11))
            && Nibble(h, 3) == Four(Flag(x, 12), Flag(x, 13), Flag(x, 14), Flag(x, 15))
  {
    hide Quads, Pairs, Four, Nibble;
    Nibble0(x);
    Nibble1(x);
    Nibble2(x);
    Nibble3(x);
  }

  // ---------- Memory ----------

  const BAD_ACCESS: Word := 0xBADACCE5
  const OVERLAY_READ_LIMIT: nat := 0x0300_0000

  // RAM as words, of which the first dramWords are DRAM; while the overlay is on, low reads come
  // from ROM.
  datatype Memory = Memory(ram: seq<Word>, dramWords: nat, rom: seq<Word>, overlay: bool)

  predicate MemOk(m: Memory)
  {
    m.dramWords <= |m.ram| && 4 * |m.ram| <= OVERLAY_READ_LIMIT && |m.rom| > 0
  }

  // mwritew, below the devices.
  function WriteWord(m: Memory, addr: Word, v: Word): (r: Memory)
    ensures |r.ram| == |m.ram| && r.dramWords == m.dramWords && r.rom == m.rom
  {
    var w := addr / 4;
    var cleared := if m.overlay && w < m.dramWords then m.(overlay := false) else m;
    if w < |m.ram| then cleared.(ram := m.ram[w := v]) else cleared
  }

  // mreadw, below the devices.
  function ReadWord(m: Memory, addr: Word): Word
    requires MemOk(m)
  {
    var w := addr / 4;
    if !m.overlay && w < |m.ram| then m.ram[w]
    else if m.overlay && addr < OVERLAY_READ_LIMIT then m.rom[w % |m.rom|]
    else BAD_ACCESS
  }

  // While the overlay is on, reads below 48 MB come from the ROM, repeated over and over; the first store to DRAM ends
  // it, and from then on memory holds what was stored.
  lemma OverlayEnds(m: Memory, at: Word, v: Word, addr: Word)
    requires MemOk(m) && at / 4 < m.dramWords
    ensures m.overlay && addr < 48 * 0x10_0000 ==> ReadWord(m, addr) == m.rom[addr / 4 % |m.rom|]
    ensures var r := WriteWord(m, at, v);
            && MemOk(r) && !r.overlay
            && (addr / 4 < |m.ram| ==> ReadWord(r, addr) == if addr / 4 == at / 4 then v else m.ram[addr / 4])
    ensures m.overlay && |m.ram| > addr / 4 >= m.dramWords ==> WriteWord(m, addr, v).overlay
  {
  }

  // ---------- Addressing ----------

  datatype Addressing = DecrementAfter | IncrementAfter | DecrementBefore | IncrementBefore

  // The written-back base.
  function NewBase(mode: Addressing, base: Word, x: nat): Word
  {
    match mode
    case DecrementAfter => Add32(base, -4 * x)
    case IncrementAfter => Add32(base, 4 * x)
    case DecrementBefore => Add32(base, -4 * x)
    case IncrementBefore => Add32(base, 4 * x)
  }

  // The lowest address of the block.
  function BlockStart(mode: Addressing, base: Word, x: nat): Word
  {
    match mode
    case DecrementAfter => Add32(NewBase(mode, base, x), 4)
    case IncrementAfter => base
    case DecrementBefore => NewBase(mode, base, x)
    case IncrementBefore => Add32(base, 4)
  }

  // The addressing mode that walks a block back.
  function Opposite(mode: Addressing): Addressing
  {
    match mode
    case DecrementAfter => IncrementBefore
    case IncrementAfter => DecrementBefore
    case DecrementBefore => IncrementAfter
    case IncrementBefore => DecrementAfter
  }

  // Two small steps from an address are one, wrapping or not.
  lemma AddTwice(a: Word, b: int, c: int)
    requires -128 <= b <= 128 && -128 <= c <= 128
    ensures Add32(Add32(a, b), c) == Add32(a, b + c)
  {
    WrapSmall(a, b);
    WrapSmall(a, b + c);
    WrapSmall(Add32(a, b), c);
  }

  lemma WrapSmall(a: Word, b: int)
    requires -256 <= b <= 256
    ensures Add32(a, b)
         == if a + b < 0 then a + b + WORD_SIZE else if a + b < WORD_SIZE then a + b else a + b - WORD_SIZE
  {
  }

  lemma AddNothing(a: Word)
    ensures Add32(a, 0) == a
  {
  }

  lemma OppositeReturns(mode: Addressing, base: Word, x: nat)
    requires x <= 16
    ensures NewBase(Opposite(mode), NewBase(mode, base, x), x) == base
    ensures BlockStart(Opposite(mode), NewBase(mode, base, x), x) == BlockStart(mode, base, x)
  {
    hide Add32;
    AddNothing(base);
    AddTwice(base, -4 * x, 4 * x);
    AddTwice(base, 4 * x, -4 * x);
    AddTwice(base, 4 * x, 4 - 4 * x);
    AddTwice(Add32(base, 4 * x), -4 * x, 4);
  }

  // The base a transfer is given: the program counter reads eight on.
  function BaseOf(regs: seq<Word>, rn: nat): Word
    requires rn < |regs|
  {
    if rn == 15 then Add32(regs[rn], 8) else regs[rn]
  }

  // On the program counter the way back starts eight bytes further on.
  lemma OppositeOnPc(mode: Addressing, base: Word, x: nat)
    requires x <= 16
    ensures NewBase(Opposite(mode), Add32(NewBase(mode, base, x), 8), x) == Add32(base, 8)
    ensures BlockStart(Opposite(mode), Add32(NewBase(mode, base, x), 8), x) == Add32(BlockStart(mode, base, x), 8)
  {
    hide Add32;
    var up, down := 4 * x, -4 * x;
    AddTwice(base, up, 8);
    AddTwice(base, down, 8);
    AddTwice(base, up + 8, down);
    AddTwice(base, down + 8, up);
    AddTwice(base, 4, 8);
    AddTwice(base, 8, 4);
    AddTwice(base, down, 4);
    AddTwice(base, down + 4, 8);
    AddTwice(base, down + 8, 4);
  }

  // ---------- The walk over the registers ----------

  predicate Upward(mode: Addressing) { mode.IncrementAfter? || mode.IncrementBefore? }

  predicate StepsFirst(mode: Addressing) { mode.DecrementBefore? || mode.IncrementBefore? }

  // The pointer one word on.
  function Advanced(mode: Addressing, p: Word): Word { Add32(p, if Upward(mode) then 4 else -4) }

  // The word exchanged with a register whose turn comes while the pointer stands at p.
  function Accessed(mode: Addressing, p: Word): Word { if StepsFirst(mode) then Advanced(mode, p) else p }

  // The word each register is exchanged with, if it is listed, and where the pointer ends.
  datatype Walk = Walk(at: seq<Word>, end: Word)

  // A block transfer as the data sheet has it: register by register, upward from the first one or
  // downward from the last.
  function WalkOver(mode: Addressing, list: seq<bool>, p: Word): (w: Walk)
    ensures |w.at| == |list|
    decreases |list|
  {
    if list == [] then Walk([], p)
    else if Upward(mode) then
      var rest := WalkOver(mode, list[1..], if list[0] then Advanced(mode, p) else p);
      Walk([Accessed(mode, p)] + rest.at, rest.end)
    else
      var last := |list| - 1;
      var rest := WalkOver(mode, list[..last], if list[last] then Advanced(mode, p) else p);
      Walk(rest.at + [Accessed(mode, p)], rest.end)
  }

  // How far from the base the lowest word of a block of x registers lies.
  function Lead(mode: Addressing, x: nat): int
  {
    match mode
    case DecrementAfter => 4 - 4 * x
    case IncrementAfter => 0
    case DecrementBefore => -4 * x
    case IncrementBefore => 4
  }

  lemma {:induction false} WalkUp(mode: Addressing, list: seq<bool>, p: Word)
    requires Upward(mode) && |list| <= 16
    ensures var w := WalkOver(mode, list, p);
            && w.end == Add32(p, 4 * Count(list))
            && forall i :: 0 <= i < |list| && list[i] ==> w.at[i] == Add32(p, Lead(mode, 0) + 4 * Slot(list, i))
    decreases |list|
  {
    hide Add32, Count;
    AddNothing(p);
    CountNone();
    if list != [] {
      var next := if list[0] then Add32(p, 4) else p;
      var one := if list[0] then 1 else 0;
      WalkUp(mode, list[1..], next);
      CountFirst(list);
      AddTwice(p, 4 * one, 4 * Count(list[1..]));
      forall i | 1 <= i < |list| && list[i]
        ensures WalkOver(mode, list, p).at[i] == Add32(p, Lead(mode, 0) + 4 * Slot(list, i))
      {
        assert list[..i][1..] == list[1..][..i - 1];
        CountFirst(list[..i]);
        AddTwice(p, 4 * one, Lead(mode, 0) + 4 * Slot(list[1..], i - 1));
      }
    }
  }

  lemma {:induction false} WalkDown(mode: Addressing, list: seq<bool>, p: Word)
    requires !Upward(mode) && |list| <= 16
    ensures var w := WalkOver(mode, list, p);
            && w.end == Add32(p, -4 * Count(list))
            && forall i :: 0 <= i < |list| && list[i] ==>
                             w.at[i] == Add32(p, Lead(mode, Count(list)) + 4 * Slot(list, i))
    decreases |list|
  {
    hide Add32, Count;
    AddNothing(p);
    CountNone();
    if list != [] {
      var last := |list| - 1;
      var next := if list[last] then Add32(p, -4) else p;
      var one := if list[last] then 1 else 0;
      WalkDown(mode, list[..last], next);
      CountLast(list);
      AddTwice(p, -4 * one, -4 * Count(list[..last]));
      forall i | 0 <= i < last && list[i]
        ensures WalkOver(mode, list, p).at[i] == Add32(p, Lead(mode, Count(list)) + 4 * Slot(list, i))
      {
        assert list[..last][..i] == list[..i];
        AddTwice(p, -4 * one, Lead(mode, Count(list[..last])) + 4 * Slot(list, i));
      }
    }
  }

  lemma CountNone()
    ensures Count([]) == 0
  {
  }

  lemma CountLast(list: seq<bool>)
    requires list != []
    ensures Count(list) == Count(list[..|list| - 1]) + if list[|list| - 1] then 1 else 0
  {
  }

  lemma CountFirst(list: seq<bool>)
    requires list != []
    ensures Count(list) == (if list[0] then 1 else 0) + Count(list[1..])
  {
    CountAdds(list[..1], list[1..]);
    assert list[..1] + list[1..] == list;
    assert list[..1] == [list[0]] && [list[0]][..0] == [];
  }

  // The lowest register of a block comes first in memory, whichever way the walk goes: all four modes fill
  // the block from its lowest address in register order and end at the written-back base.
  lemma WalkIsBlock(mode: Addressing, list: seq<bool>, base: Word)
    requires |list| == 16
    ensures var w, x := WalkOver(mode, list, base), Count(list);
            && w.end == NewBase(mode, base, x)
            && forall i :: 0 <= i < 16 && list[i] ==>
                             w.at[i] == Add32(BlockStart(mode, base, x), 4 * Slot(list, i))
  {
    hide Add32, Count, WalkOver;
    var x := Count(list);
    if Upward(mode) {
      WalkUp(mode, list, base);
    } else {
      WalkDown(mode, list, base);
    }
    StartIsLead(mode, base, x);
    forall i | 0 <= i < 16
      ensures Add32(BlockStart(mode, base, x), 4 * Slot(list, i)) == Add32(base, Lead(mode, x) + 4 * Slot(list, i))
    {
      AddTwice(base, Lead(mode, x), 4 * Slot(list, i));
    }
  }

  lemma StartIsLead(mode: Addressing, base: Word, x: nat)
    requires x <= 16
    ensures BlockStart(mode, base, x) == Add32(base, Lead(mode, x))
  {
    hide Add32;
    AddNothing(base);
    AddTwice(base, -4 * x, 4);
  }

  // ---------- The transfers ----------

  // Where in the block a listed register goes.
  function Slot(list: seq<bool>, i: nat): nat
    requires i <= |list|
  {
    Count(list[..i])
  }

  // Whether the list names a register below rn: then the base is written back before the block is stored.
  predicate ListedBelow(list: seq<bool>, rn: nat)
    requires rn < |list|
  {
    exists j :: 0 <= j < rn && list[j]
  }

  // What STM stores of each register: the base as it is when its turn comes, and the program counter eight on.
  function StoredValues(regs: seq<Word>, list: seq<bool>, rn: nat, writeback: bool, newBase: Word): (vals: seq<Word>)
    requires |regs| == 16 && |list| == 16 && rn < 16
    ensures |vals| == 16
    ensures forall j :: 0 <= j < 15 && j != rn ==> vals[j] == regs[j]
  {
    var base := if writeback && (rn == 15 || ListedBelow(list, rn)) then newBase else regs[rn];
    var vals := regs[rn := base];
    vals[15 := Add32(vals[15], 8)]
  }

  // The lowest listed register is stored before the base is written back, all others after it.
  lemma BaseIsStored(regs: seq<Word>, list: seq<bool>, rn: nat, writeback: bool, newBase: Word)
    requires |regs| == 16 && |list| == 16 && rn < 16
    ensures var vals := StoredValues(regs, list, rn, writeback, newBase);
            && (rn < 15 ==>
                  vals[rn] == if writeback && (exists j :: 0 <= j < rn && list[j]) then newBase else regs[rn])
            && vals[15] == Add32(if writeback && rn == 15 then newBase else regs[15], 8)
  {
  }

  // The folded count of an opcode's list, as the transfers use it.
  method CountRegisters(opc: bv16) returns (x: nat)
    ensures x == Count(ListOf(opc)) <= 16
  {
    hide Folded, ListOf, Count;
    FoldedIsCount(opc);
    SmallIsItself(Count(ListOf(opc)));
    x := Folded(opc) as nat;
  }

  lemma SmallIsItself(n: nat)
    requires n <= 16
    ensures Small(n) as nat == n
  {
  }

  // Every word the walk exchanges lies in DRAM.
  predicate WalksInDram(m: Memory, list: seq<bool>, w: Walk)
    requires |w.at| == |list|
  {
    forall j :: 0 <= j < |list| && list[j] ==> w.at[j] / 4 < m.dramWords
  }

  // Then so does the block from its start, and addresses in it do not wrap.
  predicate InDram(m: Memory, start: Word, x: nat)
  {
    start / 4 + x <= m.dramWords
  }

  lemma WalkInDram(m: Memory, mode: Addressing, list: seq<bool>, base: Word)
    requires MemOk(m) && |list| == 16 && Count(list) > 0
    requires WalksInDram(m, list, WalkOver(mode, list, base))
    ensures var start := BlockStart(mode, base, Count(list));
            && InDram(m, start, Count(list))
            && WalkOver(mode, list, base).end == NewBase(mode, base, Count(list))
            && forall j :: 0 <= j < 16 && list[j] ==> WalkOver(mode, list, base).at[j] == start + 4 * Slot(list, j)
  {
    hide Count, WalkOver, BlockStart, NewBase, Add32;
    WalkIsBlock(mode, list, base);
    var start, x := BlockStart(mode, base, Count(list)), Count(list);
    assert list[..16] == list;
    var first := SlotTaken(list, 0);
    var last := SlotTaken(list, x - 1);
    AddNothing(start);
    forall j | 0 <= j < 16
      ensures Add32(start, 4 * Slot(list, j)) == start + 4 * Slot(list, j)
    {
      WrapSmall(start, 4 * Slot(list, j));
    }
  }

  // Every slot of the block is some listed register's.
  lemma {:induction false} SlotTaken(list: seq<bool>, slot: nat) returns (i: nat)
    requires slot < Count(list)
    ensures i < |list| && list[i] && Slot(list, i) == slot
    decreases |list|
  {
    var last := |list| - 1;
    if slot < Count(list[..last]) {
      i := SlotTaken(list[..last], slot);
      assert list[..last][..i] == list[..i];
    } else {
      i := last;
    }
  }

  lemma {:induction false} SlotMono(list: seq<bool>, i: nat, j: nat)
    requires i < j <= |list|
    ensures Slot(list, i) + (if list[i] then 1 else 0) <= Slot(list, j)
    decreases j
  {
    assert list[..j][..j - 1] == list[..j - 1];
    if i == j - 1 {
    } else {
      SlotMono(list, i, j - 1);
    }
  }

  // m holds the first i listed registers at their slots and is otherwise was.
  ghost predicate Holds(m: Memory, was: Memory, regs: seq<Word>, list: seq<bool>, start: nat, i: nat)
  {
    && |regs| == 16 && |list| == 16 && i <= 16
    && |m.ram| == |was.ram| && m.dramWords == was.dramWords && m.rom == was.rom
    && start / 4 + Slot(list, i) <= |m.ram|
    && (forall j :: 0 <= j < i && list[j] ==>
                      start / 4 + Slot(list, j) < |m.ram| && m.ram[start / 4 + Slot(list, j)] == regs[j])
    && (forall w :: 0 <= w < |m.ram| && !(start / 4 <= w < start / 4 + Slot(list, i)) ==> m.ram[w] == was.ram[w])
  }

  lemma HoldsNext(m: Memory, was: Memory, regs: seq<Word>, list: seq<bool>, start: nat, i: nat, addr: Word)
    requires Holds(m, was, regs, list, start, i) && i < 16 && list[i]
    requires addr == start + 4 * Slot(list, i) && start / 4 + Slot(list, i) < |m.ram|
    ensures Holds(WriteWord(m, addr, regs[i]), was, regs, list, start, i + 1)
  {
    assert list[..i + 1][..i] == list[..i];
    assert addr / 4 == start / 4 + Slot(list, i);
    forall j | 0 <= j < i && list[j]
      ensures Slot(list, j) < Slot(list, i)
    {
      SlotMono(list, j, i);
    }
  }

  lemma SlotStep(list: seq<bool>, i: nat)
    requires i < |list|
    ensures Slot(list, i + 1) == Slot(list, i) + (if list[i] then 1 else 0)
  {
    assert list[..i + 1][..i] == list[..i];
  }

  lemma HoldsNone(m: Memory, regs: seq<Word>, list: seq<bool>, start: nat)
    requires |regs| == 16 && |list| == 16 && start / 4 <= |m.ram|
    ensures Slot(list, 0) == 0 && Holds(m, m, regs, list, start, 0)
  {
  }

  lemma HoldsSkip(m: Memory, was: Memory, regs: seq<Word>, list: seq<bool>, start: nat, i: nat)
    requires Holds(m, was, regs, list, start, i) && i < 16 && !list[i]
    ensures Holds(m, was, regs, list, start, i + 1)
  {
    SlotStep(list, i);
  }

  // Each listed register's word holds its value and no other word of RAM has changed.
  ghost predicate Stored(m: Memory, was: Memory, list: seq<bool>, w: Walk, vals: seq<Word>)
    requires |list| == |w.at| == |vals| == 16
  {
    && |m.ram| == |was.ram| && m.dramWords == was.dramWords && m.rom == was.rom
    && (forall j :: 0 <= j < 16 && list[j] ==> w.at[j] / 4 < |m.ram| && m.ram[w.at[j] / 4] == vals[j])
    && (forall k :: 0 <= k < |m.ram| && (forall j :: 0 <= j < 16 && list[j] ==> w.at[j] / 4 != k) ==>
                      m.ram[k] == was.ram[k])
  }

  lemma HeldIsStored(m: Memory, was: Memory, list: seq<bool>, w: Walk, vals: seq<Word>, start: nat)
    requires |list| == |w.at| == 16 && Holds(m, was, vals, list, start, 16)
    requires forall j :: 0 <= j < 16 && list[j] ==> w.at[j] == start + 4 * Slot(list, j)
    ensures Stored(m, was, list, w, vals)
  {
    hide Count;
    assert list[..16] == list;
    forall j | 0 <= j < 16 && list[j]
      ensures w.at[j] / 4 == start / 4 + Slot(list, j)
    {
    }
    forall k | 0 <= k < |m.ram| && (forall j :: 0 <= j < 16 && list[j] ==> w.at[j] / 4 != k)
      ensures m.ram[k] == was.ram[k]
    {
      if start / 4 <= k < start / 4 + Slot(list, 16) {
        var j := SlotTaken(list, k - start / 4);
      }
    }
  }

  class Transfers {
    var regs: seq<Word>   // the current mode's registers
    var mem: Memory

    ghost predicate Valid()
      reads this
    {
      |regs| == 16 && MemOk(mem)
    }

    // bdt_core and stm_accur without the S bit, for a block in DRAM.
    method Store(mode: Addressing, opc: bv16, rn: nat, writeback: bool)
      requires Valid() && rn < 16 && Count(ListOf(opc)) > 0
      requires WalksInDram(mem, ListOf(opc), WalkOver(mode, ListOf(opc), BaseOf(regs, rn)))
      modifies this
      ensures Valid() && !mem.overlay
      ensures var list, w := ListOf(opc), WalkOver(mode, ListOf(opc), BaseOf(old(regs), rn));
              && regs == (if writeback then old(regs)[rn := w.end] else old(regs))
              && Stored(mem, old(mem), list, w, StoredValues(old(regs), list, rn, writeback, w.end))
    {
      hide BlockStart, NewBase, Count, Holds, ListOf, StoredValues, Stored, WalkOver, WalksInDram;
      var list := ListOf(opc);
      WalkInDram(mem, mode, list, BaseOf(regs, rn));
      ghost var w := WalkOver(mode, list, BaseOf(regs, rn));
      var x := CountRegisters(opc);
      var base := BaseOf(regs, rn);
      var start := BlockStart(mode, base, x);
      var newBase := NewBase(mode, base, x);
      ghost var was, initial := mem, regs;
      ghost var vals := StoredValues(regs, list, rn, writeback, newBase);
      assert list[..16] == list;
      if writeback && exists j :: 0 <= j < rn && list[j] {
        regs := regs[rn := newBase];
      }
      ValuesInTurn(initial, regs, list, rn, writeback, newBase);
      var addr := StoreBelowPc(list, start, vals);
      if writeback {
        regs := regs[rn := newBase];
      }
      LastValue(initial, regs, list, rn, writeback, newBase);
      SlotStep(list, 15);
      if list[15] {
        HoldsNext(mem, was, vals, list, start, 15, addr);
        mem := WriteWord(mem, addr, Add32(regs[15], 8));
      } else {
        HoldsSkip(mem, was, vals, list, start, 15);
      }
      HeldIsStored(mem, was, list, w, vals, start);
    }

    // The loop over the registers below the program counter.
    method StoreBelowPc(list: seq<bool>, start: Word, ghost vals: seq<Word>) returns (addr: Word)
      requires Valid() && |list| == 16 && |vals| == 16
      requires start / 4 + Slot(list, 16) <= mem.dramWords
      requires forall j :: 0 <= j < 15 ==> vals[j] == regs[j]
      modifies this`mem
      ensures MemOk(mem) && |mem.ram| == |old(mem).ram| && mem.dramWords == old(mem).dramWords
      ensures Holds(mem, old(mem), vals, list, start, 15)
      ensures Slot(list, 15) > 0 ==> !mem.overlay
      ensures addr == start + 4 * Slot(list, 15)
    {
      hide Count, Holds;
      ghost var was := mem;
      HoldsNone(mem, vals, list, start);
      SlotMono(list, 15, 16);
      addr := start;
      var i := 0;
      while i < 15
        invariant 0 <= i <= 15 && MemOk(mem)
        invariant addr == start + 4 * Slot(list, i)
        invariant Holds(mem, was, vals, list, start, i)
        invariant |mem.ram| == |was.ram| && mem.dramWords == was.dramWords
        invariant Slot(list, i) > 0 ==> !mem.overlay
      {
        SlotStep(list, i);
        if list[i] {
          SlotMono(list, i, 16);
          HoldsNext(mem, was, vals, list, start, i, addr);
          mem := WriteWord(mem, addr, regs[i]);
          addr := addr + 4;
        } else {
          HoldsSkip(mem, was, vals, list, start, i);
        }
        i := i + 1;
      }
    }

    // bdt_core and ldm_accur without the S bit, for a block in RAM's range.
    method Load(mode: Addressing, opc: bv16, rn: nat, writeback: bool)
      requires Valid() && rn < 16 && Count(ListOf(opc)) > 0
      requires WalksInDram(mem, ListOf(opc), WalkOver(mode, ListOf(opc), BaseOf(regs, rn)))
      modifies this
      ensures Valid() && mem == old(mem)
      ensures var list, w := ListOf(opc), WalkOver(mode, ListOf(opc), BaseOf(old(regs), rn));
              forall j :: 0 <= j < 16 ==>
                            regs[j] == if list[j] then ReadWord(mem, w.at[j])
                                       else if writeback && j == rn then w.end
                                       else old(regs)[j]
    {
      hide BlockStart, NewBase, Count, ListOf, ReadWord, WalkOver;
      var list := ListOf(opc);
      WalkInDram(mem, mode, list, BaseOf(regs, rn));
      ghost var w := WalkOver(mode, list, BaseOf(regs, rn));
      var x := CountRegisters(opc);
      var base := BaseOf(regs, rn);
      var addr := BlockStart(mode, base, x);
      var newBase := NewBase(mode, base, x);
      ghost var start := addr;
      HoldsNone(mem, regs, list, start);
      if writeback {
        regs := regs[rn := newBase];
      }
      ghost var initial := regs;
      assert list[..16] == list;
      var i := 0;
      while i < 16
        invariant 0 <= i <= 16 && |regs| == 16 && mem == old(mem)
        invariant addr == start + 4 * Slot(list, i)
        invariant start / 4 + Slot(list, i) <= |mem.ram|
        invariant forall j :: 0 <= j < i && list[j] ==> regs[j] == ReadWord(mem, w.at[j])
        invariant forall j :: 0 <= j < 16 && (j >= i || !list[j]) ==> regs[j] == initial[j]
      {
        SlotStep(list, i);
        if list[i] {
          SlotMono(list, i, 16);
          regs := regs[i := ReadWord(mem, addr)];
          addr := addr + 4;
        }
        i := i + 1;
      }
    }

    // On any base but the program counter, storing a list and loading it back the opposite way, both with
    // writeback, gives every listed register the value that was stored of it and, if it is not listed, the base its
    // own, whatever happened to the other registers in between. So everything but a listed program counter or base
    // comes back.
    method StoreThenLoad(mode: Addressing, opc: bv16, rn: nat, scratch: seq<Word>)
      requires Valid() && rn < 15 && Count(ListOf(opc)) > 0 && |scratch| == 16
      requires WalksInDram(mem, ListOf(opc), WalkOver(mode, ListOf(opc), regs[rn]))
      modifies this
      ensures Valid()
      ensures forall j :: 0 <= j < 15 && j != rn && ListOf(opc)[j] ==> regs[j] == old(regs)[j]
      ensures !ListOf(opc)[rn] ==> regs[rn] == old(regs)[rn]
      ensures forall j :: 0 <= j < 16 && ListOf(opc)[j] ==>
                            var end := WalkOver(mode, ListOf(opc), old(regs)[rn]).end;
                            regs[j] == StoredValues(old(regs), ListOf(opc), rn, true, end)[j]
      ensures forall j :: 0 <= j < 16 && !ListOf(opc)[j] && j != rn ==> regs[j] == scratch[j]
    {
      hide Count, ListOf, StoredValues, WalkOver, ReadWord;
      ghost var list, base := ListOf(opc), regs[rn];
      ghost var w := WalkOver(mode, list, base);
      ghost var vals := StoredValues(regs, list, rn, true, w.end);
      WalkBack(mode, list, base);
      Store(mode, opc, rn, true);
      regs := scratch[rn := regs[rn]];
      ghost var stored := mem;
      Load(Opposite(mode), opc, rn, true);
      forall j | 0 <= j < 16 && list[j]
        ensures regs[j] == vals[j]
      {
        StoredIsLoaded(stored, w.at[j], vals[j]);
      }
    }

    // On the program counter it does not: the way back reads the words two further on than it wrote, and the
    // program counter, if it is not listed itself, ends sixteen on.
    method StoreThenLoadOnPc(mode: Addressing, opc: bv16, scratch: seq<Word>)
      requires Valid() && Count(ListOf(opc)) > 0 && |scratch| == 16
      requires WalksInDram(mem, ListOf(opc), WalkOver(mode, ListOf(opc), BaseOf(regs, 15)))
      requires forall j :: 0 <= j < 16 && ListOf(opc)[j] ==>
                             WalkOver(mode, ListOf(opc), BaseOf(regs, 15)).at[j] / 4 + 2 < mem.dramWords
      modifies this
      ensures Valid()
      ensures forall j :: 0 <= j < 16 && ListOf(opc)[j] ==>
                            var at := WalkOver(mode, ListOf(opc), BaseOf(old(regs), 15)).at[j];
                            regs[j] == ReadWord(mem, Add32(at, 8))
      ensures !ListOf(opc)[15] ==> regs[15] == Add32(old(regs)[15], 16)
      ensures forall j :: 0 <= j < 15 && !ListOf(opc)[j] ==> regs[j] == scratch[j]
    {
      hide Count, ListOf, StoredValues, WalkOver, ReadWord, Add32, Opposite;
      AddTwice(regs[15], 8, 8);
      WalkBackOnPc(mode, ListOf(opc), BaseOf(regs, 15));
      FurtherOn(mem, WalkOver(mode, ListOf(opc), BaseOf(regs, 15)), ListOf(opc));
      Store(mode, opc, 15, true);
      regs := scratch[15 := regs[15]];
      Load(Opposite(mode), opc, 15, true);
    }
  }

  // The opposite walk from where one ended visits the same words and ends at its base.
  lemma WalkBack(mode: Addressing, list: seq<bool>, base: Word)
    requires |list| == 16
    ensures var w := WalkOver(mode, list, base);
            var back := WalkOver(Opposite(mode), list, w.end);
            back.end == base && forall j :: 0 <= j < 16 && list[j] ==> back.at[j] == w.at[j]
  {
    hide Count, WalkOver, BlockStart, NewBase, Add32, Opposite;
    WalkIsBlock(mode, list, base);
    WalkIsBlock(Opposite(mode), list, NewBase(mode, base, Count(list)));
    OppositeReturns(mode, base, Count(list));
  }

  // Eight bytes further on it visits the words two further on.
  lemma WalkBackOnPc(mode: Addressing, list: seq<bool>, base: Word)
    requires |list| == 16
    ensures var w := WalkOver(mode, list, base);
            var back := WalkOver(Opposite(mode), list, Add32(w.end, 8));
            back.end == Add32(base, 8) && forall j :: 0 <= j < 16 && list[j] ==> back.at[j] == Add32(w.at[j], 8)
  {
    hide Count, WalkOver, BlockStart, NewBase, Add32, Opposite;
    var x := Count(list);
    WalkIsBlock(mode, list, base);
    WalkIsBlock(Opposite(mode), list, Add32(NewBase(mode, base, x), 8));
    OppositeOnPc(mode, base, x);
    forall j | 0 <= j < 16
      ensures Add32(Add32(BlockStart(mode, base, x), 8), 4 * Slot(list, j))
           == Add32(Add32(BlockStart(mode, base, x), 4 * Slot(list, j)), 8)
    {
      AddTwice(BlockStart(mode, base, x), 8, 4 * Slot(list, j));
      AddTwice(BlockStart(mode, base, x), 4 * Slot(list, j), 8);
    }
  }

  lemma FurtherOn(m: Memory, w: Walk, list: seq<bool>)
    requires MemOk(m) && |w.at| == |list|
    requires forall j :: 0 <= j < |list| && list[j] ==> w.at[j] / 4 + 2 < m.dramWords
    ensures forall j :: 0 <= j < |list| && list[j] ==> Add32(w.at[j], 8) / 4 < m.dramWords
  {
  }

  lemma StoredIsLoaded(m: Memory, addr: Word, stored: Word)
    requires MemOk(m) && !m.overlay && addr / 4 < |m.ram| && m.ram[addr / 4] == stored
    ensures ReadWord(m, addr) == stored
  {
  }

  // As the loop reaches them, registers below the program counter hold the values to store.
  lemma ValuesInTurn(initial: seq<Word>, regs: seq<Word>, list: seq<bool>, rn: nat, writeback: bool, newBase: Word)
    requires |initial| == 16 && |list| == 16 && rn < 16
    requires regs == if writeback && ListedBelow(list, rn) then initial[rn := newBase] else initial
    ensures forall j :: 0 <= j < 15 ==> StoredValues(initial, list, rn, writeback, newBase)[j] == regs[j]
  {
  }

  // And after the base is written back, so does the program counter, eight on.
  lemma LastValue(initial: seq<Word>, regs: seq<Word>, list: seq<bool>, rn: nat, writeback: bool, newBase: Word)
    requires |initial| == 16 && |list| == 16 && rn < 16
    requires regs == if writeback then initial[rn := newBase] else initial
    ensures StoredValues(initial, list, rn, writeback, newBase)[15] == Add32(regs[15], 8)
  {
  }
}
