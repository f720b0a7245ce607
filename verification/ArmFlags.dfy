/**
 The ARM60's arithmetic flags and its condition table. The source computes
 carry and overflow from sign bits alone; here they are shown to be true carry,
 true no-borrow and true signed overflow, and the sixteen condition masks to
 decide the comparisons they are named after.
 */
module ArmFlags {
  import opened Words

  const SIGN: int := 0x8000_0000

  predicate Negative(x: Word) { x >= SIGN }

  function Signed(x: Word): int { if Negative(x) then x - WORD_SIZE else x }

  datatype Flags = Flags(n: bool, z: bool, c: bool, v: bool)

  // ---------- The formulas of the source ----------

  // Bit 31 of (op1 & op2) | (~rd & (op1 | op2))
  predicate AddCarry(rd: Word, op1: Word, op2: Word)
  {
    (Negative(op1) && Negative(op2)) || (!Negative(rd) && (Negative(op1) || Negative(op2)))
  }

  // Bit 31 of (op1 & op2 & ~rd) | (~op1 & ~op2 & rd)
  predicate AddOverflow(rd: Word, op1: Word, op2: Word)
  {
    (Negative(op1) && Negative(op2) && !Negative(rd)) || (!Negative(op1) && !Negative(op2) && Negative(rd))
  }

  // Bit 31 of (op1 & ~op2) | (~rd & (op1 | ~op2))
  predicate SubCarry(rd: Word, op1: Word, op2: Word)
  {
    (Negative(op1) && !Negative(op2)) || (!Negative(rd) && (Negative(op1) || !Negative(op2)))
  }

  // Bit 31 of (op1 & ~op2 & ~rd) | (~op1 & op2 & rd)
  predicate SubOverflow(rd: Word, op1: Word, op2: Word)
  {
    (Negative(op1) && !Negative(op2) && !Negative(rd)) || (!Negative(op1) && Negative(op2) && Negative(rd))
  }

  // ARM_SET_ZN with ARM_SET_CV
  function AddFlags(rd: Word, op1: Word, op2: Word): Flags
  {
    Flags(Negative(rd), rd == 0, AddCarry(rd, op1, op2), AddOverflow(rd, op1, op2))
  }

  // ARM_SET_ZN with ARM_SET_CV_sub
  function SubFlags(rd: Word, op1: Word, op2: Word): Flags
  {
    Flags(Negative(rd), rd == 0, SubCarry(rd, op1, op2), SubOverflow(rd, op1, op2))
  }

  // The masks above are what the bitwise words of the source hold in bit 31.
  lemma SignBitOfWords(rd: bv32, op1: bv32, op2: bv32)
    ensures var top: bv32 := 0x8000_0000;
            var r, a, b := rd & top != 0, op1 & top != 0, op2 & top != 0;
            && (((op1 & op2) | (!rd & (op1 | op2))) & top != 0 <==> (a && b) || (!r && (a || b)))
            && (((op1 & (op2 & !rd)) | (!op1 & !op2 & rd)) & top != 0 <==> (a && b && !r) || (!a && !b && r))
            && (((op1 & !op2) | (!rd & (op1 | !op2))) & top != 0 <==> (a && !b) || (!r && (a || !b)))
            && (((op1 & (!op2 & !rd)) | (!op1 & op2 & rd)) & top != 0 <==> (a && !b && !r) || (!a && b && r))
  {
  }

  // The sign of a register's value is its bit 31.
  lemma SignIsBit31(x: bv32)
    ensures Negative(x as int) <==> x & 0x8000_0000 != 0
  {
  }

  // So each flag formula, on the values of the registers, is bit 31 of the word the source computes from them.
  lemma FormulasOfWords(rd: bv32, op1: bv32, op2: bv32)
    ensures var top: bv32 := 0x8000_0000;
            var r, a, b := rd as int, op1 as int, op2 as int;
            && (AddCarry(r, a, b) <==> ((op1 & op2) | (!rd & (op1 | op2))) & top != 0)
            && (AddOverflow(r, a, b) <==> ((op1 & (op2 & !rd)) | (!op1 & !op2 & rd)) & top != 0)
            && (SubCarry(r, a, b) <==> ((op1 & !op2) | (!rd & (op1 | !op2))) & top != 0)
            && (SubOverflow(r, a, b) <==> ((op1 & (!op2 & !rd)) | (!op1 & op2 & rd)) & top != 0)
  {
    hide Negative;
    SignIsBit31(rd);
    SignIsBit31(op1);
    SignIsBit31(op2);
    SignBitOfWords(rd, op1, op2);
  }

  // ---------- Arithmetic ----------

  function Bit(b: bool): nat { if b then 1 else 0 }

  datatype Op = Sub | Rsb | Add | Adc | Sbc | Rsc

  // The exact, unwrapped result on unsigned and on signed readings of the operands.
  function Unsigned(op: Op, a: Word, b: Word, carry: bool): int
  {
    match op
    case Sub => a - b
    case Rsb => b - a
    case Add => a + b
    case Adc => a + b + Bit(carry)
    case Sbc => a - b - Bit(!carry)
    case Rsc => b - a - Bit(!carry)
  }

  function Exact(op: Op, a: Word, b: Word, carry: bool): int
  {
    match op
    case Sub => Signed(a) - Signed(b)
    case Rsb => Signed(b) - Signed(a)
    case Add => Signed(a) + Signed(b)
    case Adc => Signed(a) + Signed(b) + Bit(carry)
    case Sbc => Signed(a) - Signed(b) - Bit(!carry)
    case Rsc => Signed(b) - Signed(a) - Bit(!carry)
  }

  predicate Adds(op: Op) { op == Add || op == Adc }

  // What ARM_ALU_Exec computes for the flag-setting arithmetic operations.
  function Result(op: Op, a: Word, b: Word, carry: bool): Word { Unsigned(op, a, b, carry) % WORD_SIZE }

  function FlagsOf(op: Op, a: Word, b: Word, carry: bool): Flags
  {
    var rd := Result(op, a, b, carry);
    match op
    case Sub => SubFlags(rd, a, b)
    case Rsb => SubFlags(rd, b, a)
    case Add => AddFlags(rd, a, b)
    case Adc => AddFlags(rd, a, b)
    case Sbc => SubFlags(rd, a, b)
    case Rsc => SubFlags(rd, b, a)
  }

  // Numbers of two words, low word first.
  function Long(lo: Word, hi: Word): int { lo + hi * WORD_SIZE }

  // What the carry chain is for: ADD then ADC add two-word numbers, SUB then SBC subtract them and RSB then RSC
  // subtract them the other way; the last carry is the carry out, or no borrow.
  lemma CarryChains(a0: Word, a1: Word, b0: Word, b1: Word, carry: bool)
    ensures var c := FlagsOf(Add, a0, b0, carry).c;
            Long(Result(Add, a0, b0, carry), Result(Adc, a1, b1, c))
            == Long(a0, a1) + Long(b0, b1) - if FlagsOf(Adc, a1, b1, c).c then WORD_SIZE * WORD_SIZE else 0
    ensures var c := FlagsOf(Sub, a0, b0, carry).c;
            Long(Result(Sub, a0, b0, carry), Result(Sbc, a1, b1, c))
            == Long(a0, a1) - Long(b0, b1) + if FlagsOf(Sbc, a1, b1, c).c then 0 else WORD_SIZE * WORD_SIZE
    ensures var c := FlagsOf(Rsb, a0, b0, carry).c;
            Long(Result(Rsb, a0, b0, carry), Result(Rsc, a1, b1, c))
            == Long(b0, b1) - Long(a0, a1) + if FlagsOf(Rsc, a1, b1, c).c then 0 else WORD_SIZE * WORD_SIZE
  {
    hide FlagsOf, Result;
    WordOf(Add, a0, b0, carry);
    WordOf(Sub, a0, b0, carry);
    WordOf(Rsb, a0, b0, carry);
    WordOf(Adc, a1, b1, FlagsOf(Add, a0, b0, carry).c);
    WordOf(Sbc, a1, b1, FlagsOf(Sub, a0, b0, carry).c);
    WordOf(Rsc, a1, b1, FlagsOf(Rsb, a0, b0, carry).c);
  }

  // A result is the exact one but for the word that the carry or borrow stands for.
  lemma WordOf(op: Op, a: Word, b: Word, carry: bool)
    ensures var exact, c := Unsigned(op, a, b, carry), FlagsOf(op, a, b, carry).c;
            var wrapped := if Adds(op) == c then (if c then exact - WORD_SIZE else exact + WORD_SIZE) else exact;
            Result(op, a, b, carry) == wrapped
  {
    hide FlagsOf;
    FlagsAreTrue(op, a, b, carry);
  }

  // For every operand pair and carry-in: C is the carry out of an addition and no-borrow of a
  // subtraction, V is signed overflow, N and Z describe the wrapped result.
  lemma FlagsAreTrue(op: Op, a: Word, b: Word, carry: bool)
    ensures var f := FlagsOf(op, a, b, carry);
            && (f.c <==> if Adds(op) then Unsigned(op, a, b, carry) >= WORD_SIZE else Unsigned(op, a, b, carry) >= 0)
            && (f.v <==> !(-SIGN <= Exact(op, a, b, carry) < SIGN))
            && (f.n <==> Signed(Result(op, a, b, carry)) < 0)
            && (f.z <==> Unsigned(op, a, b, carry) % WORD_SIZE == 0)
            && (!f.v ==> Signed(Result(op, a, b, carry)) == Exact(op, a, b, carry))
  {
    hide AddFlags, SubFlags, Signed;
    match op
    case Sub => SubIsTrue(a, b, 0);
    case Rsb => SubIsTrue(b, a, 0);
    case Add => AddIsTrue(a, b, 0);
    case Adc => AddIsTrue(a, b, Bit(carry));
    case Sbc => SubIsTrue(a, b, Bit(!carry));
    case Rsc => SubIsTrue(b, a, Bit(!carry));
  }

  // The flags of an addition with a carry in, from the wrapped result.
  lemma AddIsTrue(a: Word, b: Word, k: nat)
    requires k <= 1
    ensures var rd: Word, exact := (a + b + k) % WORD_SIZE, Signed(a) + Signed(b) + k;
            var f := AddFlags(rd, a, b);
            && (f.c <==> a + b + k >= WORD_SIZE) && (f.v <==> !(-SIGN <= exact < SIGN))
            && (f.n <==> Signed(rd) < 0) && (f.z <==> rd == 0) && (!f.v ==> Signed(rd) == exact)
  {
    Wrap(a + b + k);
  }

  // The flags of a subtraction with a borrow in.
  lemma SubIsTrue(a: Word, b: Word, k: nat)
    requires k <= 1
    ensures var rd: Word, exact := (a - b - k) % WORD_SIZE, Signed(a) - Signed(b) - k;
            var f := SubFlags(rd, a, b);
            && (f.c <==> a - b - k >= 0) && (f.v <==> !(-SIGN <= exact < SIGN))
            && (f.n <==> Signed(rd) < 0) && (f.z <==> rd == 0) && (!f.v ==> Signed(rd) == exact)
  {
    Wrap(a - b - k);
  }

  lemma Wrap(u: int)
    requires 0 - WORD_SIZE <= u < 2 * WORD_SIZE
    ensures u % WORD_SIZE == if u < 0 then u + WORD_SIZE else if u < WORD_SIZE then u else u - WORD_SIZE
  {
  }

  // ---------- Conditions ----------

  datatype Condition = EQ | NE | CS | CC | MI | PL | VS | VC | HI | LS | GE | LT | GT | LE | AL | NV

  // cond_flags_cross
  function Mask(k: Condition): bv16
  {
    match k
    case EQ => 0xf0f0
    case NE => 0x0f0f
    case CS => 0xcccc
    case CC => 0x3333
    case MI => 0xff00
    case PL => 0x00ff
    case VS => 0xaaaa
    case VC => 0x5555
    case HI => 0x0c0c
    case LS => 0xf3f3
    case GE => 0xaa55
    case LT => 0x55aa
    case GT => 0x0a05
    case LE => 0xf5fa
    case AL => 0xffff
    case NV => 0x0000
  }

  // The bit of a mask that flags NZCV select.
  function Selected(f: Flags): bv16
  {
    if f.n then
      if f.z then
        if f.c then (if f.v then 0x8000 else 0x4000) else (if f.v then 0x2000 else 0x1000)
      else
        if f.c then (if f.v then 0x0800 else 0x0400) else (if f.v then 0x0200 else 0x0100)
    else
      if f.z then
        if f.c then (if f.v then 0x0080 else 0x0040) else (if f.v then 0x0020 else 0x0010)
      else
        if f.c then (if f.v then 0x0008 else 0x0004) else (if f.v then 0x0002 else 0x0001)
  }

  predicate Passes(k: Condition, f: Flags) { Mask(k) & Selected(f) != 0 }

  // The conditions as the ARM60 data sheet defines them.
  predicate Meaning(k: Condition, f: Flags)
  {
    match k
    case EQ => f.z
    case NE => !f.z
    case CS => f.c
    case CC => !f.c
    case MI => f.n
    case PL => !f.n
    case VS => f.v
    case VC => !f.v
    case HI => f.c && !f.z
    case LS => !f.c || f.z
    case GE => f.n == f.v
    case LT => f.n != f.v
    case GT => !f.z && f.n == f.v
    case LE => f.z || f.n != f.v
    case AL => true
    case NV => false
  }

  lemma TableIsRight(k: Condition, f: Flags)
    ensures Passes(k, f) <==> Meaning(k, f)
  {
    match k
    case EQ => case NE => case CS => case CC => case MI => case PL => case VS => case VC =>
    case HI => case LS => case GE => case LT => case GT => case LE => case AL => case NV =>
  }

  // After CMP a, b the table decides every unsigned and signed comparison.
  lemma CompareDecides(a: Word, b: Word)
    ensures var f := FlagsOf(Sub, a, b, false);
            && (Passes(EQ, f) <==> a == b) && (Passes(NE, f) <==> a != b)
            && (Passes(CS, f) <==> a >= b) && (Passes(CC, f) <==> a < b)
            && (Passes(HI, f) <==> a > b) && (Passes(LS, f) <==> a <= b)
            && (Passes(GE, f) <==> Signed(a) >= Signed(b)) && (Passes(LT, f) <==> Signed(a) < Signed(b))
            && (Passes(GT, f) <==> Signed(a) > Signed(b)) && (Passes(LE, f) <==> Signed(a) <= Signed(b))
  {
    hide Passes, FlagsOf;
    var f := FlagsOf(Sub, a, b, false);
    FlagsAreTrue(Sub, a, b, false);
    Wrap(a - b);
    forall k: Condition
      ensures Passes(k, f) <==> Meaning(k, f)
    {
      TableIsRight(k, f);
    }
  }
}
