/**
 The ARM60's banked registers. The source keeps the current mode's registers in
 one array and swaps the others in and out of per-mode save areas on every mode
 change; the programmer sees a flat file of 31 registers. Runs of mode changes,
 exception entries and returns are proved to refine that flat file.
 */
module ArmBanks {
  import opened Words

  datatype Mode = User | Fiq | Irq | Svc | Abt | Und

  // A program status register: flags, interrupt masks and the five mode bits. The source
  // drops every other bit (mask 0xf00000df).
  datatype Psr = Psr(n: bool, z: bool, c: bool, v: bool, i: bool, f: bool, bits: nat)

  // arm_mode_table
  function ModeTable(bits: nat): (m: Option<Mode>)
    ensures m.Some? <==> bits in {0x10, 0x11, 0x12, 0x13, 0x17, 0x1B}
  {
    match bits
    case 0x10 => Some(User)
    case 0x11 => Some(Fiq)
    case 0x12 => Some(Irq)
    case 0x13 => Some(Svc)
    case 0x17 => Some(Abt)
    case 0x1B => Some(Und)
    case _ => None
  }

  function BitsOf(m: Mode): nat
  {
    match m
    case User => 0x10
    case Fiq => 0x11
    case Irq => 0x12
    case Svc => 0x13
    case Abt => 0x17
    case Und => 0x1B
  }

  // a | 0x10 on the mode bits.
  function Privileged(p: Psr): (q: Psr)
    ensures q == p.(bits := q.bits) && 16 <= q.bits < 32 && (q.bits - p.bits) % 16 == 0
  {
    p.(bits := if p.bits % 32 < 16 then p.bits % 32 + 16 else p.bits % 32)
  }

  function Index(m: Mode): (i: nat)
    ensures i < 6
  {
    match m
    case User => 0
    case Fiq => 1
    case Irq => 2
    case Svc => 3
    case Abt => 4
    case Und => 5
  }

  datatype Core = Core(
    user: seq<Word>,  // the registers the current mode sees
    cash: seq<Word>,  // user r8 to r14 while another mode has replaced some of them
    svc: seq<Word>,
    abt: seq<Word>,
    fiq: seq<Word>,
    irq: seq<Word>,
    und: seq<Word>,
    spsr: seq<Psr>,
    cpsr: Psr)

  predicate Shape(c: Core)
  {
    && |c.user| == 16 && |c.cash| == 7 && |c.fiq| == 7 && |c.spsr| == 6
    && |c.svc| == 2 && |c.abt| == 2 && |c.irq| == 2 && |c.und| == 2
  }

  predicate Defined(p: Psr) { ModeTable(p.bits).Some? }

  predicate Valid(c: Core) { Shape(c) && Defined(c.cpsr) }

  function ModeOf(c: Core): Mode
    requires Valid(c)
  {
    ModeTable(c.cpsr.bits).value
  }

  // ---------- The flat register file ----------

  // The 31 registers of the programmer's model.
  datatype Reg = Shared(n: nat) | Middle(n: nat) | FiqHigh(n: nat) | Banked(m: Mode, n: nat)

  predicate IsReg(l: Reg)
  {
    match l
    case Shared(n) => n < 8 || n == 15
    case Middle(n) => 8 <= n < 13
    case FiqHigh(n) => 8 <= n < 15
    case Banked(m, n) => m != Fiq && 13 <= n < 15
  }

  // Which register mode m calls r_n.
  function Place(m: Mode, n: nat): (l: Reg)
    requires n < 16
    ensures IsReg(l)
  {
    if n < 8 || n == 15 then Shared(n)
    else if m == Fiq then FiqHigh(n)
    else if n < 13 then Middle(n)
    else Banked(m, n)
  }

  function SaveArea(c: Core, m: Mode): seq<Word>
    requires Shape(c)
  {
    match m
    case User => c.cash[5..]
    case Fiq => c.fiq[5..]
    case Irq => c.irq
    case Svc => c.svc
    case Abt => c.abt
    case Und => c.und
  }

  // Where the source keeps a register at the moment.
  function At(c: Core, l: Reg): Word
    requires Valid(c) && IsReg(l)
  {
    match l
    case Shared(n) => c.user[n]
    case Middle(n) => if ModeOf(c) == Fiq then c.cash[n - 8] else c.user[n]
    case FiqHigh(n) => if ModeOf(c) == Fiq then c.user[n] else c.fiq[n - 8]
    case Banked(m, n) =>
      if ModeOf(c) == m then c.user[n]
      else if m == User then c.cash[n - 8]
      else SaveArea(c, m)[n - 13]
  }

  ghost function File(c: Core): imap<Reg, Word>
    requires Valid(c)
  {
    imap l: Reg | IsReg(l) :: At(c, l)
  }

  // The current mode's view of the flat file is the working array.
  lemma CurrentView(c: Core, n: nat)
    requires Valid(c) && n < 16
    ensures File(c)[Place(ModeOf(c), n)] == c.user[n]
  {
  }

  // ---------- Swapping banks ----------

  // Replaces r13 and r14 of the working array.
  function WithTop(c: Core, bank: seq<Word>): Core
    requires Shape(c) && |bank| == 2
  {
    c.(user := c.user[..13] + bank + c.user[15..])
  }

  function SavedTo(c: Core, m: Mode, bank: seq<Word>): Core
    requires Shape(c) && |bank| == 2
  {
    match m
    case User => c.(cash := c.cash[..5] + bank)
    case Fiq => c.(fiq := c.fiq[..5] + bank)
    case Irq => c.(irq := bank)
    case Svc => c.(svc := bank)
    case Abt => c.(abt := bank)
    case Und => c.(und := bank)
  }

  // ARM_RestUserRONS
  function RestUser(c: Core, from: Option<Mode>): Core
    requires Shape(c)
  {
    match from
    case None => c
    case Some(User) => c
    case Some(Fiq) =>
      var saved := c.(fiq := c.user[8..15]);
      saved.(user := saved.user[..8] + saved.cash + saved.user[15..])
    case Some(m) => WithTop(SavedTo(c, m, c.user[13..15]), c.cash[5..])
  }

  // ARM_RestFiqRONS
  function RestFiq(c: Core, from: Option<Mode>): Core
    requires Shape(c)
  {
    match from
    case None => c
    case Some(Fiq) => c
    case Some(User) =>
      var saved := c.(cash := c.user[8..15]);
      saved.(user := saved.user[..8] + saved.fiq + saved.user[15..])
    case Some(m) =>
      var saved := SavedTo(c.(cash := c.user[8..13] + c.cash[5..]), m, c.user[13..15]);
      saved.(user := saved.user[..8] + saved.fiq + saved.user[15..])
  }

  // ARM_RestIrqRONS, ARM_RestSvcRONS, ARM_RestAbtRONS and ARM_RestUndRONS
  function RestTop(c: Core, from: Option<Mode>, to: Mode): Core
    requires Shape(c) && to != User && to != Fiq
  {
    match from
    case None => c
    case Some(Fiq) =>
      var saved := c.(fiq := c.user[8..15]);
      WithTop(saved.(user := saved.user[..8] + saved.cash[..5] + saved.user[13..]), SaveArea(saved, to))
    case Some(m) =>
      if m == to then c else WithTop(SavedTo(c, m, c.user[13..15]), SaveArea(c, to))
  }

  // ARM_Change_ModeSafe
  function ChangeMode(c: Core, to: Option<Mode>): (r: Core)
    requires Shape(c)
    ensures Shape(r) && r.cpsr == c.cpsr && r.spsr == c.spsr
  {
    var from := ModeTable(c.cpsr.bits);
    match to
    case None => c
    case Some(User) => RestUser(c, from)
    case Some(Fiq) => RestFiq(c, from)
    case Some(m) => RestTop(c, from, m)
  }

  // arm_cpsr_set
  function SetCpsr(c: Core, a: Psr): (r: Core)
    requires Shape(c)
    ensures Shape(r) && r.cpsr == Privileged(a) && r.spsr == c.spsr
  {
    ChangeMode(c, ModeTable(Privileged(a).bits)).(cpsr := Privileged(a))
  }

  // SETM
  function SetMode(c: Core, m: Mode): (r: Core)
    requires Shape(c)
    ensures Shape(r) && r.cpsr == c.cpsr.(bits := BitsOf(m)) && r.spsr == c.spsr
  {
    ChangeMode(c, Some(m)).(cpsr := c.cpsr.(bits := BitsOf(m)))
  }

  // Swapping banks for a mode change moves values about but changes no register.
  lemma SwitchKeepsFile(c: Core, m: Mode, psr: Psr)
    requires Valid(c) && ModeTable(psr.bits) == Some(m)
    ensures File(ChangeMode(c, Some(m)).(cpsr := psr)) == File(c)
  {
    var r := ChangeMode(c, Some(m)).(cpsr := psr);
    forall l | IsReg(l)
      ensures At(r, l) == At(c, l)
    {
      SwitchKeepsReg(c, m, psr, l);
    }
  }

  lemma SwitchKeepsReg(c: Core, m: Mode, psr: Psr, l: Reg)
    requires Valid(c) && ModeTable(psr.bits) == Some(m) && IsReg(l)
    ensures At(ChangeMode(c, Some(m)).(cpsr := psr), l) == At(c, l)
  {
    match m
    case User => ToUser(c, psr, l);
    case Fiq => ToFiq(c, psr, l);
    case _ => ToTop(c, m, psr, l);
  }

  lemma ToUser(c: Core, psr: Psr, l: Reg)
    requires Valid(c) && ModeTable(psr.bits) == Some(User) && IsReg(l)
    ensures At(ChangeMode(c, Some(User)).(cpsr := psr), l) == At(c, l)
  {
  }

  lemma ToFiq(c: Core, psr: Psr, l: Reg)
    requires Valid(c) && ModeTable(psr.bits) == Some(Fiq) && IsReg(l)
    ensures At(ChangeMode(c, Some(Fiq)).(cpsr := psr), l) == At(c, l)
  {
  }

  lemma ToTop(c: Core, m: Mode, psr: Psr, l: Reg)
    requires Valid(c) && ModeTable(psr.bits) == Some(m) && m != User && m != Fiq && IsReg(l)
    ensures At(ChangeMode(c, Some(m)).(cpsr := psr), l) == At(c, l)
  {
    hide ChangeMode, At;
    if ModeOf(c) == Fiq {
      FiqToTop(c, m, psr, l);
    } else {
      TopToTop(c, m, psr, l);
    }
  }

  lemma FiqToTop(c: Core, m: Mode, psr: Psr, l: Reg)
    requires Valid(c) && ModeOf(c) == Fiq && ModeTable(psr.bits) == Some(m) && m != User && m != Fiq && IsReg(l)
    ensures At(ChangeMode(c, Some(m)).(cpsr := psr), l) == At(c, l)
  {
  }

  lemma TopToTop(c: Core, m: Mode, psr: Psr, l: Reg)
    requires Valid(c) && ModeOf(c) != Fiq && ModeTable(psr.bits) == Some(m) && m != User && m != Fiq && IsReg(l)
    ensures At(ChangeMode(c, Some(m)).(cpsr := psr), l) == At(c, l)
  {
    hide SavedTo, SaveArea;
    var from := ModeOf(c);
    var saved := SavedTo(c, from, c.user[13..15]);
    SavedParts(c, from, c.user[13..15]);
    var r := ChangeMode(c, Some(m)).(cpsr := psr);
    assert r == (if from == m then c else WithTop(saved, SaveArea(c, m))).(cpsr := psr);
    if l.Banked? {
      BankedAt(c, l.m, l.n);
      BankedAt(r, l.m, l.n);
      SameSaveArea(r, if from == m then c else saved, l.m);
    }
  }

  // A register of one mode's own bank is in the working array or in that mode's save area.
  lemma BankedAt(c: Core, m: Mode, n: nat)
    requires Valid(c) && m != Fiq && 13 <= n < 15
    ensures At(c, Banked(m, n)) == if ModeOf(c) == m then c.user[n] else SaveArea(c, m)[n - 13]
  {
  }

  lemma SavedParts(c: Core, from: Mode, bank: seq<Word>)
    requires Shape(c) && |bank| == 2
    ensures var r := SavedTo(c, from, bank);
            && Shape(r) && r.user == c.user && r.cpsr == c.cpsr && r.spsr == c.spsr && r.cash[..5] == c.cash[..5]
            && (from != Fiq ==> r.fiq == c.fiq)
            && forall m: Mode :: SaveArea(r, m) == if m == from then bank else SaveArea(c, m)
  {
  }

  lemma SameSaveArea(a: Core, b: Core, m: Mode)
    requires Shape(a) && Shape(b) && a == b.(user := a.user, cpsr := a.cpsr)
    ensures SaveArea(a, m) == SaveArea(b, m)
  {
  }

  // ---------- The user bank seen from any mode ----------

  // loadusr
  function LoadUser(c: Core, n: nat, v: Word): (r: Core)
    requires Valid(c) && n < 16
    ensures Valid(r) && r.cpsr == c.cpsr && r.spsr == c.spsr
  {
    if n == 15 then c.(user := c.user[15 := v])
    else
      match ModeOf(c)
      case User => c.(user := c.user[n := v])
      case Fiq => if n > 7 then c.(cash := c.cash[n - 8 := v]) else c.(user := c.user[n := v])
      case _ => if n > 12 then c.(cash := c.cash[n - 8 := v]) else c.(user := c.user[n := v])
  }

  // readusr
  function ReadUser(c: Core, n: nat): (v: Word)
    requires Valid(c) && n < 16
    ensures v == At(c, Place(User, n))
  {
    if n == 15 then c.user[15]
    else
      match ModeOf(c)
      case User => c.user[n]
      case Fiq => if n > 7 then c.cash[n - 8] else c.user[n]
      case _ => if n > 12 then c.cash[n - 8] else c.user[n]
  }

  // From whatever mode, writing user register n writes exactly that register of the flat file.
  lemma LoadUserIsExact(c: Core, n: nat, v: Word)
    requires Valid(c) && n < 16
    ensures File(LoadUser(c, n, v)) == File(c)[Place(User, n) := v]
  {
    var r := LoadUser(c, n, v);
    forall l | IsReg(l)
      ensures At(r, l) == if l == Place(User, n) then v else At(c, l)
    {
    }
  }

  lemma WriteIsExact(c: Core, n: nat, v: Word)
    requires Valid(c) && n < 16
    ensures File(c.(user := c.user[n := v])) == File(c)[Place(ModeOf(c), n) := v]
  {
    var r := c.(user := c.user[n := v]);
    forall l | IsReg(l)
      ensures At(r, l) == if l == Place(ModeOf(c), n) then v else At(c, l)
    {
    }
  }

  // ---------- Exceptions ----------

  datatype Exception = SoftwareInterrupt | UndefinedInstruction | DataAbort | FastInterrupt | SoftReset

  function Handler(e: Exception): Mode
  {
    match e
    case SoftwareInterrupt => Svc
    case UndefinedInstruction => Und
    case DataAbort => Abt
    case FastInterrupt => Fiq
    case SoftReset => Svc
  }

  function Vector(e: Exception): Word
  {
    match e
    case SoftwareInterrupt => 0x08
    case UndefinedInstruction => 0x04
    case DataAbort => 0x10
    case FastInterrupt => 0x1C
    case SoftReset => 0x00
  }

  // What is added to the program counter to make the link value.
  function LinkOffset(e: Exception): nat
  {
    match e
    case SoftwareInterrupt => 0
    case UndefinedInstruction => 0
    case DataAbort => 4
    case FastInterrupt => 4
    case SoftReset => 0
  }

  function Masked(p: Psr, e: Exception): Psr { p.(i := true, f := p.f || e == FastInterrupt || e == SoftReset) }

  // The entry sequences: SPSR of the handler's mode, masks, mode, link, vector.
  function Enter(c: Core, e: Exception): (r: Core)
    requires Valid(c)
    ensures Valid(r)
  {
    hide ChangeMode;
    var saved := c.(spsr := c.spsr[Index(Handler(e)) := c.cpsr], cpsr := Masked(c.cpsr, e));
    var inMode := SetMode(saved, Handler(e));
    inMode.(user := inMode.user[14 := Add32(inMode.user[15], LinkOffset(e))][15 := Vector(e)])
  }

  // arm_cpsr_set(CPU.SPSR[arm_mode_table[MODE]])
  function Return(c: Core): (r: Core)
    requires Valid(c)
    ensures Shape(r)
  {
    SetCpsr(c, c.spsr[Index(ModeOf(c))])
  }

  // ---------- Runs refine the flat machine ----------

  // One saved status register a mode.
  datatype Flat = Flat(file: imap<Reg, Word>, cpsr: Psr, spsr: map<Mode, Psr>)

  ghost predicate FlatOk(f: Flat)
  {
    Defined(f.cpsr) && (forall m: Mode :: m in f.spsr) && forall l :: IsReg(l) <==> l in f.file
  }

  datatype Event =
    | SetPsr(psr: Psr)
    | Write(n: nat, v: Word)
    | WriteUserBank(n: nat, v: Word)
    | WriteSpsr(psr: Psr)
    | Raise(e: Exception)
    | Leave

  // Register numbers are real and every status word loaded names a defined mode.
  predicate Legal(cpsr: Psr, spsr: map<Mode, Psr>, e: Event)
    requires Defined(cpsr) && ModeTable(cpsr.bits).value in spsr
  {
    match e
    case SetPsr(psr) => Defined(Privileged(psr))
    case Write(n, v) => n < 16
    case WriteUserBank(n, v) => n < 16
    case WriteSpsr(psr) => true
    case Raise(_) => true
    case Leave => Defined(Privileged(spsr[ModeTable(cpsr.bits).value]))
  }

  // The SPSR array, by mode.
  function Saved(c: Core): (s: map<Mode, Psr>)
    requires Shape(c)
    ensures forall m: Mode :: m in s && s[m] == c.spsr[Index(m)]
  {
    map m: Mode | true :: c.spsr[Index(m)]
  }

  function Step(c: Core, e: Event): (r: Core)
    requires Valid(c) && Legal(c.cpsr, Saved(c), e)
    ensures Valid(r)
  {
    hide ChangeMode, LoadUser;
    match e
    case SetPsr(psr) => SetCpsr(c, psr)
    case Write(n, v) => c.(user := c.user[n := v])
    case WriteUserBank(n, v) => LoadUser(c, n, v)
    case WriteSpsr(psr) => c.(spsr := c.spsr[Index(ModeOf(c)) := psr])
    case Raise(x) => Enter(c, x)
    case Leave => Return(c)
  }

  // The same events on the programmer's model: no banks, no swapping.
  ghost function FlatStep(f: Flat, e: Event): (r: Flat)
    requires FlatOk(f) && Legal(f.cpsr, f.spsr, e)
    ensures FlatOk(r)
  {
    var m := ModeTable(f.cpsr.bits).value;
    match e
    case SetPsr(psr) => f.(cpsr := Privileged(psr))
    case Write(n, v) => f.(file := f.file[Place(m, n) := v])
    case WriteUserBank(n, v) => f.(file := f.file[Place(User, n) := v])
    case WriteSpsr(psr) => f.(spsr := f.spsr[m := psr])
    case Raise(x) =>
      var h := Handler(x);
      Flat(f.file[Place(h, 14) := Add32(f.file[Place(h, 15)], LinkOffset(x))][Place(h, 15) := Vector(x)],
           Masked(f.cpsr, x).(bits := BitsOf(h)),
           f.spsr[h := f.cpsr])
    case Leave => f.(cpsr := Privileged(f.spsr[m]))
  }

  ghost function Abstract(c: Core): (f: Flat)
    requires Valid(c)
    ensures FlatOk(f)
  {
    Flat(File(c), c.cpsr, Saved(c))
  }

  lemma SetCpsrKeepsFile(c: Core, a: Psr)
    requires Valid(c) && Defined(Privileged(a))
    ensures File(SetCpsr(c, a)) == File(c)
  {
    hide ChangeMode, File;
    SwitchKeepsFile(c, ModeTable(Privileged(a).bits).value, Privileged(a));
  }

  // Saving one mode's status register leaves the other modes' alone.
  lemma SavedAt(c: Core, m: Mode, psr: Psr)
    requires Shape(c)
    ensures Saved(c.(spsr := c.spsr[Index(m) := psr])) == Saved(c)[m := psr]
  {
  }

  lemma SavedSame(c: Core, d: Core)
    requires Shape(c) && Shape(d) && c.spsr == d.spsr
    ensures Saved(c) == Saved(d)
  {
  }

  lemma EnterRefines(c: Core, x: Exception)
    requires Valid(c)
    ensures Abstract(Enter(c, x)) == FlatStep(Abstract(c), Raise(x))
  {
    hide ChangeMode, File, Saved, SetMode, Masked, Vector, LinkOffset, Index;
    var h := Handler(x);
    var saved := c.(spsr := c.spsr[Index(h) := c.cpsr], cpsr := Masked(c.cpsr, x));
    var inMode := SetMode(saved, h);
    EnteredFile(c, x, inMode);
    SavedAt(c, h, c.cpsr);
    SavedSame(c.(spsr := c.spsr[Index(h) := c.cpsr]), Enter(c, x));
    var linked := inMode.(user := inMode.user[14 := Add32(inMode.user[15], LinkOffset(x))]);
    assert linked.(user := linked.user[15 := Vector(x)]) == Enter(c, x);
  }

  lemma EnteredFile(c: Core, x: Exception, inMode: Core)
    requires Valid(c)
    requires var saved := c.(spsr := c.spsr[Index(Handler(x)) := c.cpsr], cpsr := Masked(c.cpsr, x));
             inMode == SetMode(saved, Handler(x))
    ensures Valid(inMode) && ModeOf(inMode) == Handler(x)
    ensures var h, linked := Handler(x), inMode.(user := inMode.user[14 := Add32(inMode.user[15], LinkOffset(x))]);
            File(linked.(user := linked.user[15 := Vector(x)]))
            == File(c)[Place(h, 14) := Add32(File(c)[Place(h, 15)], LinkOffset(x))][Place(h, 15) := Vector(x)]
  {
    hide ChangeMode, File, Vector, LinkOffset, Index, Place;
    var h := Handler(x);
    var saved := c.(spsr := c.spsr[Index(h) := c.cpsr], cpsr := Masked(c.cpsr, x));
    SameFile(c, saved);
    SwitchKeepsFile(saved, h, saved.cpsr.(bits := BitsOf(h)));
    assert File(inMode) == File(c);
    CurrentView(inMode, 15);
    WriteIsExact(inMode, 14, Add32(inMode.user[15], LinkOffset(x)));
    var linked := inMode.(user := inMode.user[14 := Add32(inMode.user[15], LinkOffset(x))]);
    WriteIsExact(linked, 15, Vector(x));
  }

  // The file depends on the status registers only through the mode.
  lemma SameFile(c: Core, d: Core)
    requires Valid(c) && Valid(d) && ModeOf(c) == ModeOf(d)
    requires c.(spsr := d.spsr, cpsr := d.cpsr) == d
    ensures File(c) == File(d)
  {
    forall l | IsReg(l)
      ensures At(c, l) == At(d, l)
    {
    }
  }

  lemma StepRefines(c: Core, e: Event)
    requires Valid(c) && Legal(c.cpsr, Saved(c), e)
    ensures Abstract(Step(c, e)) == FlatStep(Abstract(c), e)
  {
    hide ChangeMode, File, LoadUser;
    match e
    case SetPsr(psr) => SetCpsrKeepsFile(c, psr);
    case Write(n, v) => WriteIsExact(c, n, v);
    case WriteUserBank(n, v) => LoadUserIsExact(c, n, v);
    case WriteSpsr(psr) =>
      SavedAt(c, ModeOf(c), psr);
      SameFile(c, c.(spsr := c.spsr[Index(ModeOf(c)) := psr]));
    case Raise(x) => EnterRefines(c, x);
    case Leave => SetCpsrKeepsFile(c, c.spsr[Index(ModeOf(c))]);
  }

  ghost predicate LegalRun(f: Flat, es: seq<Event>)
    requires FlatOk(f)
    decreases |es|
  {
    es == [] || (Legal(f.cpsr, f.spsr, es[0]) && LegalRun(FlatStep(f, es[0]), es[1..]))
  }

  ghost function FlatRun(f: Flat, es: seq<Event>): (g: Flat)
    requires FlatOk(f) && LegalRun(f, es)
    ensures FlatOk(g)
    decreases |es|
  {
    if es == [] then f else FlatRun(FlatStep(f, es[0]), es[1..])
  }

  ghost function Run(c: Core, es: seq<Event>): (r: Core)
    requires Valid(c) && LegalRun(Abstract(c), es)
    ensures Valid(r)
    decreases |es|
  {
    if es == [] then c
    else
      StepRefines(c, es[0]);
      Run(Step(c, es[0]), es[1..])
  }

  // The banking theorem: every run over defined modes is a run of the flat file.
  lemma {:induction false} RunRefines(c: Core, es: seq<Event>)
    requires Valid(c) && LegalRun(Abstract(c), es)
    ensures Abstract(Run(c, es)) == FlatRun(Abstract(c), es)
    decreases |es|
  {
    hide Step, FlatStep;
    if es != [] {
      StepRefines(c, es[0]);
      RunRefines(Step(c, es[0]), es[1..]);
    }
  }

  // Entering and leaving an exception restores the status register and every register of every
  // mode except the program counter and the handler's link register.
  lemma ExceptionRoundTrip(c: Core, x: Exception)
    requires Valid(c)
    ensures Legal(Enter(c, x).cpsr, Saved(Enter(c, x)), Leave)
    ensures Return(Enter(c, x)).cpsr == c.cpsr
    ensures forall l :: IsReg(l) && l != Shared(15) && l != Place(Handler(x), 14) ==>
                          File(Return(Enter(c, x)))[l] == File(c)[l]
    ensures File(Return(Enter(c, x)))[Place(Handler(x), 14)] == Add32(c.user[15], LinkOffset(x))
  {
    hide ChangeMode, File, Enter, Saved, Place, Index, Masked, Vector, LinkOffset;
    var d := Enter(c, x);
    EnterRefines(c, x);
    ModeBits(Handler(x));
    assert ModeOf(d) == Handler(x);
    assert Saved(d)[Handler(x)] == c.cpsr;
    assert Privileged(c.cpsr) == c.cpsr;
    SetCpsrKeepsFile(d, c.cpsr);
    FileDomain(c);
    CurrentView(c, 15);
    CounterIsShared(Handler(x));
    CounterIsShared(ModeOf(c));
  }

  lemma CounterIsShared(m: Mode)
    ensures Place(m, 15) == Shared(15) != Place(m, 14)
  {
  }

  lemma ModeBits(m: Mode)
    ensures ModeTable(BitsOf(m)) == Some(m)
  {
  }

  lemma FileDomain(c: Core)
    requires Valid(c)
    ensures forall l :: l in File(c) <==> IsReg(l)
  {
  }

  // ---------- Detours through undefined modes ----------

  // The registers that modes a and b bank differently hold the same values in all their places.
  predicate SameInAllPlaces(c: Core, a: Mode, b: Mode)
    requires Shape(c)
  {
    a == b ||
    (&& c.user[13..15] == SaveArea(c, a) == SaveArea(c, b)
     && (a == Fiq || b == Fiq ==> c.user[8..13] == c.cash[..5] == c.fiq[..5]))
  }

  // An undefined mode switches no bank on the way in or out.
  lemma DetourSwapsNothing(c: Core, via: Psr, to: Psr)
    requires Valid(c) && !Defined(Privileged(via)) && Defined(Privileged(to))
    ensures SetCpsr(SetCpsr(c, via), to) == c.(cpsr := Privileged(to))
  {
  }

  // Going from one defined mode to another by way of an undefined one keeps the register file
  // exactly when the registers the two bank differently are the same in all their places.
  lemma DetourExact(c: Core, via: Psr, to: Psr)
    requires Valid(c) && !Defined(Privileged(via)) && Defined(Privileged(to))
    ensures var r := SetCpsr(SetCpsr(c, via), to);
            && Valid(r) && ModeTable(Privileged(to).bits) == Some(ModeOf(r))
            && (File(r) == File(c) <==> SameInAllPlaces(c, ModeOf(c), ModeOf(r)))
  {
    hide ChangeMode, SetCpsr;
    DetourSwapsNothing(c, via, to);
    var r := c.(cpsr := Privileged(to));
    if SameInAllPlaces(c, ModeOf(c), ModeOf(r)) {
      forall l | IsReg(l)
        ensures At(r, l) == At(c, l)
      {
        SameMeansKept(c, r, l);
      }
    } else {
      var l := SomeRegLost(c, r);
      assert File(r)[l] != File(c)[l];
    }
  }

  lemma SameMeansKept(c: Core, r: Core, l: Reg)
    requires Valid(c) && Valid(r) && r == c.(cpsr := r.cpsr) && SameInAllPlaces(c, ModeOf(c), ModeOf(r)) && IsReg(l)
    ensures At(r, l) == At(c, l)
  {
    if ModeOf(c) != ModeOf(r) {
      if l.Banked? {
        assert c.user[13..15][l.n - 13] == c.user[l.n];
      } else if l.FiqHigh? || l.Middle? {
        assert l.n < 13 ==> c.user[8..13][l.n - 8] == c.user[l.n];
        assert l.n >= 13 ==> c.user[13..15][l.n - 13] == c.user[l.n];
      }
    }
  }

  lemma SomeRegLost(c: Core, r: Core) returns (l: Reg)
    requires Valid(c) && Valid(r) && r == c.(cpsr := r.cpsr) && !SameInAllPlaces(c, ModeOf(c), ModeOf(r))
    ensures IsReg(l) && At(r, l) != At(c, l)
  {
    var a, b := ModeOf(c), ModeOf(r);
    if c.user[13..15] != SaveArea(c, a) {
      var n := if c.user[13] != SaveArea(c, a)[0] then 13 else 14;
      l := Place(a, n);
    } else if c.user[13..15] != SaveArea(c, b) {
      var n := if c.user[13] != SaveArea(c, b)[0] then 13 else 14;
      l := Place(b, n);
    } else if c.user[8..13] != c.cash[..5] {
      var i := FirstDifference(c.user[8..13], c.cash[..5]);
      l := Middle(8 + i);
    } else {
      var i := FirstDifference(c.user[8..13], c.fiq[..5]);
      l := FiqHigh(8 + i);
    }
  }

  lemma FirstDifference(s: seq<Word>, t: seq<Word>) returns (i: nat)
    requires |s| == |t| && s != t
    ensures i < |s| && s[i] != t[i]
  {
    i :| i < |s| && s[i] != t[i];
  }

  // A privileged status write can name mode 0x14. On the way from supervisor to user mode it makes
  // the user's stack pointer the supervisor's.
  lemma UndefinedModeLoses(c: Core)
    requires Valid(c) && ModeOf(c) == Svc && c.user[13] != c.cash[5]
    ensures var lost := SetCpsr(SetCpsr(c, c.cpsr.(bits := 0x14)), c.cpsr.(bits := 0x10));
            && Valid(lost) && ModeOf(lost) == User
            && At(lost, Banked(User, 13)) == At(c, Banked(Svc, 13)) != At(c, Banked(User, 13))
  {
    DetourSwapsNothing(c, c.cpsr.(bits := 0x14), c.cpsr.(bits := 0x10));
  }

  // ---------- The core ----------

  // Every register is where mode m looks for it.
  ghost predicate Moved(before: Core, after: Core, m: Mode)
    requires Shape(after)
  {
    Valid(before) ==> forall psr: Psr :: ModeTable(psr.bits) == Some(m) ==> File(after.(cpsr := psr)) == File(before)
  }

  lemma ChangeMoves(c: Core, m: Mode)
    requires Shape(c)
    ensures Moved(c, ChangeMode(c, Some(m)), m)
  {
    hide ChangeMode, File;
    if Valid(c) {
      forall psr: Psr | ModeTable(psr.bits) == Some(m)
        ensures File(ChangeMode(c, Some(m)).(cpsr := psr)) == File(c)
      {
        SwitchKeepsFile(c, m, psr);
      }
    }
  }

  // In the mode with the given number, at the given vector with the link so far ahead, and masked.
  predicate Entered(was: Core, now: Core, bits: nat, vector: Word, ahead: nat, masksFast: bool)
    requires Shape(was) && Shape(now)
  {
    && now.cpsr == was.cpsr.(bits := bits, i := true, f := was.cpsr.f || masksFast)
    && now.user[15] == vector && now.user[14] == Add32(was.user[15], ahead)
  }

  // Changing banks leaves the program counter alone.
  lemma CounterKept(c: Core, to: Option<Mode>)
    requires Shape(c)
    ensures ChangeMode(c, to).user[15] == c.user[15]
  {
  }

  class ArmCore {
    var c: Core

    // ARM_Change_ModeSafe and the six ARM_Rest*RONS it dispatches to.
    method ChangeModeSafe(to: Option<Mode>)
      requires Shape(c)
      modifies this
      ensures c == ChangeMode(old(c), to)
      ensures to.Some? ==> Moved(old(c), c, to.value)
    {
      hide Moved;
      var from := ModeTable(c.cpsr.bits);
      match to {
        case None =>
        case Some(User) => RestoreUser(from);
        case Some(Fiq) => RestoreFiq(from);
        case Some(m) => RestoreTop(from, m);
      }
    }

    method RestoreUser(from: Option<Mode>)
      requires Shape(c)
      modifies this
      ensures c == RestUser(old(c), from)
      ensures from == ModeTable(old(c).cpsr.bits) ==> Moved(old(c), c, User)
    {
      ChangeMoves(c, User);
      if from == Some(Fiq) {
        c := c.(fiq := c.user[8..15]);
        c := c.(user := c.user[..8] + c.cash + c.user[15..]);
      } else if from.Some? && from.value != User {
        c := SavedTo(c, from.value, c.user[13..15]);
        c := c.(user := c.user[..13] + c.cash[5..] + c.user[15..]);
      }
    }

    method RestoreFiq(from: Option<Mode>)
      requires Shape(c)
      modifies this
      ensures c == RestFiq(old(c), from)
      ensures from == ModeTable(old(c).cpsr.bits) ==> Moved(old(c), c, Fiq)
    {
      ChangeMoves(c, Fiq);
      if from == Some(User) {
        c := c.(cash := c.user[8..15]);
        c := c.(user := c.user[..8] + c.fiq + c.user[15..]);
      } else if from.Some? && from.value != Fiq {
        c := c.(cash := c.user[8..13] + c.cash[5..]);
        c := SavedTo(c, from.value, c.user[13..15]);
        c := c.(user := c.user[..8] + c.fiq + c.user[15..]);
      }
    }

    method RestoreTop(from: Option<Mode>, to: Mode)
      requires Shape(c) && to != User && to != Fiq
      modifies this
      ensures c == RestTop(old(c), from, to)
      ensures from == ModeTable(old(c).cpsr.bits) ==> Moved(old(c), c, to)
    {
      ChangeMoves(c, to);
      if from == Some(Fiq) {
        c := c.(fiq := c.user[8..15]);
        c := c.(user := c.user[..8] + c.cash[..5] + c.user[13..]);
        c := WithTop(c, SaveArea(c, to));
      } else if from.Some? && from.value != to {
        var incoming := SaveArea(c, to);
        c := SavedTo(c, from.value, c.user[13..15]);
        c := WithTop(c, incoming);
      }
    }

    method CpsrSet(a: Psr)
      requires Shape(c)
      modifies this
      ensures c == SetCpsr(old(c), a)
      ensures Valid(old(c)) && Defined(Privileged(a)) ==> Valid(c) && File(c) == old(File(c))
    {
      hide ChangeMode, File;
      if Valid(c) && Defined(Privileged(a)) {
        SetCpsrKeepsFile(c, a);
      }
      var p := Privileged(a);
      ChangeModeSafe(ModeTable(p.bits));
      c := c.(cpsr := p);
    }

    method RaiseException(x: Exception)
      requires Valid(c)
      modifies this
      ensures c == Enter(old(c), x) && Valid(c)
      ensures match x
              case SoftwareInterrupt => Entered(old(c), c, 0x13, 0x08, 0, false)
              case UndefinedInstruction => Entered(old(c), c, 0x1B, 0x04, 0, false)
              case DataAbort => Entered(old(c), c, 0x17, 0x10, 4, false)
              case FastInterrupt => Entered(old(c), c, 0x11, 0x1C, 4, true)
              case SoftReset => Entered(old(c), c, 0x13, 0x00, 0, true)
      ensures Abstract(c) == FlatStep(old(Abstract(c)), Raise(x))
    {
      hide ChangeMode, FlatStep, Abstract, ModeTable;
      EnterRefines(c, x);
      ModeBits(Handler(x));
      var h := Handler(x);
      CounterKept(c.(spsr := c.spsr[Index(h) := c.cpsr], cpsr := Masked(c.cpsr, x)), Some(h));
      c := c.(spsr := c.spsr[Index(h) := c.cpsr]);
      c := c.(cpsr := c.cpsr.(i := true, f := c.cpsr.f || x == FastInterrupt || x == SoftReset));
      ChangeModeSafe(Some(h));
      c := c.(cpsr := c.cpsr.(bits := BitsOf(h)));
      c := c.(user := c.user[14 := Add32(c.user[15], LinkOffset(x))]);
      c := c.(user := c.user[15 := Vector(x)]);
    }

    method ReturnFromException()
      requires Valid(c)
      modifies this
      ensures c == Return(old(c))
      ensures old(Legal(c.cpsr, Saved(c), Leave)) ==> Valid(c) && Abstract(c) == FlatStep(old(Abstract(c)), Leave)
    {
      hide ChangeMode, FlatStep, Abstract;
      if Legal(c.cpsr, Saved(c), Leave) {
        StepRefines(c, Leave);
      }
      CpsrSet(c.spsr[Index(ModeOf(c))]);
    }
  }
}
