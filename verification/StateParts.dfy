/**
 What a save state stores of each component, and how the component takes it
 back: the fields of its chunk, which of them it accepts, and what it installs,
 with the derived state (clock rates, overlay limits) worked out again.
 */
module StateParts {
  import opened Words
  import opened StateBytes
  import opened StateStreams
  import C = Clock
  import opened StateCdrom

  const MB: nat := 0x10_0000
  const MAX_RAM: nat := 22 * MB
  const ROM_SIZE: nat := MB
  const NVRAM_SIZE: nat := 0x8000

  // ---------- The machine ----------

  datatype Runtime = Runtime(field: int, remainder: int)

  datatype Prng = Prng(state16: nat, state32: nat)

  datatype Arm = Arm(
    user: seq<nat>, cash: seq<nat>, svc: seq<nat>, abt: seq<nat>, fiq: seq<nat>, irq: seq<nat>, und: seq<nat>,
    spsr: seq<nat>, cpsr: nat, nfiq: nat, masException: nat, softReset: bool, overlay: bool,
    limits: Limits)

  // The overlay's state as the memory paths test it.
  datatype Limits = Limits(directRam: nat, overlayRead: nat, overlayClear: nat)

  datatype Madam = Madam(
    regs: seq<nat>, plut: seq<nat>, rmod: int, wmod: int, clipx: int, clipy: int, fsm: nat,
    pending: bool, busyUntil: nat)

  datatype Mem = Mem(
    cfg: nat, dramSize: nat, vramSize: nat, dram: seq<Byte>, nvram: seq<Byte>, rom1: seq<Byte>, rom2: seq<Byte>)

  datatype Pbus = Pbus(buf: seq<Byte>, idx: nat, finalized: nat)

  datatype Xbus = Xbus(
    selLow: nat, selHigh: nat, polf: nat, poldevf: nat, stdevf: seq<Byte>, stlenf: nat, cmdf: seq<Byte>, cmdptrf: nat)

  // CLIO, the DSP, the sport and the VDLP are kept as the fields they store.
  datatype Machine = Machine(
    runtime: Runtime, prng: Prng, arm: Arm, clio: seq<Field>, dsp: seq<Field>, madam: Madam, mem: Mem,
    sport: seq<Field>, vdlp: seq<Field>, clock: C.Clock, xbus: Xbus, cd: Cd, pbus: Pbus, legacyAbort: bool)

  predicate MemShape(mem: Mem)
  {
    |mem.dram| == MAX_RAM && |mem.nvram| == NVRAM_SIZE && |mem.rom1| == ROM_SIZE && |mem.rom2| == ROM_SIZE
  }

  // set_rom_overlay
  function LimitsFor(overlay: bool, mem: Mem): Limits
  {
    if overlay then Limits(0, 0x0300_0000, mem.dramSize) else Limits(mem.dramSize + mem.vramSize, 0, 0)
  }

  // opera_arm_sync_memory_map
  function Synced(m: Machine): Machine { m.(arm := m.arm.(limits := LimitsFor(m.arm.overlay, m.mem))) }

  // ---------- Memory configurations ----------

  predicate ValidCfg(cfg: nat) { cfg in [0x21, 0x22, 0x41, 0x42, 0x81, 0x82, 0xE2, 0xF1] }

  function DramSize(cfg: nat): nat { (cfg / 16) % 16 * MB }

  function VramSize(cfg: nat): nat { cfg % 16 * MB }

  // DRAM, VRAM and the three high-resolution copies of it.
  function RamBytes(cfg: nat): nat { DramSize(cfg) + VramSize(cfg) * 4 }

  lemma RamFits(cfg: nat)
    requires ValidCfg(cfg)
    ensures RamBytes(cfg) <= MAX_RAM && cfg < 256
    ensures DramSize(cfg) + VramSize(cfg) <= 16 * MB
  {
  }

  function SetUp(mem: Mem, cfg: nat): Mem { mem.(cfg := cfg, dramSize := DramSize(cfg), vramSize := VramSize(cfg)) }

  // ---------- Layouts ----------

  datatype Part = PRuntime | PPrng | PArm | PClio | PDsp | PMadam | PMem | PSport | PVdlp | PClock

  const RUNTIME: Name := [0x33, 0x44, 0x52, 0x54]
  const PRNG: Name := [0x50, 0x52, 0x4E, 0x47]
  const ARM: Name := [0x41, 0x52, 0x4D, 0]
  const CLIO: Name := [0x43, 0x4C, 0x49, 0x4F]
  const DSP2: Name := [0x44, 0x53, 0x50, 0x32]
  const DSPP: Name := [0x44, 0x53, 0x50, 0x50]
  const MDAM: Name := [0x4D, 0x44, 0x41, 0x4D]
  const MEM: Name := [0x4D, 0x45, 0x4D, 0]
  const MEM2: Name := [0x4D, 0x45, 0x4D, 0x32]
  const SPRT: Name := [0x53, 0x50, 0x52, 0x54]
  const VDLP: Name := [0x56, 0x44, 0x4C, 0x50]
  const CLCK: Name := [0x43, 0x4C, 0x43, 0x4B]

  const ARM_KINDS: seq<Kind> :=
    [KArr(4, 16), KArr(4, 7), KArr(4, 2), KArr(4, 2), KArr(4, 7), KArr(4, 2), KArr(4, 2), KArr(4, 6),
     KNum(4), KNum(1), KNum(1), KNum(1)]
  const CLIO_KINDS: seq<Kind> := [KArr(4, 65536), KArr(4, 3), KArr(4, 85), KArr(4, 3)]
  const DSP_LIVE: seq<Kind> :=
    [KArr(2, 2048), KArr(2, 1024), KNum(4), KNum(4), KArr(2, 11), KNum(4), KArr(2, 3), KNum(1), KNum(1), KNum(1),
     KArr(4, 16)]
  const DSP_TABLES: nat := 0x8000 * 2 + 8 * 16 * 2 + 32 * 32 * 4
  const MADAM_KINDS: seq<Kind> := [KArr(4, 2112), KArr(2, 32), KNum(4), KNum(4), KNum(4), KNum(4), KNum(4)]
  const VDLP_KINDS: seq<Kind> :=
    [KRaw(32), KRaw(32), KRaw(32), KNum(4), KNum(4), KNum(4), KNum(4), KNum(4), KNum(4), KNum(4), KNum(4), KNum(4)]
  const CLOCK_KINDS: seq<Kind> :=
    [KNum(4), KNum(8), KNum(4), KNum(4), KNum(4), KNum(4), KNum(4), KNum(4), KNum(4), KNum(4)]

  // Tail fields may be missing from a chunk, all of them together.
  datatype Layout = Layout(name: Name, kinds: seq<Kind>, tail: seq<Kind>)

  function LayoutOf(part: Part, s: seq<Byte>): Layout
    requires part != PMem
  {
    match part
    case PRuntime => Layout(RUNTIME, [KNum(4), KNum(4)], [])
    case PPrng => Layout(PRNG, [KNum(4), KNum(4)], [])
    case PArm => Layout(ARM, ARM_KINDS, [KNum(1)])
    case PClio => Layout(CLIO, CLIO_KINDS, [])
    case PDsp =>
      if |s| >= 4 && s[..4] == DSP2 then Layout(DSP2, [KNum(4)] + DSP_LIVE, [])
      else Layout(DSPP, [KNum(4), KRaw(DSP_TABLES)] + DSP_LIVE, [])
    case PMadam => Layout(MDAM, MADAM_KINDS, [KNum(4), KNum(8)])
    case PSport => Layout(SPRT, [KNum(4), KNum(4), KNum(4)], [])
    case PVdlp => Layout(VDLP, VDLP_KINDS, [])
    case PClock => Layout(CLCK, CLOCK_KINDS, [])
  }

  predicate Shaped(l: Layout, fs: seq<Field>) { AllFit(fs, l.kinds) || AllFit(fs, l.kinds + l.tail) }

  ghost predicate PartShaped(part: Part, fs: seq<Field>)
    requires part != PMem
  {
    exists s :: Shaped(LayoutOf(part, s), fs)
  }

  // ---------- Components as fields ----------

  function U32(x: int): (r: nat)
    ensures r < 0x1_0000_0000
  {
    x % 0x1_0000_0000
  }

  function ClockFields(c: C.Clock): seq<Field>
  {
    [Num(4, c.freq), Num(8, c.cycles), Num(4, U32(c.dspAcc)), Num(4, U32(c.vdlAcc)), Num(4, U32(c.timerAcc)),
     Num(4, c.slack), Num(4, c.slot), Num(4, Flag(c.inGap)), Num(4, c.region.fieldSize), Num(4, c.region.fieldRate)]
  }

  predicate ClockAccepted(fs: seq<Field>)
    requires AllFit(fs, CLOCK_KINDS)
  {
    fs[0].v >= C.MIN_CPU_FREQ && fs[6].v < 16 && fs[7].v <= 1 && fs[8].v != 0 && fs[9].v != 0
  }

  function ClockFrom(fs: seq<Field>): (c: C.Clock)
    requires AllFit(fs, CLOCK_KINDS) && ClockAccepted(fs)
    ensures C.Wf(c)
  {
    C.Recalculated(
      C.Clock(fs[0].v, fs[1].v, C.Int32(fs[2].v), C.Int32(fs[3].v), C.Int32(fs[4].v), fs[5].v, fs[6].v, fs[7].v != 0,
              C.Region(fs[9].v, fs[8].v), 0, 0, 0, 0, 0))
  }

  function ArmFields(a: Arm): seq<Field>
  {
    [Arr(4, a.user), Arr(4, a.cash), Arr(4, a.svc), Arr(4, a.abt), Arr(4, a.fiq), Arr(4, a.irq), Arr(4, a.und),
     Arr(4, a.spsr), Num(4, a.cpsr), Num(1, a.nfiq), Num(1, a.masException), Num(1, Flag(a.softReset)),
     Num(1, Flag(a.overlay))]
  }

  lemma ArmShape(fs: seq<Field>)
    requires AllFit(fs, ARM_KINDS) || AllFit(fs, ARM_KINDS + [KNum(1)])
    ensures |fs| == 12 || |fs| == 13
    ensures forall i :: 0 <= i < |fs| ==> if i < 8 then fs[i].Arr? else fs[i].Num?
  {
    hide Pow256;
  }

  function ArmFrom(fs: seq<Field>, mem: Mem): Arm
    requires AllFit(fs, ARM_KINDS) || AllFit(fs, ARM_KINDS + [KNum(1)])
  {
    hide AllFit, Fits;
    ArmShape(fs);
    var overlay := |fs| == 13 && fs[12].v != 0;
    Arm(fs[0].vs, fs[1].vs, fs[2].vs, fs[3].vs, fs[4].vs, fs[5].vs, fs[6].vs, fs[7].vs, fs[8].v, fs[9].v, fs[10].v,
        fs[11].v != 0, overlay, LimitsFor(overlay, mem))
  }

  function MadamFields(a: Madam): seq<Field>
  {
    [Arr(4, a.regs), Arr(2, a.plut), Num(4, U32(a.rmod)), Num(4, U32(a.wmod)), Num(4, U32(a.clipx)),
     Num(4, U32(a.clipy)), Num(4, a.fsm), Num(4, Flag(a.pending)), Num(8, a.busyUntil)]
  }

  const FSM_INPROCESS: nat := 2
  const FSM_SUSPENDED: nat := 3

  function MadamFrom(fs: seq<Field>): Madam
    requires AllFit(fs, MADAM_KINDS) || AllFit(fs, MADAM_KINDS + [KNum(4), KNum(8)])
  {
    var timed := |fs| == 9;
    var pending := if timed then fs[7].v != 0 else fs[6].v == FSM_INPROCESS || fs[6].v == FSM_SUSPENDED;
    Madam(fs[0].vs, fs[1].vs, C.Int32(fs[2].v), C.Int32(fs[3].v), C.Int32(fs[4].v), C.Int32(fs[5].v), fs[6].v, pending,
          if timed then fs[8].v else 0)
  }

  // A running flag is stored as a byte and read back as a truth value.
  function Truth(f: Field): Field { if f.Num? && f.v != 0 then f.(v := 1) else f }

  // The decode tables an old chunk carries are stepped over.
  function DspFrom(fs: seq<Field>): seq<Field>
    requires |fs| == 12 || |fs| == 13
  {
    var live := if |fs| == 13 then [fs[0]] + fs[2..] else fs;
    live[9 := Truth(live[9])][10 := Truth(live[10])]
  }

  // _migrate_vdlp_state: a zero force line marks a state without one.
  function VdlpFrom(fs: seq<Field>): seq<Field>
    requires AllFit(fs, VDLP_KINDS)
  {
    if fs[3].v != 0 then fs
    else fs[5 := fs[4]][3 := Num(4, if (fs[10].v / 0x800_0000) % 2 == 1 then 8 else 5)]
  }

  // ---------- Accepting and installing ----------

  predicate Accepts(part: Part, fs: seq<Field>)
    requires part != PMem && PartShaped(part, fs)
  {
    match part
    case PRuntime => fs[0].v <= 1
    case PMadam => |fs| == 9 ==> fs[7].v <= 1
    case PClock => ClockAccepted(fs)
    case _ => true
  }

  function Install(part: Part, m: Machine, fs: seq<Field>): (r: Machine)
    requires part != PMem && PartShaped(part, fs) && Accepts(part, fs)
    ensures r.mem == m.mem && r.xbus == m.xbus && r.cd == m.cd
  {
    match part
    case PRuntime => m.(runtime := Runtime(fs[0].v, C.Int32(fs[1].v)))
    case PPrng => m.(prng := Prng(fs[0].v, fs[1].v))
    case PArm => m.(arm := ArmFrom(fs, m.mem))
    case PClio => m.(clio := fs)
    case PDsp => m.(dsp := DspFrom(fs))
    case PMadam => m.(madam := MadamFrom(fs))
    case PSport => m.(sport := fs)
    case PVdlp => m.(vdlp := VdlpFrom(fs))
    case PClock => m.(clock := ClockFrom(fs))
  }

  function FieldsOf(part: Part, m: Machine): seq<Field>
    requires part != PMem
  {
    match part
    case PRuntime => [Num(4, U32(m.runtime.field)), Num(4, U32(m.runtime.remainder))]
    case PPrng => [Num(4, m.prng.state16), Num(4, m.prng.state32)]
    case PArm => ArmFields(m.arm)
    case PClio => m.clio
    case PDsp => m.dsp
    case PMadam => MadamFields(m.madam)
    case PSport => m.sport
    case PVdlp => m.vdlp
    case PClock => ClockFields(m.clock)
  }

  // ---------- What is installed is what was stored ----------

  // The layout a part is saved in.
  function Current(part: Part): Layout
    requires part != PMem
  {
    LayoutOf(part, DSP2)
  }

  predicate InInt32(x: int) { -0x8000_0000 <= x < 0x8000_0000 }

  // The rates are the ones the frequency, the slack and the region give.
  predicate Consistent(c: C.Clock) { C.Wf(c) && c == C.Recalculated(c) }

  // Every operation of the clock keeps its rates so.
  lemma ConsistentKept(c: C.Clock, op: C.Op)
    requires Consistent(c)
    ensures Consistent(C.Apply(c, op))
  {
    hide C.CyclesPerSnd, C.CyclesPerLine, C.CyclesPerTicks, C.Int32;
  }

  predicate ClockSaveable(c: C.Clock)
  {
    Consistent(c) && c.freq >= C.MIN_CPU_FREQ && InInt32(c.dspAcc) && InInt32(c.vdlAcc) && InInt32(c.timerAcc)
  }

  predicate MadamSaveable(a: Madam) { InInt32(a.rmod) && InInt32(a.wmod) && InInt32(a.clipx) && InInt32(a.clipy) }

  // Each field in the range of its type, and the flags and sizes as a running machine has them.
  ghost predicate PartSaveable(part: Part, m: Machine)
    requires part != PMem
  {
    && AllFit(FieldsOf(part, m), Current(part).kinds + Current(part).tail)
    && match part
       case PRuntime => 0 <= m.runtime.field <= 1 && InInt32(m.runtime.remainder)
       case PDsp => m.dsp[9].v <= 1 && m.dsp[10].v <= 1
       case PMadam => MadamSaveable(m.madam)
       case PVdlp => m.vdlp[3].v != 0
       case PClock => ClockSaveable(m.clock)
       case _ => true
  }

  // m with one component taken from another machine.
  function Copied(part: Part, m: Machine, from: Machine): Machine
  {
    match part
    case PRuntime => m.(runtime := from.runtime)
    case PPrng => m.(prng := from.prng)
    case PArm => m.(arm := from.arm.(limits := LimitsFor(from.arm.overlay, m.mem)))
    case PClio => m.(clio := from.clio)
    case PDsp => m.(dsp := from.dsp)
    case PMadam => m.(madam := from.madam)
    case PMem => m.(mem := MemCopied(m.mem, from.mem))
    case PSport => m.(sport := from.sport)
    case PVdlp => m.(vdlp := from.vdlp)
    case PClock => m.(clock := from.clock)
  }

  // RAM past what the configuration uses, and the ROMs, are not stored.
  function MemCopied(mem: Mem, from: Mem): Mem
  {
    var n := RamBytes(from.cfg);
    if n <= |mem.dram| && n <= |from.dram|
    then SetUp(mem, from.cfg).(dram := from.dram[..n] + mem.dram[n..], nvram := from.nvram)
    else mem
  }

  lemma Int32OfU32(x: int)
    requires InInt32(x)
    ensures C.Int32(U32(x)) == x
  {
  }

  lemma PartRestored(part: Part, m: Machine, from: Machine)
    requires part != PMem && PartSaveable(part, from)
    ensures PartShaped(part, FieldsOf(part, from)) && Accepts(part, FieldsOf(part, from))
    ensures Install(part, m, FieldsOf(part, from)) == Copied(part, m, from)
  {
    var fs := FieldsOf(part, from);
    assert Shaped(LayoutOf(part, DSP2), fs);
    match part
    case PRuntime => Int32OfU32(from.runtime.remainder);
    case PMadam =>
      Int32OfU32(from.madam.rmod);
      Int32OfU32(from.madam.wmod);
      Int32OfU32(from.madam.clipx);
      Int32OfU32(from.madam.clipy);
    case PClock => ClockRestored(from.clock);
    case PDsp => DspRestored(fs);
    case _ =>
  }

  lemma ClockRestored(c: C.Clock)
    requires ClockSaveable(c) && AllFit(ClockFields(c), CLOCK_KINDS)
    ensures ClockAccepted(ClockFields(c)) && ClockFrom(ClockFields(c)) == c
  {
    hide C.CyclesPerSnd, C.CyclesPerLine, C.CyclesPerTicks, C.Int32, U32;
    Int32OfU32(c.dspAcc);
    Int32OfU32(c.vdlAcc);
    Int32OfU32(c.timerAcc);
  }

  lemma DspRestored(fs: seq<Field>)
    requires AllFit(fs, [KNum(4)] + DSP_LIVE) && fs[9].v <= 1 && fs[10].v <= 1
    ensures DspFrom(fs) == fs
  {
    hide Pow256;
    assert Truth(fs[9]) == fs[9] && Truth(fs[10]) == fs[10];
  }
}
