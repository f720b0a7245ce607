/**
 A machine just after reset can be saved, so the results about saved states are
 about something.
 */
module StateExample {
  import opened Words
  import opened StateBytes
  import opened StateCdrom
  import opened StateParts
  import opened StateFile
  import C = Clock

  lemma {:induction false} PowPositive(w: nat)
    ensures Pow256(w) > 0
  {
    if w > 0 {
      PowPositive(w - 1);
    }
  }

  // A field of a kind, all zero.
  function Blank(k: Kind): (f: Field)
    ensures Fits(f, k)
  {
    match k
    case KNum(w) => PowPositive(w); Num(w, 0)
    case KRaw(n) => Raw(Zeros(n))
    case KArr(w, n) => PowPositive(w); Arr(w, Zeros(n))
  }

  function Blanks(kinds: seq<Kind>): (fs: seq<Field>)
    ensures AllFit(fs, kinds)
    ensures forall i :: 0 <= i < |kinds| ==> fs[i] == Blank(kinds[i])
  {
    hide Fits, Blank;
    seq(|kinds|, i requires 0 <= i < |kinds| => Blank(kinds[i]))
  }

  function FreshMem(): Mem
  {
    SetUp(Mem(0, 0, 0, Zeros(MAX_RAM), Zeros(NVRAM_SIZE), Zeros(ROM_SIZE), Zeros(ROM_SIZE)), 0x21)
  }

  function FreshArm(): Arm
  {
    Arm(Zeros(16), Zeros(7), Zeros(2), Zeros(2), Zeros(7), Zeros(2), Zeros(2), Zeros(6),
        0x13, 0, 0, false, true, LimitsFor(true, FreshMem()))
  }

  function FreshMadam(): Madam { Madam(Zeros(2112), Zeros(32), 0, 0, 0, 0, 0, false, 0) }

  function FreshClock(): C.Clock { C.Reset(12500000, C.NTSC) }

  function FreshCd(): Cd
  {
    Cd(DeviceFrom(Blanks(DEVICE_KINDS)), DataFrom(Blanks(DATA_KINDS), 0), 2, false)
  }

  function FreshXbus(): Xbus { Xbus(0, 0, 0, 0, Zeros(255), 0, Zeros(7), 0) }

  function Fresh(): Machine
  {
    Machine(Runtime(0, 0), Prng(0, 0), FreshArm(), Blanks(CLIO_KINDS), Blanks([KNum(4)] + DSP_LIVE), FreshMadam(),
            FreshMem(), Blanks([KNum(4), KNum(4), KNum(4)]), Blanks(VDLP_KINDS)[3 := Num(4, 5)], FreshClock(),
            FreshXbus(), FreshCd(), Pbus(Zeros(256), 0, 0), false)
  }

  lemma ArmFits()
    ensures AllFit(ArmFields(FreshArm()), ARM_KINDS + [KNum(1)])
  {
    hide LimitsFor, FreshMem;
  }

  lemma MadamFits()
    ensures AllFit(MadamFields(FreshMadam()), MADAM_KINDS + [KNum(4), KNum(8)]) && MadamSaveable(FreshMadam())
  {
  }

  lemma ClockFits()
    ensures AllFit(ClockFields(FreshClock()), CLOCK_KINDS) && ClockSaveable(FreshClock())
  {
    hide C.CyclesPerSnd, C.CyclesPerLine, C.CyclesPerTicks;
  }

  lemma DspFlags()
    ensures var fs := Blanks([KNum(4)] + DSP_LIVE); |fs| == 12 && fs[9] == Num(1, 0) && fs[10] == Num(1, 0)
  {
    hide Fits;
  }

  lemma VdlpFits()
    ensures |Blanks(VDLP_KINDS)| == 12 && AllFit(Blanks(VDLP_KINDS)[3 := Num(4, 5)], VDLP_KINDS)
  {
    hide Fits, Blank;
    assert Fits(Num(4, 5), KNum(4)) by { FiveFits(); }
  }

  lemma FiveFits()
    ensures Fits(Num(4, 5), KNum(4))
  {
  }

  lemma CdStorable()
    ensures Storable(FreshCd(), 0)
  {
    hide Fits;
    var device, data := DeviceFrom(Blanks(DEVICE_KINDS)), DataFrom(Blanks(DATA_KINDS), 0);
    assert DeviceFields(device) == Blanks(DEVICE_KINDS);
    assert DataFields(data, 0) == Blanks(DATA_KINDS);
  }

  lemma PartsSaveable(part: Part)
    requires part != PMem
    ensures PartSaveable(part, Fresh())
  {
    hide AllFit, Fits, Blanks, FreshArm, FreshMadam, FreshClock, FreshCd, FreshXbus, FreshMem, ClockSaveable, ArmFields,
      MadamFields, ClockFields;
    NoTail();
    match part
    case PRuntime => WordsFit();
    case PPrng => WordsFit();
    case PArm => ArmFits();
    case PDsp => DspFlags();
    case PMadam => MadamFits();
    case PVdlp => VdlpFits();
    case PClock => ClockFits();
    case PClio => assert AllFit(Fresh().clio, CLIO_KINDS);
    case PSport => assert AllFit(Fresh().sport, [KNum(4), KNum(4), KNum(4)]);
  }

  lemma NoTail()
    ensures forall kinds: seq<Kind> :: kinds + [] == kinds
  {
  }

  lemma WordsFit()
    ensures AllFit([Num(4, 0), Num(4, 0)], [KNum(4), KNum(4)])
  {
  }

  lemma MemReady()
    ensures var mem := FreshMem();
            && MemShape(mem) && ValidCfg(mem.cfg) && mem == SetUp(mem, mem.cfg)
            && FreshArm().limits == LimitsFor(FreshArm().overlay, mem)
  {
    hide Zeros;
  }

  lemma XbusReady()
    ensures AllFit(XbusFields(FreshXbus(), 0), XBUS_KINDS)
  {
    hide Zeros;
  }

  lemma ClockAtZero()
    ensures FreshClock().cycles == 0
  {
    hide C.CyclesPerSnd, C.CyclesPerLine, C.CyclesPerTicks;
  }

  // The machine after reset can be saved.
  lemma FreshIsSaveable()
    ensures Saveable(Fresh())
  {
    hide AllFit, Blanks, PartSaveable, FreshArm, FreshMadam, FreshClock, FreshCd, FreshXbus, FreshMem, Storable,
      MemShape, ValidCfg, SetUp, LimitsFor, XbusFields;
    MemReady();
    XbusReady();
    ClockAtZero();
    CdStorable();
    forall part: Part | part != PMem
      ensures PartSaveable(part, Fresh())
    {
      PartsSaveable(part);
    }
  }
}
