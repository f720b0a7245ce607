/**
 The file format seen from outside: chunks put together here field by field,
 those of older builds too, and what a load makes of them; and the memory map
 that the overlay limits stand for.
 */
module StateFormats {
  import opened Words
  import opened StateBytes
  import opened StateStreams
  import opened StateCdrom
  import opened StateParts
  import opened StateFile
  import opened StateTheorems
  import C = Clock

  // ---------- The memory map ----------

  // Where a read of the CPU goes.
  datatype Source = Ram(at: nat) | Rom(at: nat) | Beyond(at: nat)

  // mreadw and mfetchw: two comparisons against the limits, before anything else is looked at.
  function ReadPath(l: Limits, addr: Word): Source
  {
    if addr < l.directRam then Ram(addr)
    else if addr < l.overlayRead then Rom(addr % ROM_SIZE)
    else Beyond(addr)
  }

  // mwritew: whether a write ends the overlay.
  predicate WriteEnds(l: Limits, addr: Word) { addr < l.overlayClear }

  // The 3DO's memory map. After a reset the ROM lies over all of RAM's range, up to where the ROM itself is
  // mapped, until DRAM is written for the first time; then DRAM comes first and VRAM right after it.
  lemma LimitsAreMap(m: Machine, addr: Word)
    requires MemCoherent(m)
    ensures m.arm.overlay ==>
              ReadPath(m.arm.limits, addr) == if addr < 48 * MB then Rom(addr % MB) else Beyond(addr)
    ensures !m.arm.overlay ==>
              var ramSize := (m.mem.cfg / 16 + m.mem.cfg % 16) * MB;
              ReadPath(m.arm.limits, addr) == if addr < ramSize then Ram(addr) else Beyond(addr)
    ensures WriteEnds(m.arm.limits, addr) <==> m.arm.overlay && addr < (m.mem.cfg / 16) * MB
  {
  }

  // Whatever bytes load, the CPU then sees that map.
  lemma LoadedMap(env: Env, m: Machine, s: seq<Byte>, version: nat, addr: Word)
    requires MemShape(m.mem) && LoadChunked(env, PARTS, false, m, s, version).rv != 0
    ensures var r := LoadChunked(env, PARTS, false, m, s, version).m;
            && MemShape(r.mem)
            && ReadPath(r.arm.limits, addr)
            == (if r.arm.overlay then (if addr < 48 * MB then Rom(addr % MB) else Beyond(addr))
                else if addr < (r.mem.cfg / 16 + r.mem.cfg % 16) * MB then Ram(addr)
                else Beyond(addr))
            && (WriteEnds(r.arm.limits, addr) <==> r.arm.overlay && addr < (r.mem.cfg / 16) * MB)
  {
    hide LoadParts, LoadXbus, HeaderSize, ReadPath, WriteEnds, MemCoherent;
    LoadedIsCoherent(env, m, s, version);
    LimitsAreMap(LoadChunked(env, PARTS, false, m, s, version).m, addr);
  }

  // ---------- The old memory chunk ----------

  const OLD_MEM: seq<Byte> := [0x4D, 0x45, 0x4D, 0]   // "MEM"

  // All 22 MB of the allocation, both ROMs and NVRAM, behind the configuration byte.
  lemma OldMemLoads(m: Machine, cfg: Byte, ram: seq<Byte>, bios: seq<Byte>, font: seq<Byte>, nvram: seq<Byte>,
                    rest: seq<Byte>)
    requires MemShape(m.mem) && cfg in [0x21, 0x22, 0x41, 0x42, 0x81, 0x82, 0xE2, 0xF1]
    requires |ram| == 22 * MB && |bios| == MB && |font| == MB && |nvram| == 32 * 1024
    ensures var s := OLD_MEM + Le(4, 1 + 24 * MB + 32 * 1024) + ([cfg] + ram + bios + font + nvram);
            var mem := Mem(cfg, (cfg / 16) * MB, (cfg % 16) * MB, ram, nvram, bios, font);
            LoadPart(PMem, false, m, s + rest) == Step(|s|, m.(mem := mem))
  {
    hide Le, FromLe, Unchunk;
    var p := [cfg] + ram + bios + font + nvram;
    var a, b, c := 1 + 22 * MB, 1 + 23 * MB, 1 + 24 * MB;
    FourSlices(cfg, ram, bios, font, nvram);
    assert |p| == 1 + 24 * MB + 32 * 1024;
    UnchunkChunk(MEM, p, rest);
    assert Chunk(MEM, p) == OLD_MEM + Le(4, |p|) + p;
    assert (Chunk(MEM, p) + rest)[..4] == MEM != MEM2;
  }

  lemma FourSlices(x: Byte, a: seq<Byte>, b: seq<Byte>, c: seq<Byte>, d: seq<Byte>)
    ensures var p := [x] + a + b + c + d;
            && p[0] == x && p[1..1 + |a|] == a && p[1 + |a|..1 + |a| + |b|] == b
            && p[1 + |a| + |b|..1 + |a| + |b| + |c|] == c && p[1 + |a| + |b| + |c|..] == d
  {
  }

  // ---------- Old component chunks ----------

  // Fields without a layout's tail are found as they were written.
  lemma HeadLoaded(part: Part, m: Machine, fs: seq<Field>, rest: seq<Byte>)
    requires part != PMem && AllFit(fs, Current(part).kinds)
    ensures PartShaped(part, fs)
    ensures var chunk := Chunk(Current(part).name, Encode(fs));
            var after := if Accepts(part, fs) then Step(|chunk|, Install(part, m, fs)) else Step(0, m);
            LoadFixed(part, false, m, chunk + rest) == after
  {
    hide Parse, Unchunk, Install, Accepts, LayoutOf, Current, Encode, AllFit, TotalSize;
    var l := Current(part);
    LayoutByName(part, Encode(fs), rest);
    ParseEncode(l.kinds, fs, []);
    assert Encode(fs) + [] == Encode(fs);
    HeadBound(part);
    UnchunkChunk(l.name, Encode(fs), rest);
    assert Shaped(LayoutOf(part, Chunk(l.name, Encode(fs)) + rest), fs);
  }

  lemma WholeLoaded(part: Part, m: Machine, fs: seq<Field>, rest: seq<Byte>)
    requires part != PMem && AllFit(fs, Current(part).kinds + Current(part).tail)
    ensures PartShaped(part, fs)
    ensures var chunk := Chunk(Current(part).name, Encode(fs));
            var after := if Accepts(part, fs) then Step(|chunk|, Install(part, m, fs)) else Step(0, m);
            LoadFixed(part, false, m, chunk + rest) == after
  {
    hide Parse, Unchunk, Install, Accepts, LayoutOf, Current, Encode, AllFit, TotalSize;
    var l := Current(part);
    LayoutByName(part, Encode(fs), rest);
    LayoutBound(part);
    ParseTailedEncode(l.kinds, l.tail, fs);
    UnchunkChunk(l.name, Encode(fs), rest);
    assert Shaped(LayoutOf(part, Chunk(l.name, Encode(fs)) + rest), fs);
  }

  lemma HeadBound(part: Part)
    requires part != PMem
    ensures TotalSize(Current(part).kinds) <= MAX32
  {
    TotalSizeBound(Current(part).kinds, 0x10_0000);
  }

  // The ARM chunk: the working registers, the banks, the saved and the current status, and three flags. The overlay
  // byte came later; without it the overlay is off, so RAM is read directly.
  lemma ArmLoads(m: Machine, user: seq<nat>, cash: seq<nat>, svc: seq<nat>, abt: seq<nat>, fiq: seq<nat>,
                 irq: seq<nat>, und: seq<nat>, spsr: seq<nat>, cpsr: nat, flags: seq<nat>, rest: seq<Byte>)
    requires MemShape(m.mem)
    requires Fits(Arr(4, user), KArr(4, 16)) && Fits(Arr(4, cash), KArr(4, 7)) && Fits(Arr(4, svc), KArr(4, 2))
    requires Fits(Arr(4, abt), KArr(4, 2)) && Fits(Arr(4, fiq), KArr(4, 7)) && Fits(Arr(4, irq), KArr(4, 2))
    requires Fits(Arr(4, und), KArr(4, 2)) && Fits(Arr(4, spsr), KArr(4, 6)) && cpsr < WORD_SIZE
    requires 3 <= |flags| <= 4 && forall i :: 0 <= i < |flags| ==> flags[i] < 256
    ensures var banks := [Arr(4, user), Arr(4, cash), Arr(4, svc), Arr(4, abt), Arr(4, fiq), Arr(4, irq),
                          Arr(4, und), Arr(4, spsr), Num(4, cpsr)];
            var fields := banks + seq(|flags|, i requires 0 <= i < |flags| => Num(1, flags[i]));
            var s := Chunk([0x41, 0x52, 0x4D, 0], Encode(fields));
            var overlay := |flags| == 4 && flags[3] != 0;
            var limits := if overlay then Limits(0, 48 * MB, m.mem.dramSize)
                          else Limits(m.mem.dramSize + m.mem.vramSize, 0, 0);
            var arm := Arm(user, cash, svc, abt, fiq, irq, und, spsr, cpsr, flags[0], flags[1], flags[2] != 0,
                           overlay, limits);
            LoadPart(PArm, false, m, s + rest) == Step(|s|, m.(arm := arm))
  {
    hide Encode, LoadFixed, Chunk, Fits;
    var banks := [Arr(4, user), Arr(4, cash), Arr(4, svc), Arr(4, abt), Arr(4, fiq), Arr(4, irq),
                  Arr(4, und), Arr(4, spsr), Num(4, cpsr)];
    var fields := banks + seq(|flags|, i requires 0 <= i < |flags| => Num(1, flags[i]));
    FourBytes();
    assert Pow256(1) == 256;
    assert Fits(Num(4, cpsr), KNum(4)) by { NumFits(4, cpsr); }
    forall i | 0 <= i < |flags|
      ensures Fits(Num(1, flags[i]), KNum(1))
    {
      NumFits(1, flags[i]);
    }
    if |flags| == 3 {
      assert AllFit(fields, ARM_KINDS);
      HeadLoaded(PArm, m, fields, rest);
    } else {
      assert AllFit(fields, ARM_KINDS + [KNum(1)]);
      WholeLoaded(PArm, m, fields, rest);
    }
  }

  lemma NumFits(w: nat, v: nat)
    requires v < Pow256(w)
    ensures Fits(Num(w, v), KNum(w))
  {
  }

  // The clock chunk. The rates are not in it. It is refused below one megahertz, for a slot past the sixteenth, for
  // a flag that is none and for a field of no lines or no rate.
  lemma ClockLoads(m: Machine, freq: nat, cycles: nat, accs: seq<nat>, slack: nat, slot: nat, inGap: nat,
                   fieldSize: nat, fieldRate: nat, rest: seq<Byte>)
    requires MemShape(m.mem)
    requires freq < WORD_SIZE && cycles < WORD_SIZE * WORD_SIZE && slack < WORD_SIZE && slot < WORD_SIZE
    requires |accs| == 3 && accs[0] < WORD_SIZE / 2 && accs[1] < WORD_SIZE / 2 && accs[2] < WORD_SIZE / 2
    requires inGap < WORD_SIZE && fieldSize < WORD_SIZE && fieldRate < WORD_SIZE
    ensures var fields := [Num(4, freq), Num(8, cycles), Num(4, accs[0]), Num(4, accs[1]), Num(4, accs[2]),
                           Num(4, slack), Num(4, slot), Num(4, inGap), Num(4, fieldSize), Num(4, fieldRate)];
            var s := Chunk([0x43, 0x4C, 0x43, 0x4B], Encode(fields));
            var r := LoadPart(PClock, false, m, s + rest);
            var c := r.m.clock;
            if freq >= 1000000 && slot < 16 && inGap <= 1 && fieldSize > 0 && fieldRate > 0 then
              && r.rv == |s| && r.m == m.(clock := c)
              && c.freq == freq && c.cycles == cycles && c.slack == slack && c.slot == slot && c.inGap == (inGap == 1)
              && c.dspAcc == accs[0] && c.vdlAcc == accs[1] && c.timerAcc == accs[2]
              && c.region == C.Region(fieldRate, fieldSize)
            else
              r == Step(0, m)
  {
    hide Encode, LoadFixed, Chunk, C.CyclesPerSnd, C.CyclesPerLine, C.CyclesPerTicks, Pow256;
    var fields := [Num(4, freq), Num(8, cycles), Num(4, accs[0]), Num(4, accs[1]), Num(4, accs[2]),
                   Num(4, slack), Num(4, slot), Num(4, inGap), Num(4, fieldSize), Num(4, fieldRate)];
    FourBytes();
    EightBytes();
    HeadLoaded(PClock, m, fields, rest);
  }

  // The runtime chunk: which field, 0 or 1, and the cycles left over.
  lemma RuntimeLoads(m: Machine, field: nat, remainder: nat, rest: seq<Byte>)
    requires MemShape(m.mem) && field < WORD_SIZE && remainder < WORD_SIZE / 2
    ensures var s := Chunk([0x33, 0x44, 0x52, 0x54], Encode([Num(4, field), Num(4, remainder)]));
            var after := if field <= 1 then Step(|s|, m.(runtime := Runtime(field, remainder))) else Step(0, m);
            LoadPart(PRuntime, false, m, s + rest) == after
  {
    hide Encode, LoadFixed, Chunk, Pow256;
    FourBytes();
    HeadLoaded(PRuntime, m, [Num(4, field), Num(4, remainder)], rest);
  }

  lemma EightBytes()
    ensures Pow256(8) == WORD_SIZE * WORD_SIZE
  {
    FourBytes();
    assert Pow256(6) == 0x1_0000_0000_0000;
  }

  // The fields of a drive chunk: its name and layout number, the drive, its transfer and its speed.
  function DriveFields(device: seq<Field>, data: seq<Field>, speed: nat): seq<Field>
  {
    [Raw([0x43, 0x44, 0x52, 0x4D]), Num(4, 2)] + device + data + [Num(4, speed)]
  }

  lemma DriveFieldsFit(device: seq<Field>, data: seq<Field>, speed: nat)
    requires AllFit(device, DEVICE_KINDS) && AllFit(data, DATA_KINDS) && speed < WORD_SIZE
    ensures var fs := DriveFields(device, data, speed);
            && AllFit(fs, CD_KINDS) && |fs| == 40 && fs[0] == Raw(CDRM) && fs[1] == Num(4, V2) && fs[39] == Num(4, speed)
            && fs[2..20] == device && fs[20..39] == data
  {
    FourBytes();
    var head, headKinds := [Raw(CDRM), Num(4, V2)], [KRaw(4), KNum(4)];
    AllFitAppend(head, headKinds, device, DEVICE_KINDS);
    AllFitAppend(head + device, headKinds + DEVICE_KINDS, data, DATA_KINDS);
    AllFitAppend(head + device + data, headKinds + DEVICE_KINDS + DATA_KINDS, [Num(4, speed)], [KNum(4)]);
  }

  // A drive chunk is taken exactly when its speed is a speed of the drive, its status fits, its data lies inside a
  // sector buffer of 2449 bytes and at most seven command bytes are there; validating and loading decide alike.
  lemma DriveTaken(env: Env, dry: bool, cd: Cd, now: nat, device: seq<Field>, data: seq<Field>, speed: nat,
                   rest: seq<Byte>)
    requires AllFit(device, DEVICE_KINDS) && AllFit(data, DATA_KINDS) && speed < WORD_SIZE
    ensures device[2].Num? && device[4].Num? && device[5].Num? && device[6].Num? && device[10].Num?
    ensures var s := Chunk([0x43, 0x44, 0x52, 0x4D], Encode(DriveFields(device, data, speed)));
            LoadCdV2(env, dry, cd, now, s + rest).rv
            == if && speed in {0, 1, 2, 4, 8, 16, 24, 32} && device[2].v <= 256 && device[4].v <= 2449
                  && device[5].v + device[6].v <= 2449 && device[10].v <= 7 then |s| else 0
  {
    hide Pow256, Encode, Unchunk, TotalSize, Parse, Woken, DataFrom;
    var fs := DriveFields(device, data, speed);
    var payload := Encode(fs);
    DriveFieldsFit(device, data, speed);
    hide DriveFields, AllFit, CD_KINDS;
    DeviceSizes(device);
    ParseEncode(CD_KINDS, fs, []);
    assert payload + [] == payload;
    CdSizeBound();
    UnchunkChunk(CDRM, payload, rest);
    assert HeadOk(fs) <==> SpeedOk(speed);
    assert ParseCd(payload) == if SpeedOk(speed) then Some(fs) else None;
  }

  lemma DeviceSizes(device: seq<Field>)
    requires AllFit(device, DEVICE_KINDS)
    ensures |device| == 18
    ensures device[2].Num? && device[4].Num? && device[5].Num? && device[6].Num? && device[10].Num?
    ensures var d := DeviceFrom(device);
            && d.statusLen == device[2].v && d.readSize == device[4].v && d.dataLen == device[5].v
            && d.dataIdx == device[6].v && d.cmdIdx == device[10].v
  {
    hide Pow256;
  }

  // The drive's two times are stored against the cycle count: how long until the next sector is due, zero for due
  // already, and how long since the audio clock started. Whatever numbers a file holds, no time runs off the range of
  // a cycle count.
  lemma DeadlinesLoaded(fs: seq<Field>, now: nat)
    requires AllFit(fs, DATA_KINDS) && now <= 0xFFFF_FFFF_FFFF_FFFF
    ensures var d := DataFrom(fs, now);
            && d.nextReady == (if fs[0].v == 0 then 0 else Min(now + fs[0].v, 0xFFFF_FFFF_FFFF_FFFF))
            && d.baseCycle == Max(0, now - fs[13].v)
  {
    hide AllFit, Fits, Pow256;
  }

  // The MADAM chunk as first written, without the two timing fields: a draw is pending when the CEL engine was in
  // process (2) or suspended (3), and nothing holds it busy.
  lemma OldMadamLoads(m: Machine, regs: seq<nat>, plut: seq<nat>, rmod: nat, wmod: nat, clipx: nat, clipy: nat,
                      fsm: nat, rest: seq<Byte>)
    requires MemShape(m.mem) && Fits(Arr(4, regs), KArr(4, 2112)) && Fits(Arr(2, plut), KArr(2, 32))
    requires rmod < WORD_SIZE / 2 && wmod < WORD_SIZE / 2 && clipx < WORD_SIZE / 2 && clipy < WORD_SIZE / 2
    requires fsm < WORD_SIZE
    ensures var fields := [Arr(4, regs), Arr(2, plut), Num(4, rmod), Num(4, wmod), Num(4, clipx), Num(4, clipy),
                           Num(4, fsm)];
            var s := Chunk([0x4D, 0x44, 0x41, 0x4D], Encode(fields));
            var madam := Madam(regs, plut, rmod, wmod, clipx, clipy, fsm, fsm == 2 || fsm == 3, 0);
            LoadPart(PMadam, false, m, s + rest) == Step(|s|, m.(madam := madam))
  {
    hide Encode, LoadFixed, Chunk;
    var fields := [Arr(4, regs), Arr(2, plut), Num(4, rmod), Num(4, wmod), Num(4, clipx), Num(4, clipy), Num(4, fsm)];
    FourBytes();
    HeadLoaded(PMadam, m, fields, rest);
  }

  lemma FourBytes()
    ensures Pow256(4) == WORD_SIZE && Pow256(2) == 0x1_0000
  {
  }

  // With them, the pending flag and the time come from the chunk, which is refused if the flag is none.
  lemma MadamLoads(m: Machine, regs: seq<nat>, plut: seq<nat>, modes: seq<nat>, fsm: nat, pending: nat, until: nat,
                   rest: seq<Byte>)
    requires MemShape(m.mem) && Fits(Arr(4, regs), KArr(4, 2112)) && Fits(Arr(2, plut), KArr(2, 32))
    requires |modes| == 4 && forall i :: 0 <= i < 4 ==> modes[i] < WORD_SIZE / 2
    requires fsm < WORD_SIZE && pending < WORD_SIZE && until < WORD_SIZE * WORD_SIZE
    ensures var fields := [Arr(4, regs), Arr(2, plut), Num(4, modes[0]), Num(4, modes[1]), Num(4, modes[2]),
                           Num(4, modes[3]), Num(4, fsm), Num(4, pending), Num(8, until)];
            var s := Chunk([0x4D, 0x44, 0x41, 0x4D], Encode(fields));
            var madam := Madam(regs, plut, modes[0], modes[1], modes[2], modes[3], fsm, pending == 1, until);
            var after := if pending <= 1 then Step(|s|, m.(madam := madam)) else Step(0, m);
            LoadPart(PMadam, false, m, s + rest) == after
  {
    hide Encode, LoadFixed, Chunk, Pow256;
    var fields := [Arr(4, regs), Arr(2, plut), Num(4, modes[0]), Num(4, modes[1]), Num(4, modes[2]),
                   Num(4, modes[3]), Num(4, fsm), Num(4, pending), Num(8, until)];
    FourBytes();
    EightBytes();
    WholeLoaded(PMadam, m, fields, rest);
  }

  // The VDLP chunk of a build that kept no force line but a zero there: the walk of the display list restarts
  // from its last programmed head, on line 5, or 8 on a PAL display (bit 27 of the display control word).
  lemma OldVdlpLoads(m: Machine, fs: seq<Field>, rest: seq<Byte>)
    requires MemShape(m.mem) && AllFit(fs, VDLP_KINDS) && fs[3] == Num(4, 0)
    ensures var s := Chunk([0x56, 0x44, 0x4C, 0x50], Encode(fs));
            var line := if (fs[10].v / 134217728) % 2 == 1 then 8 else 5;
            var vdlp := fs[..3] + [Num(4, line), fs[4], fs[4]] + fs[6..];
            LoadPart(PVdlp, false, m, s + rest) == Step(|s|, m.(vdlp := vdlp))
  {
    hide Encode, LoadFixed, Chunk, AllFit, VdlpFrom;
    assert |fs| == 12 && fs[10].Num? by { VdlpShape(fs); }
    HeadLoaded(PVdlp, m, fs, rest);
    VdlpRestarts(fs);
  }

  lemma VdlpShape(fs: seq<Field>)
    requires AllFit(fs, VDLP_KINDS)
    ensures |fs| == 12 && fs[3].Num? && fs[10].Num?
  {
    hide Pow256;
  }

  lemma VdlpRestarts(fs: seq<Field>)
    requires AllFit(fs, VDLP_KINDS) && fs[3] == Num(4, 0)
    ensures |fs| == 12 && fs[10].Num?
    ensures VdlpFrom(fs)
         == fs[..3] + [Num(4, if (fs[10].v / 134217728) % 2 == 1 then 8 else 5), fs[4], fs[4]] + fs[6..]
  {
    hide Fits;
    VdlpShape(fs);
  }

  // A DSP chunk with the decode tables in it: they are stepped over, wherever they hold.
  lemma OldDspLoads(m: Machine, first: Field, tables: seq<Byte>, live: seq<Field>, rest: seq<Byte>)
    requires MemShape(m.mem) && Fits(first, KNum(4)) && |tables| == DSP_TABLES && AllFit(live, DSP_LIVE)
    requires live[8].v <= 1 && live[9].v <= 1
    ensures var fs := [first, Raw(tables)] + live;
            var s := Chunk([0x44, 0x53, 0x50, 0x50], Encode(fs));
            LoadPart(PDsp, false, m, s + rest) == Step(|s|, m.(dsp := [first] + live))
  {
    hide Encode, Fits, Unchunk, Parse, TotalSize, Le, Pow256;
    var fs := [first, Raw(tables)] + live;
    var kinds := [KNum(4), KRaw(DSP_TABLES)] + DSP_LIVE;
    var s := Chunk(DSPP, Encode(fs)) + rest;
    assert s[..4] == DSPP != DSP2;
    assert LayoutOf(PDsp, s) == Layout(DSPP, kinds, []);
    TablesFit(first, tables, live);
    ParseEncode(kinds, fs, []);
    assert Encode(fs) + [] == Encode(fs);
    OldDspBound();
    UnchunkChunk(DSPP, Encode(fs), rest);
    assert Shaped(LayoutOf(PDsp, s), fs);
    FlagsStay(live);
    assert [fs[0]] + fs[2..] == [first] + live;
  }

  lemma TablesFit(first: Field, tables: seq<Byte>, live: seq<Field>)
    requires Fits(first, KNum(4)) && |tables| == DSP_TABLES && AllFit(live, DSP_LIVE)
    ensures AllFit([first, Raw(tables)] + live, [KNum(4), KRaw(DSP_TABLES)] + DSP_LIVE)
  {
    assert Fits(Raw(tables), KRaw(DSP_TABLES));
    hide Fits;
  }

  lemma OldDspBound()
    ensures TotalSize([KNum(4), KRaw(DSP_TABLES)] + DSP_LIVE) <= MAX32
  {
    TotalSizeBound([KNum(4), KRaw(DSP_TABLES)] + DSP_LIVE, 0x10_0000);
  }

  lemma FlagsStay(live: seq<Field>)
    requires AllFit(live, DSP_LIVE) && live[8].v <= 1 && live[9].v <= 1
    ensures Truth(live[8]) == live[8] && Truth(live[9]) == live[9]
  {
    hide Pow256;
  }
}
