/**
 What the save-state code promises: a dry run changes nothing and agrees with
 loading, and loading what was saved restores the machine.
 */
module StateTheorems {
  import opened Words
  import opened StateBytes
  import opened StateStreams
  import opened StateCdrom
  import opened StateParts
  import opened StateFile
  import C = Clock

  // ---------- Validation agrees with loading ----------

  lemma PartDryRun(part: Part, m: Machine, other: Machine, s: seq<Byte>)
    requires MemShape(m.mem) && MemShape(other.mem)
    ensures LoadPart(part, true, m, s).m == m
    ensures LoadPart(part, false, other, s).rv == LoadPart(part, true, m, s).rv
  {
    hide ParseTailed, Unchunk, Install, Accepts, LayoutOf, Mem2Ok, Mem2From, MemOk, MemFrom;
  }

  lemma {:induction false} PartsDryRun(parts: seq<Part>, m: Machine, other: Machine, s: seq<Byte>)
    requires MemShape(m.mem) && MemShape(other.mem)
    ensures var rehearsed, loaded := LoadParts(parts, true, m, s), LoadParts(parts, false, other, s);
            rehearsed.m == m && loaded.ok == rehearsed.ok && loaded.rest == rehearsed.rest
  {
    hide LoadPart, AfterPart, MemShape;
    if parts != [] {
      PartDryRun(parts[0], m, other, s);
      var step := LoadPart(parts[0], false, other, s);
      if step.rv != 0 {
        SyncKeepsShape(parts[0], step.m);
        PartsDryRun(parts[1..], m, AfterPart(parts[0], step.m), s[step.rv..]);
      }
    }
  }

  lemma SyncKeepsShape(part: Part, m: Machine)
    requires MemShape(m.mem)
    ensures MemShape(AfterPart(part, m).mem)
  {
  }

  lemma XbusDryRun(env: Env, m: Machine, other: Machine, s: seq<Byte>)
    requires MemShape(m.mem) && MemShape(other.mem)
    ensures LoadXbus(env, true, m, s).m == m
    ensures LoadXbus(env, true, m, s).rv != 0 || NoLegacy(env) ==>
              LoadXbus(env, false, other, s).rv == LoadXbus(env, true, m, s).rv
  {
    hide ParseXbus, LoadDevices, Unchunk, NoLegacy;
    if Unchunk(XBUS, s).Some? && ParseXbus(Unchunk(XBUS, s).value.payload).Some? {
      var head := ParseXbus(Unchunk(XBUS, s).value.payload).value;
      DevicesDryRun(env, m.cd, m.clock.cycles, other.cd, other.clock.cycles, head.count, head.rest);
    }
  }

  // A dry run changes nothing, whether it accepts or not.
  lemma DryRunChangesNothing(env: Env, parts: seq<Part>, m: Machine, s: seq<Byte>, version: nat)
    requires MemShape(m.mem)
    ensures LoadChunked(env, parts, true, m, s, version).m == m
  {
    hide LoadParts, LoadXbus, HeaderSize;
    var n := HeaderSize(version, s);
    PartsDryRun(parts, m, m, s[n..]);
    XbusDryRun(env, m, m, LoadParts(parts, true, m, s[n..]).rest);
  }

  lemma DryRunAgrees(env: Env, parts: seq<Part>, m: Machine, other: Machine, s: seq<Byte>, version: nat)
    requires MemShape(m.mem) && MemShape(other.mem)
    ensures LoadChunked(env, parts, true, m, s, version).rv != 0 || NoLegacy(env) ==>
              LoadChunked(env, parts, false, other, s, version).rv == LoadChunked(env, parts, true, m, s, version).rv
  {
    hide LoadParts, LoadXbus, HeaderSize, NoLegacy;
    var n := HeaderSize(version, s);
    PartsDryRun(parts, m, other, s[n..]);
    var loaded := LoadParts(parts, false, other, s[n..]);
    XbusDryRun(env, m, loaded.m, loaded.rest);
  }

  // A state that validates on one machine loads in full on any other with the same drives attached.
  lemma ValidatedLoads(env: Env, loadV1: (Machine, seq<Byte>) -> Step, m: Machine, other: Machine, s: seq<Byte>)
    requires MemShape(m.mem) && MemShape(other.mem) && Validate(env, m, s)
    ensures Load(env, loadV1, other, s).rv == |s| != 0
  {
    hide LoadChunked, Version;
    DryRunAgrees(env, PARTS, m, other, s, Version(s));
  }

  // Without the drive's two older layouts, validation accepts exactly the states of formats 3 and 4 that load.
  lemma ValidateIsExact(env: Env, loadV1: (Machine, seq<Byte>) -> Step, m: Machine, other: Machine, s: seq<Byte>)
    requires MemShape(m.mem) && MemShape(other.mem) && NoLegacy(env)
    ensures Validate(env, m, s) <==> Dryable(Version(s)) && Load(env, loadV1, other, s).rv == |s| != 0
  {
    hide LoadChunked, Version, NoLegacy;
    DryRunAgrees(env, PARTS, m, other, s, Version(s));
  }

  // ---------- Loading restores what was saved ----------

  lemma ParseTailedEncode(kinds: seq<Kind>, tail: seq<Kind>, fs: seq<Field>)
    requires AllFit(fs, kinds + tail) && (tail == [] || TotalSize(tail) > 0)
    ensures |Encode(fs)| == TotalSize(kinds + tail)
    ensures ParseTailed(kinds, tail, Encode(fs)) == Some(fs)
  {
    hide Fits, Parse, Encode;
    var k := |kinds|;
    var a, b := fs[..k], fs[k..];
    assert fs == a + b;
    AllFitSplit(fs, kinds, tail);
    EncodeAppend(a, b);
    ParseEncode(kinds + tail, fs, []);
    ParseEncode(kinds, a, Encode(b));
    ParseEncode(tail, b, []);
    assert Encode(b) + [] == Encode(b);
    if tail == [] {
      assert b == [] && Encode(b) == [] && a == fs;
    }
  }

  lemma AllFitSplit(fs: seq<Field>, ka: seq<Kind>, kb: seq<Kind>)
    requires AllFit(fs, ka + kb)
    ensures AllFit(fs[..|ka|], ka) && AllFit(fs[|ka|..], kb)
  {
    hide Fits;
    var kinds := ka + kb;
    assert forall i :: 0 <= i < |ka| ==> kinds[i] == ka[i];
    assert forall i :: 0 <= i < |kb| ==> kinds[|ka| + i] == kb[i] && fs[|ka|..][i] == fs[|ka| + i];
  }

  // Every layout is small, and no tail is empty.
  lemma LayoutBound(part: Part)
    requires part != PMem
    ensures TotalSize(Current(part).kinds + Current(part).tail) <= 20 * 0x10_0000
    ensures Current(part).tail == [] || TotalSize(Current(part).tail) > 0
  {
    var l := Current(part);
    TotalSizeBound(l.kinds + l.tail, 0x10_0000);
    if l.tail != [] {
      assert KindSize(l.tail[0]) > 0;
    }
  }

  lemma LayoutByName(part: Part, payload: seq<Byte>, rest: seq<Byte>)
    requires part != PMem
    ensures LayoutOf(part, Chunk(Current(part).name, payload) + rest) == Current(part)
  {
    var s := Chunk(Current(part).name, payload) + rest;
    assert s[..4] == Current(part).name;
    assert DSP2[..4] == DSP2;
  }

  lemma FixedRestored(part: Part, dry: bool, m: Machine, from: Machine, rest: seq<Byte>)
    requires part != PMem && PartSaveable(part, from)
    ensures var chunk := Chunk(Current(part).name, Encode(FieldsOf(part, from)));
            LoadFixed(part, dry, m, chunk + rest) == Step(|chunk|, if dry then m else Copied(part, m, from))
  {
    hide Parse, ParseTailed, Unchunk, Install, Accepts, LayoutOf, Current, Encode, FieldsOf, Copied, TotalSize;
    var l, fs := Current(part), FieldsOf(part, from);
    LayoutByName(part, Encode(fs), rest);
    SaveableFits(part, from);
    LayoutBound(part);
    ParseTailedEncode(l.kinds, l.tail, fs);
    UnchunkChunk(l.name, Encode(fs), rest);
    PartRestored(part, m, from);
  }

  lemma SaveableFits(part: Part, m: Machine)
    requires part != PMem && PartSaveable(part, m)
    ensures AllFit(FieldsOf(part, m), Current(part).kinds + Current(part).tail)
  {
  }

  lemma MemEncoded(mem: Mem)
    requires MemShape(mem) && ValidCfg(mem.cfg)
    ensures var n := RamBytes(mem.cfg);
            Encode(MemFields(mem)) == [mem.cfg] + Le(4, n) + mem.dram[..n] + mem.nvram
  {
    hide RamBytes;
    RamFits(mem.cfg);
    var n := RamBytes(mem.cfg);
    var fs := MemFields(mem);
    assert Le(1, mem.cfg) == [mem.cfg];
    assert fs[3..] == [Raw(mem.nvram)] && Encode(fs[3..]) == mem.nvram;
    assert fs[2..][1..] == fs[3..] && Encode(fs[2..]) == mem.dram[..n] + mem.nvram;
    assert fs[1..][1..] == fs[2..] && Encode(fs[1..]) == Le(4, n) + (mem.dram[..n] + mem.nvram);
  }

  lemma MemRestored(dry: bool, m: Machine, from: Machine, rest: seq<Byte>)
    requires MemShape(m.mem) && MemShape(from.mem) && ValidCfg(from.mem.cfg)
    ensures var chunk := PartChunk(PMem, from);
            LoadPart(PMem, dry, m, chunk + rest) == Step(|chunk|, if dry then m else Copied(PMem, m, from))
  {
    hide RamBytes, ValidCfg, Unchunk, Encode, Le, FromLe;
    var n := RamBytes(from.mem.cfg);
    RamFits(from.mem.cfg);
    MemEncoded(from.mem);
    var p := Encode(MemFields(from.mem));
    assert p[0] == from.mem.cfg;
    assert p[1..5] == Le(4, n);
    assert p[5..5 + n] == from.mem.dram[..n];
    assert p[5 + n..] == from.mem.nvram;
    LeRoundTrip(4, n);
    UnchunkChunk(MEM2, p, rest);
    assert (PartChunk(PMem, from) + rest)[..4] == MEM2;
  }

  lemma CopyKeepsShape(part: Part, m: Machine, from: Machine)
    requires MemShape(m.mem) && MemShape(from.mem) && ValidCfg(from.mem.cfg)
    ensures MemShape(AfterPart(part, Copied(part, m, from)).mem)
  {
    RamFits(from.mem.cfg);
  }

  function AllCopied(parts: seq<Part>, m: Machine, from: Machine): Machine
  {
    if parts == [] then m else AllCopied(parts[1..], AfterPart(parts[0], Copied(parts[0], m, from)), from)
  }

  lemma PartLoaded(part: Part, dry: bool, m: Machine, from: Machine, rest: seq<Byte>)
    requires Saveable(from) && MemShape(m.mem)
    ensures var chunk := PartChunk(part, from);
            LoadPart(part, dry, m, chunk + rest) == Step(|chunk|, if dry then m else Copied(part, m, from))
  {
    if part == PMem {
      MemRestored(dry, m, from, rest);
    } else {
      hide PartSaveable, Copied, FieldsOf, Encode, LoadFixed, Current;
      FixedRestored(part, dry, m, from, rest);
    }
  }

  lemma {:induction false} PartsLoaded(parts: seq<Part>, dry: bool, m: Machine, from: Machine, rest: seq<Byte>)
    requires Saveable(from) && MemShape(m.mem)
    ensures LoadParts(parts, dry, m, SaveParts(parts, from) + rest)
         == Progress(true, if dry then m else AllCopied(parts, m, from), rest)
  {
    hide Saveable, LoadPart, PartChunk, Copied, AfterPart, MemShape;
    SaveableMem(from);
    if parts == [] {
      assert SaveParts(parts, from) + rest == rest;
    } else {
      var chunk, after := PartChunk(parts[0], from), SaveParts(parts[1..], from) + rest;
      var s := SaveParts(parts, from) + rest;
      assert s == chunk + after;
      assert s[|chunk|..] == after;
      PartLoaded(parts[0], dry, m, from, after);
      CopyKeepsShape(parts[0], m, from);
      PartsLoaded(parts[1..], dry, if dry then m else AfterPart(parts[0], Copied(parts[0], m, from)), from, rest);
    }
  }

  lemma SaveableMem(m: Machine)
    requires Saveable(m)
    ensures MemShape(m.mem) && ValidCfg(m.mem.cfg)
  {
  }

  lemma {:induction false} CountBound(env: Env, i: nat)
    requires i <= SLOTS
    ensures CountFrom(env, i) <= SLOTS - i
    decreases SLOTS - i
  {
    if i < SLOTS {
      CountBound(env, i + 1);
    }
  }

  lemma {:induction false} DeviceBytesBound(env: Env, chunk: seq<Byte>, i: nat, b: nat)
    requires i <= SLOTS && |chunk| < b
    ensures |DeviceBytes(env, chunk, i)| <= (SLOTS - i) * b
    decreases SLOTS - i
  {
    if i < SLOTS {
      DeviceBytesBound(env, chunk, i + 1, b);
      assert (SLOTS - i) * b == b + (SLOTS - (i + 1)) * b;
    }
  }

  // What ParseXbus makes of the parsed fields.
  lemma ParsedXbus(payload: seq<Byte>, p: Parsed)
    requires Parse(XBUS_KINDS, payload) == Some(p)
    ensures AllFit(p.fields, XBUS_KINDS) && |p.fields| == 9 && p.fields[8].Num?
    ensures ParseXbus(payload)
         == if p.fields[8].v > 15 then None else Some(XbusHead(XbusFrom(p.fields), p.fields[8].v, p.rest))
  {
    hide Parse, XbusFrom, Pow256;
    EncodeParse(XBUS_KINDS, payload);
  }

  lemma XbusFieldsFit(x: Xbus, n: nat)
    requires AllFit(XbusFields(x, 0), XBUS_KINDS) && n <= 15
    ensures AllFit(XbusFields(x, n), XBUS_KINDS)
  {
    hide Fits;
    CountFits(n);
    var fs := XbusFields(x, n);
    assert forall i :: 0 <= i < 8 ==> fs[i] == XbusFields(x, 0)[i];
  }

  lemma XbusFromFields(x: Xbus, n: nat)
    requires AllFit(XbusFields(x, n), XBUS_KINDS)
    ensures XbusFrom(XbusFields(x, n)) == x
  {
    hide AllFit;
  }

  lemma XbusHeadParsed(x: Xbus, n: nat, rest: seq<Byte>)
    requires AllFit(XbusFields(x, 0), XBUS_KINDS) && n <= 15
    ensures ParseXbus(Encode(XbusFields(x, n)) + rest) == Some(XbusHead(x, n, rest))
    ensures |Encode(XbusFields(x, n))| <= 9 * 255
  {
    hide Parse, ParseXbus, XbusFrom, Encode, AllFit, TotalSize;
    var fs := XbusFields(x, n);
    XbusFieldsFit(x, n);
    ParseEncode(XBUS_KINDS, fs, rest);
    ParsedXbus(Encode(fs) + rest, Parsed(fs, rest));
    XbusFromFields(x, n);
    XbusSizes();
  }

  lemma XbusSizes()
    ensures TotalSize(XBUS_KINDS) <= 9 * 255
  {
    TotalSizeBound(XBUS_KINDS, 255);
  }

  lemma CountFits(n: nat)
    requires n <= 15
    ensures Fits(Num(4, n), KNum(4))
  {
  }


  // The drive after a load; a bus without drives stores none.
  function CdLoaded(env: Env, was: Cd, from: Machine): Cd
  {
    if CountFrom(env, 0) == 0 then was else Reloaded(env, from.cd, from.clock.cycles)
  }

  lemma XbusSize(env: Env, m: Machine)
    requires AllFit(XbusFields(m.xbus, 0), XBUS_KINDS) && Storable(m.cd, m.clock.cycles)
    ensures |XbusPayload(env, m)| <= 0x20_0000
  {
    hide Encode, Storable, AllFit, TotalSize, CD_KINDS, XbusFields;
    CountBound(env, 0);
    XbusHeadParsed(m.xbus, CountFrom(env, 0), []);
    CdParsed(m.cd, m.clock.cycles);
    CdSizeBound();
    DeviceBytesBound(env, CdChunk(m.cd, m.clock.cycles), 0, 40 * SECTOR_MAX + 9);
  }

  lemma XbusLoaded(env: Env, dry: bool, m: Machine, from: Machine)
    requires MemShape(m.mem) && AllFit(XbusFields(from.xbus, 0), XBUS_KINDS)
    requires Storable(from.cd, from.clock.cycles) && (dry || m.clock.cycles == from.clock.cycles)
    ensures LoadXbus(env, dry, m, Chunk(XBUS, XbusPayload(env, from)))
         == Step(8 + |XbusPayload(env, from)|,
                 if dry then m else m.(xbus := from.xbus, cd := CdLoaded(env, m.cd, from)))
  {
    hide Encode, Storable, AllFit, XbusFields, ParseXbus, LoadDevices, Unchunk, Reloaded, CdChunk, Chunk, MemShape;
    var payload, n, now := XbusPayload(env, from), CountFrom(env, 0), from.clock.cycles;
    var bytes := DeviceBytes(env, CdChunk(from.cd, now), 0);
    XbusSize(env, from);
    UnchunkChunk(XBUS, payload, []);
    assert Chunk(XBUS, payload) + [] == Chunk(XBUS, payload);
    CountBound(env, 0);
    XbusHeadParsed(from.xbus, n, bytes);
    DevicesRestored(env, dry, m.cd, from.cd, now, 0);
    if dry {
      DryRunIgnoresClock(env, m.cd, m.clock.cycles, now, n, bytes);
    }
  }

  lemma HeaderLoaded(rest: seq<Byte>)
    ensures |Chunk(HEADER, Encode(HeaderFields()))| == 16
    ensures HeaderSize(CURRENT, Chunk(HEADER, Encode(HeaderFields())) + rest) == 16
  {
    hide Encode, Parse, Unchunk;
    var payload := Encode(HeaderFields());
    ParseEncode(HEADER_KINDS, HeaderFields(), []);
    assert payload + [] == payload;
    assert TotalSize(HEADER_KINDS) == 8;
    UnchunkChunk(HEADER, payload, rest);
  }

  // A machine whose parts before the expansion bus come from another.
  function PartsFrom(m: Machine, from: Machine): Machine
  {
    var mem := MemCopied(m.mem, from.mem);
    Machine(from.runtime, from.prng, from.arm.(limits := LimitsFor(from.arm.overlay, mem)), from.clio, from.dsp,
            from.madam, mem, from.sport, from.vdlp, from.clock, m.xbus, m.cd, m.pbus, m.legacyAbort)
  }

  // A machine after loading the state saved from another.
  function Restored(env: Env, m: Machine, from: Machine): Machine
  {
    Finished(PartsFrom(m, from).(xbus := from.xbus, cd := CdLoaded(env, m.cd, from)))
  }

  lemma CopyStep(part: Part, parts: seq<Part>, m: Machine, from: Machine)
    ensures AllCopied([part] + parts, m, from) == AllCopied(parts, AfterPart(part, Copied(part, m, from)), from)
  {
    assert ([part] + parts)[1..] == parts;
  }

  // The parts up to memory, and those after it.
  function FirstParts(m: Machine, from: Machine): Machine
  {
    Copied(PMem, Copied(PMadam, Copied(PDsp, Copied(PClio, Copied(PArm, Copied(PPrng, Copied(PRuntime, m, from),
    from), from), from), from), from), from)
  }

  function LastParts(m: Machine, from: Machine): Machine
  {
    Copied(PClock, Copied(PVdlp, Copied(PSport, m, from), from), from)
  }

  lemma FirstPartsInTurn(m: Machine, from: Machine, parts: seq<Part>)
    ensures AllCopied([PRuntime, PPrng, PArm, PClio, PDsp, PMadam, PMem] + parts, m, from)
         == AllCopied(parts, Synced(FirstParts(m, from)), from)
  {
    hide AllCopied, Copied, Synced;
    var m1 := Copied(PRuntime, m, from);
    var m2 := Copied(PPrng, m1, from);
    var m3 := Copied(PArm, m2, from);
    var m4 := Copied(PClio, m3, from);
    var m5 := Copied(PDsp, m4, from);
    var m6 := Copied(PMadam, m5, from);
    CopyStep(PMem, parts, m6, from);
    CopyStep(PMadam, [PMem] + parts, m5, from);
    CopyStep(PDsp, [PMadam] + ([PMem] + parts), m4, from);
    CopyStep(PClio, [PDsp] + ([PMadam] + ([PMem] + parts)), m3, from);
    CopyStep(PArm, [PClio] + ([PDsp] + ([PMadam] + ([PMem] + parts))), m2, from);
    CopyStep(PPrng, [PArm] + ([PClio] + ([PDsp] + ([PMadam] + ([PMem] + parts)))), m1, from);
    CopyStep(PRuntime, [PPrng] + ([PArm] + ([PClio] + ([PDsp] + ([PMadam] + ([PMem] + parts))))), m, from);
    assert [PRuntime, PPrng, PArm, PClio, PDsp, PMadam, PMem] + parts
        == [PRuntime] + ([PPrng] + ([PArm] + ([PClio] + ([PDsp] + ([PMadam] + ([PMem] + parts))))));
  }

  lemma LastPartsInTurn(m: Machine, from: Machine)
    ensures AllCopied([PSport, PVdlp, PClock], m, from) == LastParts(m, from)
  {
    hide Copied;
    CopyStep(PSport, [PVdlp, PClock], m, from);
    CopyStep(PVdlp, [PClock], Copied(PSport, m, from), from);
    CopyStep(PClock, [], Copied(PVdlp, Copied(PSport, m, from), from), from);
    assert [PSport] + [PVdlp, PClock] == [PSport, PVdlp, PClock] && [PVdlp] + [PClock] == [PVdlp, PClock];
    assert [PClock] + [] == [PClock];
  }

  lemma PartsCopied(m: Machine, from: Machine)
    ensures AllCopied(PARTS, m, from) == PartsFrom(m, from)
  {
    hide AllCopied, MemCopied, LimitsFor;
    FirstPartsInTurn(m, from, [PSport, PVdlp, PClock]);
    LastPartsInTurn(Synced(FirstParts(m, from)), from);
    assert PARTS == [PRuntime, PPrng, PArm, PClio, PDsp, PMadam, PMem] + [PSport, PVdlp, PClock];
  }

  const CHUNK_MAX: nat := 0x180_0000

  lemma PartChunkBound(part: Part, m: Machine)
    requires Saveable(m)
    ensures |PartChunk(part, m)| <= CHUNK_MAX
  {
    if part == PMem {
      RamFits(m.mem.cfg);
      MemEncoded(m.mem);
    } else {
      hide Encode, TotalSize, PartSaveable, FieldsOf, Current;
      SaveableFits(part, m);
      LayoutBound(part);
      ParseEncode(Current(part).kinds + Current(part).tail, FieldsOf(part, m), []);
    }
  }

  lemma {:induction false} SavePartsBound(parts: seq<Part>, m: Machine)
    requires Saveable(m)
    ensures |SaveParts(parts, m)| <= |parts| * CHUNK_MAX
  {
    hide Saveable, PartChunk;
    SaveableMem(m);
    if parts != [] {
      PartChunkBound(parts[0], m);
      SavePartsBound(parts[1..], m);
      assert |parts| * CHUNK_MAX == CHUNK_MAX + (|parts| - 1) * CHUNK_MAX;
    }
  }

  lemma SaveFits(env: Env, m: Machine)
    requires Saveable(m)
    ensures |Save(env, m)| <= MAX32
  {
    hide SaveParts, PartSaveable, XbusPayload, Encode;
    SavePartsBound(PARTS, m);
    HeaderLoaded([]);
    XbusSize(env, m);
  }

  lemma VersionOfSaved(rest: seq<Byte>)
    requires 16 + |rest| <= MAX32
    ensures Version(Chunk(HEADER, Encode(HeaderFields())) + rest) == CURRENT
  {
    hide Unchunk, Chunk, Le, FromLe;
    var payload := Encode(HeaderFields());
    var s := Chunk(HEADER, payload) + rest;
    HeaderLoaded(rest);
    assert |s| % WORD_SIZE == |s| && s[..|s|] == s;
    UnchunkChunk(HEADER, payload, rest);
    assert HeaderFields()[1..] == [Num(4, 0)];
    assert payload[..4] == Le(4, CURRENT);
    LeRoundTrip(4, CURRENT);
  }

  lemma SavedLoads(env: Env, dry: bool, m: Machine, from: Machine)
    requires Saveable(from) && MemShape(m.mem)
    ensures LoadChunked(env, PARTS, dry, m, Save(env, from), CURRENT)
         == Step(|Save(env, from)|, if dry then m else Restored(env, m, from))
  {
    hide SaveParts, PartSaveable, XbusPayload, Encode, HeaderSize, Chunk, LoadParts, LoadXbus, Storable, AllFit,
      XbusFields, MemCopied, LimitsFor, CdLoaded, MemShape, AllCopied;
    var xbus := Chunk(XBUS, XbusPayload(env, from));
    var after := SaveParts(PARTS, from) + xbus;
    var header := Chunk(HEADER, Encode(HeaderFields()));
    assert Save(env, from) == header + after;
    SaveFits(env, from);
    HeaderLoaded(after);
    assert Save(env, from)[16..] == after;
    PartsLoaded(PARTS, dry, m, from, xbus);
    PartsCopied(m, from);
    XbusLoaded(env, dry, if dry then m else PartsFrom(m, from), from);
  }

  // Main result: a saved state validates, loads in full, and restores the machine it came from.
  lemma SaveThenLoad(env: Env, loadV1: (Machine, seq<Byte>) -> Step, m: Machine, from: Machine)
    requires Saveable(from) && MemShape(m.mem)
    ensures Validate(env, m, Save(env, from))
    ensures Load(env, loadV1, m, Save(env, from)) == Step(|Save(env, from)|, Restored(env, m, from))
  {
    hide SaveParts, PartSaveable, XbusPayload, Encode, Chunk, LoadChunked, Version, Restored, MemShape;
    var header := Chunk(HEADER, Encode(HeaderFields()));
    var after := SaveParts(PARTS, from) + Chunk(XBUS, XbusPayload(env, from));
    assert Save(env, from) == header + after;
    SaveFits(env, from);
    HeaderLoaded([]);
    VersionOfSaved(after);
    SavedLoads(env, true, m, from);
    SavedLoads(env, false, m, from);
  }

  // The restored parts are the saved ones, overlay limits and used RAM included. The ROMs and RAM past that stay, and
  // the joypad bus starts afresh.
  lemma RestoredMatches(env: Env, m: Machine, from: Machine)
    requires Saveable(from) && MemShape(m.mem)
    ensures var r := Restored(env, m, from);
            && r.arm == from.arm && r.clock == from.clock && r.madam == from.madam && r.xbus == from.xbus
            && r.runtime == from.runtime && r.prng == from.prng && r.clio == from.clio && r.dsp == from.dsp
            && r.sport == from.sport && r.vdlp == from.vdlp
            && r.mem.cfg == from.mem.cfg && r.mem.nvram == from.mem.nvram
            && r.mem.dramSize == from.mem.dramSize && r.mem.vramSize == from.mem.vramSize
            && (forall i :: 0 <= i < RamBytes(from.mem.cfg) ==> r.mem.dram[i] == from.mem.dram[i])
    ensures var r := Restored(env, m, from);
            && r.pbus == Pbus(Zeros(256), 0, 0) && !r.legacyAbort
            && r.mem.rom1 == m.mem.rom1 && r.mem.rom2 == m.mem.rom2 && |r.mem.dram| == |m.mem.dram|
            && forall i :: RamBytes(from.mem.cfg) <= i < |m.mem.dram| ==> r.mem.dram[i] == m.mem.dram[i]
  {
    hide PartSaveable, Storable, AllFit, CdLoaded;
    RamFits(from.mem.cfg);
  }

  // With its reset bit clear, a drive comes back whole exactly when no deadline has passed, the audio
  // clock was not started in the future and saving was not blocked.
  lemma DriveRestored(env: Env, m: Machine, from: Machine)
    requires CountFrom(env, 0) > 0 && (from.cd.device.poll / RESET_BIT) % 2 == 0
    ensures Restored(env, m, from).cd == from.cd <==>
            && (from.cd.data.nextReady == 0 || from.cd.data.nextReady > from.clock.cycles)
            && from.cd.data.baseCycle <= from.clock.cycles && !from.cd.blocked
  {
    hide MemCopied, LimitsFor, CountFrom;
  }

  // ---------- Any accepted state leaves derived state in order ----------

  predicate MemCoherent(m: Machine)
  {
    ValidCfg(m.mem.cfg) && m.mem == SetUp(m.mem, m.mem.cfg) && m.arm.limits == LimitsFor(m.arm.overlay, m.mem)
  }

  // The ARM part comes before memory, whose sizes its limits depend on.
  predicate Ordered(parts: seq<Part>)
  {
    forall i :: 0 <= i < |parts| && parts[i] == PArm ==> exists j :: i < j < |parts| && parts[j] == PMem
  }

  lemma OrderedTail(parts: seq<Part>)
    requires parts != [] && Ordered(parts)
    ensures Ordered(parts[1..]) && (parts[0] == PArm ==> PMem in parts[1..])
  {
    forall i | 0 <= i < |parts[1..]| && parts[1..][i] == PArm
      ensures exists j :: i < j < |parts[1..]| && parts[1..][j] == PMem
    {
      var j :| i + 1 < j < |parts| && parts[j] == PMem;
      assert parts[1..][j - 1] == PMem;
    }
    if parts[0] == PArm {
      var j :| 0 < j < |parts| && parts[j] == PMem;
      assert parts[1..][j - 1] == PMem;
    }
  }

  lemma PartKeepsCoherence(part: Part, m: Machine, s: seq<Byte>)
    requires MemShape(m.mem) && LoadPart(part, false, m, s).rv != 0
    ensures var r := AfterPart(part, LoadPart(part, false, m, s).m);
            && (part == PMem || (part != PArm && MemCoherent(m)) ==> MemCoherent(r))
            && (part == PClock || Consistent(m.clock) ==> Consistent(r.clock))
  {
    hide ParseTailed, Unchunk, Accepts, LayoutOf, ValidCfg, RamBytes, FromLe, C.CyclesPerSnd, C.CyclesPerLine,
      C.CyclesPerTicks, ArmFrom, MadamFrom, DspFrom, VdlpFrom;
  }

  lemma {:induction false} PartsKeepCoherence(parts: seq<Part>, m: Machine, s: seq<Byte>)
    requires MemShape(m.mem) && Ordered(parts) && LoadParts(parts, false, m, s).ok
    requires (PMem in parts || MemCoherent(m)) && (PClock in parts || Consistent(m.clock))
    ensures var r := LoadParts(parts, false, m, s).m; MemCoherent(r) && Consistent(r.clock)
  {
    hide LoadPart, AfterPart, MemShape, MemCoherent, Consistent, Ordered;
    if parts != [] {
      OrderedTail(parts);
      var step := LoadPart(parts[0], false, m, s);
      PartKeepsCoherence(parts[0], m, s);
      SyncKeepsShape(parts[0], step.m);
      assert forall p: Part :: p in parts ==> p == parts[0] || p in parts[1..];
      PartsKeepCoherence(parts[1..], AfterPart(parts[0], step.m), s[step.rv..]);
    }
  }

  lemma PartsAreOrdered()
    ensures Ordered(PARTS) && PMem in PARTS && PClock in PARTS
  {
    assert PARTS[6] == PMem && PARTS[9] == PClock;
  }

  // Whatever bytes load: the memory configuration is valid, the overlay limits fit it and the clock's rates
  // are its own.
  lemma LoadedIsCoherent(env: Env, m: Machine, s: seq<Byte>, version: nat)
    requires MemShape(m.mem) && LoadChunked(env, PARTS, false, m, s, version).rv != 0
    ensures var r := LoadChunked(env, PARTS, false, m, s, version).m; MemCoherent(r) && Consistent(r.clock)
  {
    hide LoadParts, HeaderSize, ParseXbus, Unchunk, LoadDevices, Consistent, ValidCfg, LimitsFor, Ordered;
    PartsAreOrdered();
    PartsKeepCoherence(PARTS, m, s[HeaderSize(version, s)..]);
  }

  // ---------- A load that fails can leave the machine half loaded ----------

  // Header and runtime chunk alone: refused, but the runtime is already replaced.
  lemma TornLoad(env: Env, loadV1: (Machine, seq<Byte>) -> Step, m: Machine)
    requires MemShape(m.mem) && ValidCfg(m.mem.cfg)
    ensures exists s :: Load(env, loadV1, m, s).rv == 0 && Load(env, loadV1, m, s).m != m && !Validate(env, m, s)
  {
    hide LoadFixed, Encode, Chunk, Unchunk, HeaderSize, Version, MemShape;
    var from := m.(runtime := Runtime(if m.runtime.field == 0 then 1 else 0, 0));
    var chunk := Chunk(Current(PRuntime).name, Encode(FieldsOf(PRuntime, from)));
    var s := Chunk(HEADER, Encode(HeaderFields())) + chunk;
    assert PartSaveable(PRuntime, from);
    FixedRestored(PRuntime, false, m, from, []);
    assert chunk + [] == chunk;
    RuntimeChunkSize(from);
    HeaderLoaded(chunk);
    VersionOfSaved(chunk);
    assert s[16..] == chunk;
    var loaded := LoadPart(PRuntime, false, m, chunk).m;
    assert loaded.runtime != m.runtime;
    NothingLeft(loaded);
    assert LoadParts(PARTS, false, m, chunk) == Progress(false, loaded, []);
    DryRunAgrees(env, PARTS, m, m, s, CURRENT);
    assert Load(env, loadV1, m, s) == Step(0, loaded);
  }

  lemma RuntimeChunkSize(m: Machine)
    ensures |Chunk(Current(PRuntime).name, Encode(FieldsOf(PRuntime, m)))| == 16
  {
    hide Parse, Encode;
    ParseEncode(HEADER_KINDS, FieldsOf(PRuntime, m), []);
    assert TotalSize(HEADER_KINDS) == 8;
  }

  lemma NothingLeft(m: Machine)
    requires MemShape(m.mem)
    ensures LoadParts(PARTS[1..], false, m, []) == Progress(false, m, [])
  {
    hide MemShape, ParseTailed, Accepts, Install;
    assert PARTS[1..][0] == PPrng;
    assert LoadPart(PPrng, false, m, []) == Step(0, m);
  }
}
