/**
 Whole save states: the chunks of every component in order, the loader that
 walks them, and the dry run that validates a state first. `Save`, `Load` and
 `Validate` are the specification the methods of `StateLoader` meet.
 */
module StateFile {
  import opened Words
  import opened StateBytes
  import opened StateStreams
  import opened StateCdrom
  import opened StateParts

  datatype Step = Step(rv: nat, m: Machine)

  // ---------- One component ----------

  // The payload's fields: the fixed ones, then the tail unless nothing is left.
  function ParseTailed(kinds: seq<Kind>, tail: seq<Kind>, s: seq<Byte>): (r: Option<seq<Field>>)
    ensures r.Some? ==> AllFit(r.value, kinds) || AllFit(r.value, kinds + tail)
  {
    hide Parse, Fits;
    EncodeParse(kinds, s);
    match Parse(kinds, s)
    case None => None
    case Some(p) =>
      if p.rest == [] then Some(p.fields)
      else
        EncodeParse(tail, p.rest);
        match Parse(tail, p.rest)
        case None => None
        case Some(q) =>
          AllFitAppend(p.fields, kinds, q.fields, tail);
          if q.rest == [] then Some(p.fields + q.fields) else None
  }

  function LoadFixed(part: Part, dry: bool, m: Machine, s: seq<Byte>): (r: Step)
    requires part != PMem
    ensures r.rv <= |s| && r.m.mem == m.mem
  {
    hide ParseTailed, Unchunk, Install, Accepts, LayoutOf;
    var layout := LayoutOf(part, s);
    match Unchunk(layout.name, s)
    case None => Step(0, m)
    case Some(f) =>
      match ParseTailed(layout.kinds, layout.tail, f.payload)
      case None => Step(0, m)
      case Some(fs) =>
        assert Shaped(LayoutOf(part, s), fs);
        if !Accepts(part, fs) then Step(0, m) else Step(f.used, if dry then m else Install(part, m, fs))
  }

  // A MEM2 payload: the configuration, its RAM bytes, that much RAM and NVRAM.
  predicate Mem2Ok(p: seq<Byte>)
  {
    && |p| >= 5 && ValidCfg(p[0]) && FromLe(p[1..5]) == RamBytes(p[0]) && RamBytes(p[0]) <= MAX_RAM
    && |p| - 5 == RamBytes(p[0]) + NVRAM_SIZE
  }

  function Mem2From(mem: Mem, p: seq<Byte>): (r: Mem)
    requires MemShape(mem) && Mem2Ok(p)
    ensures MemShape(r)
  {
    var n := RamBytes(p[0]);
    SetUp(mem, p[0]).(dram := p[5..5 + n] + mem.dram[n..], nvram := p[5 + n..])
  }

  // A MEM payload: all of RAM and both ROMs, whatever the configuration.
  predicate MemOk(p: seq<Byte>)
  {
    |p| >= 1 && ValidCfg(p[0]) && |p| - 1 == MAX_RAM + ROM_SIZE + ROM_SIZE + NVRAM_SIZE
  }

  function MemFrom(mem: Mem, p: seq<Byte>): (r: Mem)
    requires MemShape(mem) && MemOk(p)
    ensures MemShape(r)
  {
    var a, b, c := 1 + MAX_RAM, 1 + MAX_RAM + ROM_SIZE, 1 + MAX_RAM + ROM_SIZE + ROM_SIZE;
    SetUp(mem, p[0]).(dram := p[1..a], rom1 := p[a..b], rom2 := p[b..c], nvram := p[c..])
  }

  // opera_mem_state_load_mem2: a dry run steps over the bulk, a load copies it.
  function LoadMem2(dry: bool, m: Machine, s: seq<Byte>): (r: Step)
    requires MemShape(m.mem)
    ensures r.rv <= |s| && MemShape(r.m.mem)
  {
    match Unchunk(MEM2, s)
    case None => Step(0, m)
    case Some(f) =>
      if !Mem2Ok(f.payload) then Step(0, m)
      else Step(f.used, if dry then m else m.(mem := Mem2From(m.mem, f.payload)))
  }

  // opera_mem_state_load_mem
  function LoadMem(dry: bool, m: Machine, s: seq<Byte>): (r: Step)
    requires MemShape(m.mem)
    ensures r.rv <= |s| && MemShape(r.m.mem)
  {
    match Unchunk(MEM, s)
    case None => Step(0, m)
    case Some(f) =>
      if !MemOk(f.payload) then Step(0, m)
      else Step(f.used, if dry then m else m.(mem := MemFrom(m.mem, f.payload)))
  }

  function LoadPart(part: Part, dry: bool, m: Machine, s: seq<Byte>): (r: Step)
    requires MemShape(m.mem)
    ensures r.rv <= |s| && MemShape(r.m.mem)
  {
    if part != PMem then LoadFixed(part, dry, m, s)
    else if |s| >= 4 && s[..4] == MEM2 then LoadMem2(dry, m, s)
    else LoadMem(dry, m, s)
  }

  // ---------- The components in order ----------

  const PARTS: seq<Part> := [PRuntime, PPrng, PArm, PClio, PDsp, PMadam, PMem, PSport, PVdlp, PClock]
  const PARTS_V2: seq<Part> := [PRuntime, PArm, PClio, PDsp, PMadam, PMem, PSport, PVdlp, PClock]

  datatype Progress = Progress(ok: bool, m: Machine, rest: seq<Byte>)

  // The overlay limits follow the memory sizes, so they are set again after memory is loaded.
  function AfterPart(part: Part, m: Machine): Machine { if part == PMem then Synced(m) else m }

  function LoadParts(parts: seq<Part>, dry: bool, m: Machine, s: seq<Byte>): (r: Progress)
    requires MemShape(m.mem)
    ensures |r.rest| <= |s| && MemShape(r.m.mem)
  {
    hide LoadPart;
    if parts == [] then Progress(true, m, s)
    else
      var step := LoadPart(parts[0], dry, m, s);
      if step.rv == 0 then Progress(false, step.m, s)
      else LoadParts(parts[1..], dry, if dry then step.m else AfterPart(parts[0], step.m), s[step.rv..])
  }

  // ---------- The expansion bus ----------

  const XBUS: Name := [0x58, 0x42, 0x55, 0x53]
  const XBUS_KINDS: seq<Kind> :=
    [KNum(1), KNum(1), KNum(1), KNum(1), KRaw(255), KNum(1), KRaw(7), KNum(1), KNum(4)]

  function XbusFields(x: Xbus, count: nat): seq<Field>
  {
    [Num(1, x.selLow), Num(1, x.selHigh), Num(1, x.polf), Num(1, x.poldevf), Raw(x.stdevf), Num(1, x.stlenf),
     Raw(x.cmdf), Num(1, x.cmdptrf), Num(4, count)]
  }

  function XbusFrom(fs: seq<Field>): Xbus
    requires AllFit(fs, XBUS_KINDS)
  {
    Xbus(fs[0].v, fs[1].v, fs[2].v, fs[3].v, fs[4].bytes, fs[5].v, fs[6].bytes, fs[7].v)
  }

  datatype XbusHead = XbusHead(xbus: Xbus, count: nat, rest: seq<Byte>)

  function ParseXbus(payload: seq<Byte>): (r: Option<XbusHead>)
    ensures r.Some? ==> r.value.count <= 15
  {
    EncodeParse(XBUS_KINDS, payload);
    match Parse(XBUS_KINDS, payload)
    case None => None
    case Some(p) =>
      if p.fields[8].v > 15 then None else Some(XbusHead(XbusFrom(p.fields), p.fields[8].v, p.rest))
  }

  // opera_xbus_state_load
  function LoadXbus(env: Env, dry: bool, m: Machine, s: seq<Byte>): (r: Step)
    requires MemShape(m.mem)
    ensures r.rv <= |s| && MemShape(r.m.mem)
  {
    hide ParseXbus, LoadDevices, Unchunk;
    match Unchunk(XBUS, s)
    case None => Step(0, m)
    case Some(f) =>
      match ParseXbus(f.payload)
      case None => Step(0, m)
      case Some(head) =>
        var d := LoadDevices(env, dry, m.cd, m.clock.cycles, head.count, head.rest);
        Step(if d.ok && d.rest == [] then f.used else 0,
             m.(xbus := if dry then m.xbus else head.xbus, cd := d.cd))
  }

  // ---------- The file ----------

  const HEADER: Name := [0x33, 0x44, 0x4F, 0]
  const HEADER_KINDS: seq<Kind> := [KNum(4), KNum(4)]

  // The header chunk's size, if it announces this version and no flags.
  function HeaderSize(version: nat, s: seq<Byte>): (n: nat)
    ensures n <= |s|
  {
    match Unchunk(HEADER, s)
    case None => 0
    case Some(f) =>
      match Parse(HEADER_KINDS, f.payload)
      case None => 0
      case Some(p) =>
        if p.rest == [] && p.fields == [Num(4, version), Num(4, 0)] then f.used else 0
  }

  function Finished(m: Machine): Machine
  {
    m.(pbus := Pbus(seq(256, _ => 0), 0, 0), legacyAbort := false)
  }

  // opera_3do_state_load_chunked
  function LoadChunked(env: Env, parts: seq<Part>, dry: bool, m: Machine, s: seq<Byte>, version: nat): (r: Step)
    requires MemShape(m.mem)
    ensures r.rv == 0 || r.rv == |s|
  {
    if |s| > MAX32 then Step(0, m)
    else
      var n := HeaderSize(version, s);
      if n == 0 then Step(0, m)
      else
        var p := LoadParts(parts, dry, m, s[n..]);
        if !p.ok then Step(0, p.m)
        else
          var x := LoadXbus(env, dry, p.m, p.rest);
          if x.rv == 0 || x.rv != |p.rest| then Step(0, x.m)
          else Step(|s|, if dry then x.m else Finished(x.m))
  }

  // opera_state_get_version, which takes the size modulo 2^32.
  function Version(s: seq<Byte>): nat
  {
    match Unchunk(HEADER, s[..|s| % WORD_SIZE])
    case None => 0
    case Some(f) =>
      if |f.payload| < 4 then 0
      else if |f.payload| == 1024 && f.payload[0] == 1 then 1
      else FromLe(f.payload[..4])
  }

  predicate Dryable(version: nat) { version == 3 || version == 4 }

  // opera_3do_state_validate
  predicate Validate(env: Env, m: Machine, s: seq<Byte>)
    requires MemShape(m.mem)
  {
    Dryable(Version(s))
    && var r := LoadChunked(env, PARTS, true, m, s, Version(s)); r.rv != 0 && r.rv == |s|
  }

  // opera_3do_state_load; the first format's loader is a parameter.
  function Load(env: Env, loadV1: (Machine, seq<Byte>) -> Step, m: Machine, s: seq<Byte>): Step
    requires MemShape(m.mem)
  {
    match Version(s)
    case 1 => loadV1(m, s)
    case 2 => LoadChunked(env, PARTS_V2, false, m, s, 2)
    case 3 => LoadChunked(env, PARTS, false, m, s, 3)
    case 4 => LoadChunked(env, PARTS, false, m, s, 4)
    case _ => Step(0, m)
  }

  // ---------- Saving ----------

  function MemFields(mem: Mem): seq<Field>
    requires MemShape(mem) && ValidCfg(mem.cfg)
  {
    [Num(1, mem.cfg), Num(4, RamBytes(mem.cfg)), Raw(mem.dram[..RamBytes(mem.cfg)]), Raw(mem.nvram)]
  }

  function PartFields(part: Part, m: Machine): seq<Field>
    requires MemShape(m.mem) && ValidCfg(m.mem.cfg)
  {
    if part == PMem then MemFields(m.mem) else FieldsOf(part, m)
  }

  function PartName(part: Part): Name { if part == PMem then MEM2 else Current(part).name }

  function PartChunk(part: Part, m: Machine): (c: seq<Byte>)
    requires MemShape(m.mem) && ValidCfg(m.mem.cfg)
    ensures |c| >= 8
  {
    Chunk(PartName(part), Encode(PartFields(part, m)))
  }

  function SaveParts(parts: seq<Part>, m: Machine): seq<Byte>
    requires MemShape(m.mem) && ValidCfg(m.mem.cfg)
  {
    if parts == [] then [] else PartChunk(parts[0], m) + SaveParts(parts[1..], m)
  }

  const CURRENT: nat := 4

  function HeaderFields(): seq<Field> { [Num(4, CURRENT), Num(4, 0)] }

  function XbusPayload(env: Env, m: Machine): seq<Byte>
  {
    Encode(XbusFields(m.xbus, CountFrom(env, 0))) + DeviceBytes(env, CdChunk(m.cd, m.clock.cycles), 0)
  }

  // The bytes of a state; saving refuses while the drive is blocked.
  function Save(env: Env, m: Machine): seq<Byte>
    requires MemShape(m.mem) && ValidCfg(m.mem.cfg)
  {
    Chunk(HEADER, Encode(HeaderFields())) + SaveParts(PARTS, m) + Chunk(XBUS, XbusPayload(env, m))
  }

  // What a machine in operation satisfies: every stored value in the range of its C type and every derived
  // one consistent.
  ghost predicate Saveable(m: Machine)
  {
    && MemShape(m.mem) && ValidCfg(m.mem.cfg)
    && m.mem == SetUp(m.mem, m.mem.cfg)
    && (forall part :: part != PMem ==> PartSaveable(part, m))
    && AllFit(XbusFields(m.xbus, 0), XBUS_KINDS)
    && Storable(m.cd, m.clock.cycles)
    && m.arm.limits == LimitsFor(m.arm.overlay, m.mem)
  }
}
