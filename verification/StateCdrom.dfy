/**
 The CD-ROM drive's chunk and the expansion-bus chunk that nests it. Deadlines
 are stored as the cycles left until them, so that loading one puts it back on
 the absolute cycle it stood on as long as the clock was restored before.

 Older drive layouts, resets and whatever a failing load leaves behind are
 parameters (`Env`): the results hold whatever they do.
 */
module StateCdrom {
  import opened Words
  import opened StateBytes
  import opened StateStreams

  const SECTOR_MAX: nat := 2449
  const MAX64: nat := 0xFFFF_FFFF_FFFF_FFFF
  const SLOTS: nat := 15
  const RESET_BIT: nat := 8  // POLREMASK

  const CDRM: Name := [0x43, 0x44, 0x52, 0x4D]
  const V2: nat := 2

  datatype Device = Device(
    poll: nat, xbusStatus: nat, statusLen: nat, status: seq<Byte>, readSize: nat, dataLen: nat, dataIdx: nat,
    data: seq<Byte>, blocks: nat, cmd: seq<Byte>, cmdIdx: nat, statCyc: nat, mei: nat, sector: nat,
    block: seq<Byte>, wireSize: nat, modes: seq<Byte>, disc: seq<Byte>)

  datatype Data = Data(
    nextReady: nat, queued: nat, drained: nat, emptyReads: nat, expectedLba: nat, haveExpected: bool, burst: bool,
    burstStarts: nat, minAhead: nat, maxAhead: nat, activeLba: nat, activeBytes: nat, baseLba: nat, baseCycle: nat,
    clockActive: bool, statusPending: bool, waitReady: nat, waitCycles: nat, maxWait: nat)

  datatype Cd = Cd(device: Device, data: Data, speed: nat, blocked: bool)

  datatype CdStep = CdStep(rv: nat, cd: Cd)

  datatype Env = Env(
    attached: set<nat>,                       // slots with a drive; every drive is the same device
    init: Cd -> Cd,                           // XBP_RESET
    localReset: Cd -> Cd,                     // on a device loaded with its reset bit set
    torn: (Cd, seq<Field>) -> Cd,             // a device whose loading failed half way
    legacy: (Cd, seq<Byte>) -> (bool, Cd))    // the two older layouts

  // ---------- Deadlines ----------

  function CyclesLeft(target: nat, now: nat): nat { if target <= now then 0 else target - now }

  function Age(base: nat, now: nat): nat { if base >= now then 0 else now - base }

  function After(now: nat, delta: nat): nat
  {
    if now + delta > MAX64 then MAX64 else now + delta
  }

  function Before(now: nat, age: nat): nat { if age > now then 0 else now - age }

  // ---------- Fields ----------

  const DEVICE_KINDS: seq<Kind> :=
    [KNum(1), KNum(1), KNum(1), KRaw(256), KNum(4), KNum(4), KNum(4), KRaw(SECTOR_MAX), KNum(4), KRaw(7), KNum(1),
     KNum(1), KNum(4), KNum(4), KRaw(4), KNum(4), KRaw(7), KRaw(813)]
  const DATA_KINDS: seq<Kind> :=
    [KNum(8), KNum(4), KNum(4), KNum(4), KNum(4), KNum(1), KNum(1), KNum(4), KNum(4), KNum(4), KNum(4), KNum(4),
     KNum(4), KNum(8), KNum(1), KNum(1), KNum(4), KNum(8), KNum(8)]
  const CD_KINDS: seq<Kind> := [KRaw(4), KNum(4)] + DEVICE_KINDS + DATA_KINDS + [KNum(4)]

  function Flag(b: bool): nat { if b then 1 else 0 }

  function DeviceFields(d: Device): (fs: seq<Field>)
    ensures |fs| == 18
  {
    [Num(1, d.poll), Num(1, d.xbusStatus), Num(1, d.statusLen), Raw(d.status), Num(4, d.readSize), Num(4, d.dataLen),
     Num(4, d.dataIdx), Raw(d.data), Num(4, d.blocks), Raw(d.cmd), Num(1, d.cmdIdx), Num(1, d.statCyc), Num(4, d.mei),
     Num(4, d.sector), Raw(d.block), Num(4, d.wireSize), Raw(d.modes), Raw(d.disc)]
  }

  function DeviceFrom(fs: seq<Field>): Device
    requires AllFit(fs, DEVICE_KINDS)
  {
    hide Pow256;
    Device(fs[0].v, fs[1].v, fs[2].v, fs[3].bytes, fs[4].v, fs[5].v, fs[6].v, fs[7].bytes, fs[8].v, fs[9].bytes,
           fs[10].v, fs[11].v, fs[12].v, fs[13].v, fs[14].bytes, fs[15].v, fs[16].bytes, fs[17].bytes)
  }

  // The range checks of cdrom_state_v2_device_load.
  predicate DeviceOk(d: Device)
  {
    && d.statusLen <= 256 && d.readSize <= SECTOR_MAX
    && d.dataIdx <= SECTOR_MAX && d.dataLen <= SECTOR_MAX - d.dataIdx
    && d.cmdIdx <= 7
  }

  function DataFields(d: Data, now: nat): (fs: seq<Field>)
    ensures |fs| == 19
  {
    [Num(8, CyclesLeft(d.nextReady, now)), Num(4, d.queued), Num(4, d.drained), Num(4, d.emptyReads),
     Num(4, d.expectedLba), Num(1, Flag(d.haveExpected)), Num(1, Flag(d.burst)), Num(4, d.burstStarts),
     Num(4, d.minAhead), Num(4, d.maxAhead), Num(4, d.activeLba), Num(4, d.activeBytes), Num(4, d.baseLba),
     Num(8, Age(d.baseCycle, now)), Num(1, Flag(d.clockActive)), Num(1, Flag(d.statusPending)), Num(4, d.waitReady),
     Num(8, d.waitCycles), Num(8, d.maxWait)]
  }

  function DataFrom(fs: seq<Field>, now: nat): Data
    requires AllFit(fs, DATA_KINDS)
  {
    hide Pow256;
    Data(if fs[0].v == 0 then 0 else After(now, fs[0].v), fs[1].v, fs[2].v, fs[3].v, fs[4].v, fs[5].v != 0,
         fs[6].v != 0, fs[7].v, fs[8].v, fs[9].v, fs[10].v, fs[11].v, fs[12].v, Before(now, fs[13].v), fs[14].v != 0,
         fs[15].v != 0, fs[16].v, fs[17].v, fs[18].v)
  }

  function CdFields(cd: Cd, now: nat): (fs: seq<Field>)
    ensures |fs| == 40
  {
    [Raw(CDRM), Num(4, V2)] + DeviceFields(cd.device) + DataFields(cd.data, now) + [Num(4, cd.speed)]
  }

  predicate SpeedOk(speed: nat) { speed in [0, 1, 2, 4, 8, 16, 24, 32] }

  predicate HeadOk(fs: seq<Field>)
    requires |fs| == 40
  {
    fs[0] == Raw(CDRM) && fs[1] == Num(4, V2) && fs[39].Num? && SpeedOk(fs[39].v)
  }

  lemma CdSlices(fs: seq<Field>)
    requires AllFit(fs, CD_KINDS)
    ensures |fs| == 40 && AllFit(fs[2..20], DEVICE_KINDS) && AllFit(fs[20..39], DATA_KINDS) && fs[39].Num?
  {
    hide Fits;
    assert CD_KINDS[2..20] == DEVICE_KINDS && CD_KINDS[20..39] == DATA_KINDS && CD_KINDS[39] == KNum(4);
    assert forall i :: 0 <= i < 18 ==> fs[2..20][i] == fs[2 + i] && DEVICE_KINDS[i] == CD_KINDS[2 + i];
    assert forall i :: 0 <= i < 19 ==> fs[20..39][i] == fs[20 + i] && DATA_KINDS[i] == CD_KINDS[20 + i];
    FitsNum(fs[39], 4);
  }

  lemma FitsNum(f: Field, w: nat)
    requires Fits(f, KNum(w))
    ensures f.Num?
  {
  }

  // ---------- Loading the drive ----------

  // The payload's fields, if it is a version 2 payload with nothing after it.
  function ParseCd(payload: seq<Byte>): (r: Option<seq<Field>>)
    ensures r.Some? ==> AllFit(r.value, CD_KINDS) && |r.value| == 40 && HeadOk(r.value)
  {
    hide Parse, Fits;
    EncodeParse(CD_KINDS, payload);
    match Parse(CD_KINDS, payload)
    case None => None
    case Some(p) =>
      CdSlices(p.fields);
      if p.rest == [] && HeadOk(p.fields) then Some(p.fields) else None
  }

  function DeviceIn(fs: seq<Field>): Device
    requires AllFit(fs, CD_KINDS)
  {
    CdSlices(fs);
    DeviceFrom(fs[2..20])
  }

  function DataIn(fs: seq<Field>, now: nat): Data
    requires AllFit(fs, CD_KINDS)
  {
    CdSlices(fs);
    DataFrom(fs[20..39], now)
  }

  // A drive loaded with its reset bit set is reset at once.
  function Woken(env: Env, cd: Cd): Cd
  {
    if (cd.device.poll / RESET_BIT) % 2 == 1 then env.localReset(cd) else cd
  }

  // opera_cdrom_state_load_v2. A dry run applies the device checks to a copy.
  function LoadCdV2(env: Env, dry: bool, cd: Cd, now: nat, s: seq<Byte>): (r: CdStep)
    ensures r.rv <= |s|
  {
    match Unchunk(CDRM, s)
    case None => CdStep(0, cd)
    case Some(f) =>
      match ParseCd(f.payload)
      case None => CdStep(0, cd)
      case Some(fs) =>
        var device := DeviceIn(fs);
        if dry then CdStep(if DeviceOk(device) then f.used else 0, cd)
        else if !DeviceOk(device) then CdStep(0, env.torn(cd, fs))
        else CdStep(f.used, Woken(env, Cd(device, DataIn(fs, now), fs[39].v, false)))
  }

  // opera_cdrom_state_load
  function LoadCd(env: Env, dry: bool, cd: Cd, now: nat, s: seq<Byte>): (r: CdStep)
    ensures r.rv <= |s|
  {
    match Unchunk(CDRM, s)
    case None => CdStep(0, cd)
    case Some(f) =>
      var first := if |f.payload| == TotalSize(CD_KINDS) then LoadCdV2(env, dry, cd, now, s[..f.used])
                   else CdStep(0, cd);
      if first.rv != 0 || dry then first
      else
        var (ok, older) := env.legacy(first.cd, f.payload);
        CdStep(if ok then f.used else 0, older)
  }

  ghost predicate NoLegacy(env: Env) { forall cd, payload :: !env.legacy(cd, payload).0 }

  // A dry run leaves the drive alone, and what it accepts loads, whatever the drive held and whenever it is.
  lemma CdDryRun(env: Env, cd: Cd, now: nat, other: Cd, later: nat, s: seq<Byte>)
    ensures LoadCd(env, true, cd, now, s).cd == cd
    ensures LoadCd(env, true, cd, now, s).rv != 0 ==>
              LoadCd(env, false, other, later, s).rv == LoadCd(env, true, cd, now, s).rv
    ensures NoLegacy(env) ==> LoadCd(env, false, other, later, s).rv == LoadCd(env, true, cd, now, s).rv
  {
    hide ParseCd, Unchunk, TotalSize, DeviceIn, DataIn, DeviceOk, CD_KINDS, Woken;
  }

  // An older layout is never accepted by a dry run, though it may load.
  lemma OlderLayoutOnlyLoads(env: Env, cd: Cd, now: nat, s: seq<Byte>)
    requires Unchunk(CDRM, s).Some? && |Unchunk(CDRM, s).value.payload| != TotalSize(CD_KINDS)
    ensures LoadCd(env, true, cd, now, s).rv == 0
    ensures LoadCd(env, false, cd, now, s).rv != 0 <==> env.legacy(cd, Unchunk(CDRM, s).value.payload).0
  {
    hide TotalSize, CD_KINDS, LoadCdV2;
  }

  // ---------- The drives on the bus ----------

  datatype Devices = Devices(ok: bool, cd: Cd, rest: seq<Byte>)

  // One slot number and the chunk after it.
  function LoadDevice(env: Env, dry: bool, cd: Cd, now: nat, s: seq<Byte>): (r: Devices)
  {
    if s == [] || s[0] >= SLOTS || s[0] !in env.attached then Devices(false, cd, s)
    else
      var step := LoadCd(env, dry, if dry then cd else env.init(cd), now, s[1..]);
      if step.rv == 0 then Devices(false, step.cd, s) else Devices(true, step.cd, s[1 + step.rv..])
  }

  // The device loop of opera_xbus_state_load: a slot number and a nested chunk each.
  function LoadDevices(env: Env, dry: bool, cd: Cd, now: nat, n: nat, s: seq<Byte>): (r: Devices)
    decreases n
  {
    if n == 0 then Devices(true, cd, s)
    else
      var d := LoadDevice(env, dry, cd, now, s);
      if d.ok then LoadDevices(env, dry, d.cd, now, n - 1, d.rest) else d
  }

  lemma DeviceDryRun(env: Env, cd: Cd, now: nat, other: Cd, later: nat, s: seq<Byte>)
    ensures LoadDevice(env, true, cd, now, s).cd == cd
    ensures var loaded, rehearsed := LoadDevice(env, false, other, later, s), LoadDevice(env, true, cd, now, s);
            rehearsed.ok || NoLegacy(env) ==> loaded.ok == rehearsed.ok && loaded.rest == rehearsed.rest
  {
    hide LoadCd, NoLegacy;
    if s != [] {
      CdDryRun(env, cd, now, env.init(other), later, s[1..]);
    }
  }

  lemma {:induction false} DevicesDryRun(
    env: Env, cd: Cd, now: nat, other: Cd, later: nat, n: nat, s: seq<Byte>)
    decreases n
    ensures LoadDevices(env, true, cd, now, n, s).cd == cd
    ensures var loaded, rehearsed := LoadDevices(env, false, other, later, n, s), LoadDevices(env, true, cd, now, n, s);
            && (rehearsed.ok ==> loaded.ok && loaded.rest == rehearsed.rest)
            && (NoLegacy(env) ==> loaded.ok == rehearsed.ok && loaded.rest == rehearsed.rest)
  {
    hide LoadDevice, NoLegacy;
    if n > 0 {
      DeviceDryRun(env, cd, now, other, later, s);
      var rehearsed, loaded := LoadDevice(env, true, cd, now, s), LoadDevice(env, false, other, later, s);
      DevicesDryRun(env, cd, now, loaded.cd, later, n - 1, rehearsed.rest);
    }
  }

  // A dry run does not look at the clock.
  lemma DeviceIgnoresClock(env: Env, cd: Cd, now: nat, later: nat, s: seq<Byte>)
    ensures LoadDevice(env, true, cd, now, s) == LoadDevice(env, true, cd, later, s)
  {
    hide ParseCd, Unchunk, TotalSize, DeviceIn, DataIn, DeviceOk, CD_KINDS, Woken;
    if s != [] {
      assert LoadCd(env, true, cd, now, s[1..]) == LoadCd(env, true, cd, later, s[1..]);
    }
  }

  lemma {:induction false} DryRunIgnoresClock(env: Env, cd: Cd, now: nat, later: nat, n: nat, s: seq<Byte>)
    ensures LoadDevices(env, true, cd, now, n, s) == LoadDevices(env, true, cd, later, n, s)
    decreases n
  {
    hide LoadDevice;
    if n > 0 {
      DeviceIgnoresClock(env, cd, now, later, s);
      var d := LoadDevice(env, true, cd, now, s);
      DryRunIgnoresClock(env, d.cd, now, later, n - 1, d.rest);
    }
  }

  // ---------- Saving and loading back ----------

  // A deadline already passed reads as none, a base still to come as the present.
  function Settled(d: Data, now: nat): Data
  {
    d.(nextReady := if d.nextReady <= now then 0 else d.nextReady, baseCycle := Min(d.baseCycle, now))
  }

  predicate Storable(cd: Cd, now: nat)
  {
    && AllFit(DeviceFields(cd.device), DEVICE_KINDS) && AllFit(DataFields(cd.data, now), DATA_KINDS)
    && DeviceOk(cd.device) && SpeedOk(cd.speed) && cd.data.nextReady <= MAX64 && now <= MAX64
  }

  lemma DataRestored(d: Data, now: nat)
    requires AllFit(DataFields(d, now), DATA_KINDS) && d.nextReady <= MAX64
    ensures DataFrom(DataFields(d, now), now) == Settled(d, now)
  {
    hide AllFit, Fits, Pow256;
  }

  lemma DeviceRestored(d: Device)
    requires AllFit(DeviceFields(d), DEVICE_KINDS)
    ensures DeviceFrom(DeviceFields(d)) == d
  {
    hide AllFit, Fits, Pow256;
  }

  lemma CdFieldsFit(cd: Cd, now: nat)
    requires Storable(cd, now)
    ensures AllFit(CdFields(cd, now), CD_KINDS)
    ensures CdFields(cd, now)[2..20] == DeviceFields(cd.device) && CdFields(cd, now)[20..39] == DataFields(cd.data, now)
    ensures HeadOk(CdFields(cd, now))
  {
    var device, data := DeviceFields(cd.device), DataFields(cd.data, now);
    AllFitAppend([Raw(CDRM), Num(4, V2)], [KRaw(4), KNum(4)], device, DEVICE_KINDS);
    AllFitAppend([Raw(CDRM), Num(4, V2)] + device, [KRaw(4), KNum(4)] + DEVICE_KINDS, data, DATA_KINDS);
    AllFitAppend([Raw(CDRM), Num(4, V2)] + device + data, [KRaw(4), KNum(4)] + DEVICE_KINDS + DATA_KINDS,
                 [Num(4, cd.speed)], [KNum(4)]);
  }

  lemma AllFitAppend(a: seq<Field>, ka: seq<Kind>, b: seq<Field>, kb: seq<Kind>)
    requires AllFit(a, ka) && AllFit(b, kb)
    ensures AllFit(a + b, ka + kb)
  {
    hide Fits;
  }

  lemma CdSizeBound()
    ensures TotalSize(CD_KINDS) <= 40 * SECTOR_MAX
  {
    TotalSizeBound(CD_KINDS, SECTOR_MAX);
  }

  lemma {:induction false} TotalSizeBound(kinds: seq<Kind>, b: nat)
    requires forall i :: 0 <= i < |kinds| ==> KindSize(kinds[i]) <= b
    ensures TotalSize(kinds) <= |kinds| * b
  {
    hide KindSize;
    if kinds != [] {
      TotalSizeBound(kinds[1..], b);
      assert |kinds| * b == b + (|kinds| - 1) * b;
    }
  }

  // What loading a saved drive gives: everything stored, with deadlines on their cycles.
  function Reloaded(env: Env, cd: Cd, now: nat): Cd
  {
    Woken(env, Cd(cd.device, Settled(cd.data, now), cd.speed, false))
  }

  function CdChunk(cd: Cd, now: nat): seq<Byte> { Chunk(CDRM, Encode(CdFields(cd, now))) }

  lemma CdParsed(cd: Cd, now: nat)
    requires Storable(cd, now)
    ensures |Encode(CdFields(cd, now))| == TotalSize(CD_KINDS)
    ensures ParseCd(Encode(CdFields(cd, now))) == Some(CdFields(cd, now))
  {
    hide AllFit, Fits, TotalSize, CD_KINDS, CdFields, Storable, HeadOk;
    CdFieldsFit(cd, now);
    var s := Encode(CdFields(cd, now));
    ParseEncode(CD_KINDS, CdFields(cd, now), []);
    assert s + [] == s;
  }

  lemma CdRestored(env: Env, dry: bool, was: Cd, cd: Cd, now: nat, rest: seq<Byte>)
    requires Storable(cd, now)
    ensures LoadCd(env, dry, was, now, CdChunk(cd, now) + rest)
         == CdStep(|CdChunk(cd, now)|, if dry then was else Reloaded(env, cd, now))
  {
    hide AllFit, Fits, TotalSize, CD_KINDS, ParseCd, Encode, Unchunk, DeviceFrom, DataFrom;
    var fs := CdFields(cd, now);
    var payload := Encode(fs);
    CdParsed(cd, now);
    CdSizeBound();
    UnchunkChunk(CDRM, payload, rest);
    UnchunkChunk(CDRM, payload, []);
    var s := CdChunk(cd, now) + rest;
    assert s[..8 + |payload|] == CdChunk(cd, now) + [];
    CdFieldsFit(cd, now);
    DeviceRestored(cd.device);
    DataRestored(cd.data, now);
  }

  function CountFrom(env: Env, i: nat): nat
    decreases SLOTS - i
  {
    if i >= SLOTS then 0 else (if i in env.attached then 1 else 0) + CountFrom(env, i + 1)
  }

  function DeviceBytes(env: Env, chunk: seq<Byte>, i: nat): seq<Byte>
    decreases SLOTS - i
  {
    if i >= SLOTS then []
    else (if i in env.attached then [i] + chunk else []) + DeviceBytes(env, chunk, i + 1)
  }

  lemma OneDeviceRestored(env: Env, dry: bool, was: Cd, cd: Cd, now: nat, i: nat, n: nat, rest: seq<Byte>)
    requires Storable(cd, now) && i < SLOTS && i in env.attached
    ensures LoadDevices(env, dry, was, now, n + 1, [i] + CdChunk(cd, now) + rest)
         == LoadDevices(env, dry, if dry then was else Reloaded(env, cd, now), now, n, rest)
  {
    hide Storable, CdChunk, LoadCd, Reloaded;
    var chunk := CdChunk(cd, now);
    var s := [i] + chunk + rest;
    CdRestored(env, dry, if dry then was else env.init(was), cd, now, rest);
    ChunkNotEmpty(cd, now);
    assert s[1..] == chunk + rest;
    assert s[1 + |chunk|..] == rest;
  }

  lemma {:induction false} DevicesRestored(env: Env, dry: bool, was: Cd, cd: Cd, now: nat, i: nat)
    requires Storable(cd, now)
    ensures LoadDevices(env, dry, was, now, CountFrom(env, i), DeviceBytes(env, CdChunk(cd, now), i))
         == Devices(true, if dry || CountFrom(env, i) == 0 then was else Reloaded(env, cd, now), [])
    decreases SLOTS - i
  {
    hide Storable, CdChunk, LoadCd, LoadDevices, Reloaded;
    if i >= SLOTS {
      NoDevices(env, dry, was, now);
    } else {
      var chunk := CdChunk(cd, now);
      var n, rest := CountFrom(env, i + 1), DeviceBytes(env, chunk, i + 1);
      if i in env.attached {
        OneDeviceRestored(env, dry, was, cd, now, i, n, rest);
        DevicesRestored(env, dry, if dry then was else Reloaded(env, cd, now), cd, now, i + 1);
      } else {
        DevicesRestored(env, dry, was, cd, now, i + 1);
        assert [] + rest == rest;
      }
    }
  }

  lemma NoDevices(env: Env, dry: bool, was: Cd, now: nat)
    ensures LoadDevices(env, dry, was, now, 0, []) == Devices(true, was, [])
  {
  }

  lemma ChunkNotEmpty(cd: Cd, now: nat)
    ensures |CdChunk(cd, now)| >= 8
  {
  }
}
