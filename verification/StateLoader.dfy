/**
 The save-state code itself: the loaders, which read a buffer step by step and
 change the machine unless they are only validating, and the saver, which
 measures and then fills a buffer. Each method meets its function in `StateFile`.
 */
module StateLoader {
  import opened Words
  import opened StateBytes
  import opened StateStreams
  import opened StateCdrom
  import opened StateParts
  import F = StateFile
  import T = StateTheorems

  class Console {
    const env: Env
    const loadV1: (Machine, seq<Byte>) -> F.Step
    var m: Machine
    var validating: bool

    constructor (env: Env, loadV1: (Machine, seq<Byte>) -> F.Step, m: Machine)
      ensures this.env == env && this.loadV1 == loadV1 && this.m == m && !validating
    {
      this.env, this.loadV1, this.m, validating := env, loadV1, m, false;
    }

    // Fixed fields, then the tail unless nothing is left, then nothing.
    static method ReadTailed(payload: Reader, kinds: seq<Kind>, tail: seq<Kind>) returns (ok: bool, fs: seq<Field>)
      requires payload.Valid() && !payload.failed && payload.offset == 0
      modifies payload
      ensures ok <==> F.ParseTailed(kinds, tail, payload.data).Some?
      ensures ok ==> F.ParseTailed(kinds, tail, payload.data) == Some(fs)
    {
      hide Parse, AllFit;
      assert payload.Rest() == payload.data;
      ok, fs := payload.ReadFields(kinds);
      if ok && payload.Remaining() != 0 {
        var more;
        ok, more := payload.ReadFields(tail);
        fs := fs + more;
      }
      ok := ok && payload.Finished();
    }

    // The loader every component but memory has.
    method LoadFixed(part: Part, data: seq<Byte>) returns (rv: nat)
      requires part != PMem
      modifies this`m
      ensures F.Step(rv, m) == F.LoadFixed(part, validating, old(m), data)
    {
      hide F.ParseTailed, Unchunk, Install, Accepts, LayoutOf, AllFit;
      var layout := LayoutOf(part, data);
      var reader := new Reader(data);
      var ok, payload := reader.ReadChunk(layout.name);
      if !ok {
        return 0;
      }
      var fs;
      ok, fs := ReadTailed(payload, layout.kinds, layout.tail);
      if !ok {
        return 0;
      }
      assert Shaped(LayoutOf(part, data), fs);
      if !Accepts(part, fs) {
        return 0;
      }
      if !validating {
        m := Install(part, m, fs);
      }
      return reader.offset;
    }

    // The configuration byte both memory chunks start with.
    static method ReadCfg(payload: Reader) returns (ok: bool, cfg: nat)
      requires payload.Valid() && !payload.failed && payload.offset == 0
      modifies payload
      ensures payload.Valid()
      ensures ok <==> |payload.data| >= 1 && ValidCfg(payload.data[0])
      ensures ok ==> cfg == payload.data[0] && !payload.failed && payload.offset == 1
    {
      hide FromLe, ValidCfg;
      assert payload.Rest() == payload.data;
      ok, cfg := payload.ReadUint(1);
      if ok {
        OneByte(payload.data);
        ok := ValidCfg(cfg);
      }
    }

    // Everything in a MEM2 payload up to the bulk.
    static method ReadMem2Head(payload: Reader) returns (ok: bool, cfg: nat, n: nat)
      requires payload.Valid() && !payload.failed && payload.offset == 0
      modifies payload
      ensures payload.Valid() && ok == F.Mem2Ok(payload.data)
      ensures ok ==> cfg == payload.data[0] && n == RamBytes(cfg) && !payload.failed && payload.offset == 5
    {
      hide FromLe, ValidCfg, RamBytes;
      ghost var p := payload.data;
      n := 0;
      ok, cfg := ReadCfg(payload);
      if ok {
        ok, n := payload.ReadUint(4);
        assert ok ==> p[1..][..4] == p[1..5];
        ok := ok && n == RamBytes(cfg) && n <= MAX_RAM && payload.Remaining() == n + NVRAM_SIZE;
      }
    }

    static method CopyMem2(payload: Reader, mem: Mem, cfg: nat, n: nat) returns (r: Mem)
      requires MemShape(mem) && F.Mem2Ok(payload.data) && cfg == payload.data[0] && n == RamBytes(cfg)
      requires payload.Valid() && !payload.failed && payload.offset == 5
      modifies payload
      ensures r == F.Mem2From(mem, payload.data)
    {
      hide FromLe, ValidCfg, RamBytes, SetUp;
      ghost var p := payload.data;
      var ok, ram := payload.ReadBytes(n);
      assert ram == p[5..5 + n] && payload.Rest() == p[5 + n..];
      var nvram;
      ok, nvram := payload.ReadBytes(NVRAM_SIZE);
      assert nvram == p[5 + n..];
      r := SetUp(mem, cfg).(dram := ram + mem.dram[n..], nvram := nvram);
    }

    method LoadMem2(data: seq<Byte>) returns (rv: nat)
      requires MemShape(m.mem)
      modifies this`m
      ensures F.Step(rv, m) == F.LoadMem2(validating, old(m), data)
    {
      hide Unchunk, F.Mem2From, F.Mem2Ok, RamBytes, MemShape;
      var reader := new Reader(data);
      var ok, payload := reader.ReadChunk(MEM2);
      if !ok {
        return 0;
      }
      var cfg, n;
      ok, cfg, n := ReadMem2Head(payload);
      if !ok {
        return 0;
      }
      if validating {
        ok := payload.SkipBytes(payload.Remaining());
        assert payload.Finished();
        return reader.offset;
      }
      var mem := CopyMem2(payload, m.mem, cfg, n);
      m := m.(mem := mem);
      return reader.offset;
    }

    static method CopyMem(payload: Reader, mem: Mem, cfg: nat) returns (r: Mem)
      requires MemShape(mem) && F.MemOk(payload.data) && cfg == payload.data[0]
      requires payload.Valid() && !payload.failed && payload.offset == 1
      modifies payload
      ensures r == F.MemFrom(mem, payload.data)
    {
      hide ValidCfg, SetUp;
      ghost var p := payload.data;
      ghost var a, b, c := 1 + MAX_RAM, 1 + MAX_RAM + ROM_SIZE, 1 + MAX_RAM + ROM_SIZE + ROM_SIZE;
      var ok, dram, rom1, rom2, nvram;
      ok, dram := payload.ReadBytes(MAX_RAM);
      assert dram == p[1..a] && payload.Rest() == p[a..];
      ok, rom1 := payload.ReadBytes(ROM_SIZE);
      assert rom1 == p[a..b] && payload.Rest() == p[b..];
      ok, rom2 := payload.ReadBytes(ROM_SIZE);
      assert rom2 == p[b..c] && payload.Rest() == p[c..];
      ok, nvram := payload.ReadBytes(NVRAM_SIZE);
      assert nvram == p[c..];
      r := SetUp(mem, cfg).(dram := dram, rom1 := rom1, rom2 := rom2, nvram := nvram);
    }

    method LoadMem(data: seq<Byte>) returns (rv: nat)
      requires MemShape(m.mem)
      modifies this`m
      ensures F.Step(rv, m) == F.LoadMem(validating, old(m), data)
    {
      hide Unchunk, F.MemFrom, ValidCfg, MemShape;
      var reader := new Reader(data);
      var ok, payload := reader.ReadChunk(MEM);
      if !ok {
        return 0;
      }
      var cfg;
      ok, cfg := ReadCfg(payload);
      if !ok || payload.Remaining() != MAX_RAM + ROM_SIZE + ROM_SIZE + NVRAM_SIZE {
        return 0;
      }
      if validating {
        ok := payload.SkipBytes(payload.Remaining());
        assert payload.Finished();
        return reader.offset;
      }
      var mem := CopyMem(payload, m.mem, cfg);
      m := m.(mem := mem);
      return reader.offset;
    }

    method LoadPart(part: Part, data: seq<Byte>) returns (rv: nat)
      requires MemShape(m.mem)
      modifies this`m
      ensures F.Step(rv, m) == F.LoadPart(part, validating, old(m), data)
    {
      hide F.LoadFixed, F.LoadMem, F.LoadMem2;
      if part != PMem {
        rv := LoadFixed(part, data);
      } else if |data| >= 4 && data[..4] == MEM2 {
        rv := LoadMem2(data);
      } else {
        rv := LoadMem(data);
      }
    }

    // ---------- The drive ----------

    method LoadCdV2(data: seq<Byte>) returns (rv: nat)
      modifies this`m
      ensures m == old(m).(cd := m.cd)
      ensures CdStep(rv, m.cd) == StateCdrom.LoadCdV2(env, validating, old(m).cd, old(m).clock.cycles, data)
    {
      hide Parse, Unchunk, AllFit, CD_KINDS, HeadOk, DeviceIn, DataIn, Woken, DeviceOk;
      var reader := new Reader(data);
      var ok, payload := reader.ReadChunk(CDRM);
      if !ok {
        return 0;
      }
      assert payload.Rest() == payload.data;
      EncodeParse(CD_KINDS, payload.data);
      var fs;
      ok, fs := payload.ReadFields(CD_KINDS);
      if !ok {
        return 0;
      }
      CdSlices(fs);
      if !HeadOk(fs) || !payload.Finished() {
        return 0;
      }
      assert ParseCd(payload.data) == Some(fs);
      var device := DeviceIn(fs);
      if validating {
        return if DeviceOk(device) then reader.offset else 0;
      }
      if !DeviceOk(device) {
        m := m.(cd := env.torn(m.cd, fs));
        return 0;
      }
      m := m.(cd := Woken(env, Cd(device, DataIn(fs, m.clock.cycles), fs[39].v, false)));
      return reader.offset;
    }

    method LoadCd(data: seq<Byte>) returns (rv: nat)
      modifies this`m
      ensures m == old(m).(cd := m.cd)
      ensures CdStep(rv, m.cd) == StateCdrom.LoadCd(env, validating, old(m).cd, old(m).clock.cycles, data)
    {
      hide Unchunk, StateCdrom.LoadCdV2, TotalSize, CD_KINDS;
      var reader := new Reader(data);
      var ok, payload := reader.ReadChunk(CDRM);
      if !ok {
        return 0;
      }
      var used := reader.offset;
      rv := 0;
      if |payload.data| == TotalSize(CD_KINDS) {
        rv := LoadCdV2(data[..used]);
        if rv != 0 {
          return;
        }
      }
      if validating {
        return;
      }
      var (older, cd) := env.legacy(m.cd, payload.data);
      m := m.(cd := cd);
      return if older then used else 0;
    }

    static method ReadXbusHead(payload: Reader) returns (ok: bool, xbus: Xbus, count: nat)
      requires payload.Valid() && !payload.failed && payload.offset == 0
      modifies payload
      ensures payload.Valid()
      ensures ok <==> F.ParseXbus(payload.data).Some?
      ensures ok ==> F.ParseXbus(payload.data) == Some(F.XbusHead(xbus, count, payload.Rest())) && !payload.failed
    {
      hide Parse, Fits;
      assert payload.Rest() == payload.data;
      EncodeParse(F.XBUS_KINDS, payload.data);
      var fs;
      xbus, count := Xbus(0, 0, 0, 0, [], 0, [], 0), 0;
      ok, fs := payload.ReadFields(F.XBUS_KINDS);
      if ok {
        HeadCount(fs);
        ok, xbus, count := fs[8].v <= 15, F.XbusFrom(fs), fs[8].v;
      }
    }

    // The bus chunk up to its devices.
    static method OpenXbus(data: seq<Byte>) returns (ok: bool, payload: Reader, xbus: Xbus, count: nat, used: nat)
      ensures fresh(payload) && payload.Valid()
      ensures ok <==> Unchunk(F.XBUS, data).Some? && F.ParseXbus(Unchunk(F.XBUS, data).value.payload).Some?
      ensures ok ==>
                && !payload.failed && used == Unchunk(F.XBUS, data).value.used
                && F.ParseXbus(Unchunk(F.XBUS, data).value.payload) == Some(F.XbusHead(xbus, count, payload.Rest()))
    {
      hide F.ParseXbus, Unchunk;
      xbus, count, used := Xbus(0, 0, 0, 0, [], 0, [], 0), 0, 0;
      var reader := new Reader(data);
      ok, payload := reader.ReadChunk(F.XBUS);
      if ok {
        ok, xbus, count := ReadXbusHead(payload);
        used := reader.offset;
      }
    }

    method LoadXbus(data: seq<Byte>) returns (rv: nat)
      requires MemShape(m.mem)
      modifies this`m
      ensures F.Step(rv, m) == F.LoadXbus(env, validating, old(m), data)
    {
      hide F.ParseXbus, Unchunk, MemShape, StateCdrom.LoadDevices;
      var ok, payload, xbus, count, used := OpenXbus(data);
      if !ok {
        return 0;
      }
      if !validating {
        m := m.(xbus := xbus);
      }
      ok := LoadDevices(payload, count);
      if !ok || !payload.Finished() {
        return 0;
      }
      return used;
    }

    // A slot number, refused unless a drive is attached there.
    method ReadSlot(payload: Reader) returns (ok: bool)
      requires payload.Valid() && !payload.failed
      modifies payload
      ensures payload.Valid()
      ensures ok <==> var s := old(payload.Rest()); s != [] && s[0] < SLOTS && s[0] in env.attached
      ensures ok ==> !payload.failed && payload.Rest() == old(payload.Rest())[1..]
    {
      hide FromLe;
      ghost var s := payload.Rest();
      var slot;
      ok, slot := payload.ReadUint(1);
      if ok {
        OneByte(s);
        ok := slot < SLOTS && slot in env.attached;
      }
    }

    method LoadDevice(payload: Reader) returns (ok: bool)
      requires payload.Valid() && !payload.failed
      modifies this`m, payload
      ensures payload.Valid() && m == old(m).(cd := m.cd)
      ensures var d := StateCdrom.LoadDevice(env, validating, old(m).cd, old(m).clock.cycles, old(payload.Rest()));
              m.cd == d.cd && ok == d.ok && (ok ==> payload.Rest() == d.rest && !payload.failed)
    {
      hide StateCdrom.LoadCd;
      ok := ReadSlot(payload);
      if !ok {
        return;
      }
      if !validating {
        m := m.(cd := env.init(m.cd));
      }
      var rv := LoadCd(payload.Rest());
      if rv == 0 {
        return false;
      }
      ghost var s := payload.Rest();
      payload.offset := payload.offset + rv;
      assert payload.Rest() == s[rv..] == old(payload.Rest())[1 + rv..];
    }

    method LoadDevices(payload: Reader, count: nat) returns (ok: bool)
      requires payload.Valid() && !payload.failed
      modifies this`m, payload
      ensures payload.Valid() && m == old(m).(cd := m.cd)
      ensures var now, s := old(m).clock.cycles, old(payload.Rest());
              var d := StateCdrom.LoadDevices(env, validating, old(m).cd, now, count, s);
              m.cd == d.cd && ok == d.ok && (ok ==> payload.Rest() == d.rest && !payload.failed)
    {
      hide StateCdrom.LoadDevice;
      ghost var now, start := m.clock.cycles, payload.Rest();
      var i := 0;
      ok := true;
      while i < count
        invariant 0 <= i <= count && payload.Valid() && !payload.failed && ok
        invariant m == old(m).(cd := m.cd)
        invariant StateCdrom.LoadDevices(env, validating, old(m).cd, now, count, start)
               == StateCdrom.LoadDevices(env, validating, m.cd, now, count - i, payload.Rest())
      {
        ok := LoadDevice(payload);
        if !ok {
          return;
        }
        i := i + 1;
      }
    }

    // ---------- The file ----------

    method LoadChunked(parts: seq<Part>, data: seq<Byte>, version: nat) returns (rv: nat)
      requires MemShape(m.mem)
      modifies this`m
      ensures F.Step(rv, m) == F.LoadChunked(env, parts, validating, old(m), data, version)
    {
      hide F.LoadParts, F.LoadXbus, F.HeaderSize, F.LoadPart, F.Finished, MemShape;
      if |data| > MAX32 {
        return 0;
      }
      var used := ReadHeader(version, data);
      if used == 0 {
        return 0;
      }
      var ok, at := LoadParts(parts, data, used);
      if !ok {
        return 0;
      }
      rv := LoadXbus(data[at..]);
      if rv == 0 || at + rv != |data| {
        return 0;
      }
      if !validating {
        m := F.Finished(m);
      }
      return |data|;
    }

    method ReadHeader(version: nat, data: seq<Byte>) returns (used: nat)
      ensures used == F.HeaderSize(version, data)
    {
      hide Parse, Unchunk;
      var reader := new Reader(data);
      var ok, payload := reader.ReadChunk(F.HEADER);
      if !ok {
        return 0;
      }
      assert payload.Rest() == payload.data;
      EncodeParse(F.HEADER_KINDS, payload.data);
      var fs;
      ok, fs := payload.ReadFields(F.HEADER_KINDS);
      if !ok || fs[0].v != version || fs[1].v != 0 || !payload.Finished() {
        return 0;
      }
      return reader.offset;
    }

    // The load steps, one part after the other; `at` is where in the data the next one starts.
    method LoadParts(parts: seq<Part>, data: seq<Byte>, start: nat) returns (ok: bool, at: nat)
      requires MemShape(m.mem) && start <= |data|
      modifies this`m
      ensures at <= |data| && F.Progress(ok, m, data[at..]) == F.LoadParts(parts, validating, old(m), data[start..])
      ensures MemShape(m.mem)
    {
      hide F.LoadPart, F.AfterPart, MemShape;
      var i := 0;
      at := start;
      assert parts[0..] == parts;
      while i < |parts|
        invariant 0 <= i <= |parts| && at <= |data| && MemShape(m.mem)
        invariant F.LoadParts(parts, validating, old(m), data[start..])
               == F.LoadParts(parts[i..], validating, m, data[at..])
      {
        assert parts[i..][1..] == parts[i + 1..];
        var rv := LoadPart(parts[i], data[at..]);
        if rv == 0 {
          return false, at;
        }
        if !validating {
          T.SyncKeepsShape(parts[i], m);
          m := F.AfterPart(parts[i], m);
        }
        assert data[at..][rv..] == data[at + rv..];
        at := at + rv;
        i := i + 1;
      }
      return true, at;
    }

    method Validate(data: seq<Byte>) returns (ok: bool)
      requires MemShape(m.mem) && !validating
      modifies this
      ensures m == old(m) && !validating
      ensures ok == F.Validate(env, m, data)
    {
      hide F.LoadChunked, F.Version, F.PARTS;
      var version := F.Version(data);
      if version != 3 && version != 4 {
        return false;
      }
      validating := true;
      var rv := LoadChunked(F.PARTS, data, version);
      T.DryRunChangesNothing(env, F.PARTS, old(m), data, version);
      validating := false;
      return rv != 0 && rv == |data|;
    }

    method Load(data: seq<Byte>) returns (rv: nat)
      requires MemShape(m.mem) && !validating
      modifies this`m
      ensures F.Step(rv, m) == F.Load(env, loadV1, old(m), data)
    {
      hide F.LoadChunked, F.Version, F.PARTS, F.PARTS_V2;
      match F.Version(data)
      case 1 =>
        var step := loadV1(m, data);
        m := step.m;
        return step.rv;
      case 2 => rv := LoadChunked(F.PARTS_V2, data, 2);
      case 3 => rv := LoadChunked(F.PARTS, data, 3);
      case 4 => rv := LoadChunked(F.PARTS, data, 4);
      case _ => return 0;
    }
  }

  // ---------- Saving ----------

  // The bus payload, with the drive's chunk after each occupied slot's number.
  // A drive that refuses to be saved makes the writer fail.
  method WriteXbus(env: Env, m: Machine, w: Writer) returns (ok: bool)
    requires w.Valid() && !w.failed && Storable(m.cd, m.clock.cycles)
    requires w.Room(w.offset + |F.XbusPayload(env, m)|)
    modifies w, w.data
    ensures w.Valid() && ok == !w.failed
    ensures ok <==> !(m.cd.blocked && CountFrom(env, 0) > 0)
    ensures ok ==> w.offset == old(w.offset) + |F.XbusPayload(env, m)|
    ensures ok && w.data != null ==>
              w.Buffer() == Overwrite(old(w.Buffer()), w.base + old(w.offset), F.XbusPayload(env, m))
  {
    hide Encode, Storable, Overwrite, F.XbusFields, CdChunk, DeviceBytes, CountFrom;
    var count := CountDevices(env);
    ok := w.WriteFields(F.XbusFields(m.xbus, count));
    ghost var head, chunk := Encode(F.XbusFields(m.xbus, count)), CdChunk(m.cd, m.clock.cycles);
    ghost var done := head;
    var i := 0;
    assert head + DeviceBytes(env, chunk, 0) == F.XbusPayload(env, m);
    while i < SLOTS
      invariant 0 <= i <= SLOTS && w.Valid() && !w.failed && ok
      invariant m.cd.blocked ==> CountFrom(env, i) == CountFrom(env, 0)
      invariant done + DeviceBytes(env, chunk, i) == F.XbusPayload(env, m)
      invariant w.offset == old(w.offset) + |done|
      invariant w.data != null ==> w.Buffer() == Overwrite(old(w.Buffer()), w.base + old(w.offset), done)
    {
      DeviceStep(env, chunk, i, done);
      if i in env.attached {
        if m.cd.blocked {
          w.failed := true;
          return false;
        }
        var slot: Byte := i;
        WriteDevice(m, w, slot);
        if w.data != null {
          OverwriteTwice(old(w.Buffer()), w.base + old(w.offset), done, [slot] + chunk);
        }
        done := done + ([slot] + chunk);
      }
      i := i + 1;
    }
    DeviceStep(env, chunk, i, done);
  }

  // One slot of the devices still to be written.
  lemma {:induction false} SlotStep(env: Env, chunk: seq<Byte>, i: nat)
    ensures i >= SLOTS ==> DeviceBytes(env, chunk, i) == [] && CountFrom(env, i) == 0
    ensures i < SLOTS && i in env.attached ==>
              && DeviceBytes(env, chunk, i) == [i] + chunk + DeviceBytes(env, chunk, i + 1)
              && CountFrom(env, i) == 1 + CountFrom(env, i + 1)
    ensures i < SLOTS && i !in env.attached ==>
              && DeviceBytes(env, chunk, i) == [] + DeviceBytes(env, chunk, i + 1)
              && CountFrom(env, i) == CountFrom(env, i + 1)
  {
  }

  // The device loop's view of what is still to be written.
  lemma {:induction false} DeviceStep(env: Env, chunk: seq<Byte>, i: nat, done: seq<Byte>)
    ensures i >= SLOTS ==> done + DeviceBytes(env, chunk, i) == done && CountFrom(env, i) == 0
    ensures i < SLOTS && i in env.attached ==>
              && done + DeviceBytes(env, chunk, i) == done + ([i] + chunk) + DeviceBytes(env, chunk, i + 1)
              && CountFrom(env, i) > 0
    ensures i < SLOTS && i !in env.attached ==>
              && done + DeviceBytes(env, chunk, i) == done + DeviceBytes(env, chunk, i + 1)
              && CountFrom(env, i) == CountFrom(env, i + 1)
  {
    hide DeviceBytes, CountFrom;
    SlotStep(env, chunk, i);
    if i < SLOTS && i in env.attached {
      var slot: Byte, rest := i, DeviceBytes(env, chunk, i + 1);
      assert done + ([slot] + chunk + rest) == done + ([slot] + chunk) + rest;
    } else if i < SLOTS {
      assert [] + DeviceBytes(env, chunk, i + 1) == DeviceBytes(env, chunk, i + 1);
    }
  }

  method CountDevices(env: Env) returns (n: nat)
    ensures n == CountFrom(env, 0)
  {
    n := 0;
    var i := 0;
    while i < SLOTS
      invariant 0 <= i <= SLOTS && n + CountFrom(env, i) == CountFrom(env, 0)
    {
      if i in env.attached {
        n := n + 1;
      }
      i := i + 1;
    }
  }

  // A slot number, then the drive saving itself into a reserved region.
  method WriteDevice(m: Machine, w: Writer, slot: Byte)
    requires w.Valid() && !w.failed && Storable(m.cd, m.clock.cycles)
    requires w.Room(w.offset + 1 + |CdChunk(m.cd, m.clock.cycles)|)
    modifies w, w.data
    ensures w.Valid() && !w.failed && w.offset == old(w.offset) + 1 + |CdChunk(m.cd, m.clock.cycles)|
    ensures w.data != null ==>
              w.Buffer() == Overwrite(old(w.Buffer()), w.base + old(w.offset), [slot] + CdChunk(m.cd, m.clock.cycles))
  {
    hide Encode, Storable, Overwrite, CdFields, Chunk;
    var fs := CdFields(m.cd, m.clock.cycles);
    ghost var chunk := CdChunk(m.cd, m.clock.cycles);
    var ok := w.WriteUint(1, slot);
    assert Le(1, slot) == [slot];
    var n := PayloadSize(fs);
    var at := w.Reserve(8 + n);
    if at.Some? {
      var used := SaveChunk(CDRM, fs, w.data, at.value);
      OverwriteTwice(old(w.Buffer()), w.base + old(w.offset), [slot], chunk);
    }
  }

  // Saving is refused while a drive on the bus is in the middle of what a state cannot hold.
  predicate Blocked(env: Env, m: Machine) { m.cd.blocked && CountFrom(env, 0) > 0 }

  method XbusPayloadSize(env: Env, m: Machine) returns (n: nat)
    requires Storable(m.cd, m.clock.cycles) && |F.XbusPayload(env, m)| <= MAX32
    ensures n == if Blocked(env, m) then 0 else |F.XbusPayload(env, m)|
  {
    hide F.XbusPayload, Storable;
    var w := new Writer(null, 0, MAX32);
    var ok := WriteXbus(env, m, w);
    return if ok then w.offset else 0;
  }

  method SaveXbus(env: Env, m: Machine, buf: array<Byte>, base: nat) returns (used: nat)
    requires Storable(m.cd, m.clock.cycles) && !Blocked(env, m)
    requires 8 + |F.XbusPayload(env, m)| <= MAX32 && base + 8 + |F.XbusPayload(env, m)| <= buf.Length
    modifies buf
    ensures used == 8 + |F.XbusPayload(env, m)|
    ensures buf[..] == Overwrite(old(buf[..]), base, Chunk(F.XBUS, F.XbusPayload(env, m)))
  {
    hide F.XbusPayload, Storable, Overwrite, Le;
    var n := XbusPayloadSize(env, m);
    var w := new Writer(buf, base, 8 + n);
    var ok := w.WriteBytes(F.XBUS);
    ok := w.WriteUint(4, n);
    OverwriteTwice(old(buf[..]), base, F.XBUS, Le(4, n));
    ok := WriteXbus(env, m, w);
    OverwriteTwice(old(buf[..]), base, F.XBUS + Le(4, n), F.XbusPayload(env, m));
    return w.offset;
  }

  method PartsSize(parts: seq<Part>, m: Machine) returns (n: nat)
    requires F.Saveable(m)
    ensures n == |F.SaveParts(parts, m)|
  {
    hide F.Saveable, Encode, F.PartFields;
    T.SaveableMem(m);
    n := 0;
    var i := 0;
    assert parts[0..] == parts;
    while i < |parts|
      invariant 0 <= i <= |parts| && n + |F.SaveParts(parts[i..], m)| == |F.SaveParts(parts, m)|
    {
      T.PartChunkBound(parts[i], m);
      assert parts[i..][1..] == parts[i + 1..];
      var part := PayloadSize(F.PartFields(parts[i], m));
      n := n + 8 + part;
      i := i + 1;
    }
  }

  method SaveParts(parts: seq<Part>, m: Machine, buf: array<Byte>, start: nat) returns (at: nat)
    requires F.Saveable(m) && start + |F.SaveParts(parts, m)| <= buf.Length
    modifies buf
    ensures at == start + |F.SaveParts(parts, m)|
    ensures buf[..] == Overwrite(old(buf[..]), start, F.SaveParts(parts, m))
  {
    hide F.Saveable, Encode, F.PartFields, F.SaveParts, F.PartChunk, Overwrite;
    T.SaveableMem(m);
    at := start;
    ghost var done: seq<Byte> := [];
    var i := 0;
    assert parts[0..] == parts && [] + F.SaveParts(parts, m) == F.SaveParts(parts, m);
    OverwriteNone(buf[..], start);
    while i < |parts|
      invariant 0 <= i <= |parts| && at == start + |done|
      invariant done + F.SaveParts(parts[i..], m) == F.SaveParts(parts, m)
      invariant buf[..] == Overwrite(old(buf[..]), start, done)
    {
      SavePartsStep(parts, i, m, done);
      ghost var chunk := F.PartChunk(parts[i], m);
      var used := SavePart(parts[i], m, buf, at);
      OverwriteTwice(old(buf[..]), start, done, chunk);
      done := done + chunk;
      at := at + used;
      i := i + 1;
    }
    SavePartsEnd(parts[i..], m, done);
  }

  method SavePart(part: Part, m: Machine, buf: array<Byte>, at: nat) returns (used: nat)
    requires F.Saveable(m) && MemShape(m.mem) && ValidCfg(m.mem.cfg) && at + |F.PartChunk(part, m)| <= buf.Length
    modifies buf
    ensures used == |F.PartChunk(part, m)|
    ensures buf[..] == Overwrite(old(buf[..]), at, F.PartChunk(part, m))
  {
    hide F.Saveable, Encode, F.PartFields, F.PartName, Overwrite, MemShape, ValidCfg;
    T.PartChunkBound(part, m);
    used := SaveChunk(F.PartName(part), F.PartFields(part, m), buf, at);
  }

  lemma SavePartsStep(parts: seq<Part>, i: nat, m: Machine, done: seq<Byte>)
    requires MemShape(m.mem) && ValidCfg(m.mem.cfg) && i < |parts|
    ensures done + F.SaveParts(parts[i..], m) == done + F.PartChunk(parts[i], m) + F.SaveParts(parts[i + 1..], m)
  {
    hide F.PartChunk;
    assert parts[i..][1..] == parts[i + 1..];
  }

  lemma SavePartsEnd(parts: seq<Part>, m: Machine, done: seq<Byte>)
    requires MemShape(m.mem) && ValidCfg(m.mem.cfg) && parts == []
    ensures done + F.SaveParts(parts, m) == done
  {
  }

  // opera_3do_state_size; zero when the state cannot be saved.
  method StateSize(env: Env, m: Machine) returns (n: nat)
    requires F.Saveable(m)
    ensures n == if Blocked(env, m) then 0 else |F.Save(env, m)|
  {
    hide F.SaveParts, F.XbusPayload, Encode, Storable, PartSaveable;
    T.SaveFits(env, m);
    T.XbusSize(env, m);
    T.HeaderLoaded([]);
    var header := PayloadSize(F.HeaderFields());
    var parts := PartsSize(F.PARTS, m);
    var xbus := XbusPayloadSize(env, m);
    if xbus == 0 {
      EmptyPayload(env, m);
      return 0;
    }
    return 8 + header + parts + 8 + xbus;
  }

  // A bus payload always holds its own fields.
  lemma EmptyPayload(env: Env, m: Machine)
    requires F.Saveable(m)
    ensures |F.XbusPayload(env, m)| > 0
  {
    hide Storable, PartSaveable;
    var fs := F.XbusFields(m.xbus, CountFrom(env, 0));
    assert Encode(fs) == EncodeOne(fs[0]) + Encode(fs[1..]);
  }

  // opera_3do_state_save: nothing is written unless everything fits.
  method SaveState(env: Env, m: Machine, buf: array<Byte>, size: nat) returns (rv: nat)
    requires F.Saveable(m) && size <= buf.Length
    modifies buf
    ensures rv == if Blocked(env, m) || size < |F.Save(env, m)| then 0 else |F.Save(env, m)|
    ensures buf[..] == if rv == 0 then old(buf[..]) else Overwrite(old(buf[..]), 0, F.Save(env, m))
  {
    hide F.SaveParts, F.XbusPayload, Encode, Overwrite, Storable, PartSaveable, Blocked, F.PARTS, F.HeaderFields,
      MemShape, ValidCfg;
    var expected := StateSize(env, m);
    if expected == 0 || size < expected {
      SaveNotEmpty(env, m);
      return 0;
    }
    SaveNotEmpty(env, m);
    T.SaveFits(env, m);
    T.HeaderLoaded([]);
    ghost var header, parts := Chunk(F.HEADER, Encode(F.HeaderFields())), F.SaveParts(F.PARTS, m);
    ghost var xbus := Chunk(F.XBUS, F.XbusPayload(env, m));
    var at := SaveChunk(F.HEADER, F.HeaderFields(), buf, 0);
    at := SaveParts(F.PARTS, m, buf, at);
    OverwriteTwice(old(buf[..]), 0, header, parts);
    var used := SaveXbus(env, m, buf, at);
    OverwriteTwice(old(buf[..]), 0, header + parts, xbus);
    return at + used;
  }

  lemma SaveNotEmpty(env: Env, m: Machine)
    requires F.Saveable(m)
    ensures |F.Save(env, m)| >= 8
  {
    hide F.SaveParts, F.XbusPayload, Encode, PartSaveable, Storable;
  }

  lemma OneByte(s: seq<Byte>)
    requires s != []
    ensures FromLe(s[..1]) == s[0]
  {
    assert s[..1][1..] == [];
  }

  lemma HeadCount(fs: seq<Field>)
    requires AllFit(fs, F.XBUS_KINDS)
    ensures |fs| == 9 && fs[8].Num?
  {
    assert Fits(fs[8], F.XBUS_KINDS[8]);
  }
}
