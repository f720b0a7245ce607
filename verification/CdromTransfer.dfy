/**
 The CD-ROM drive's READ_DATA machine: the command itself, the sector loader
 that clock ticks, polls and FIFO reads all drive, and the two FIFOs.

 `Cd` is the value of the fields involved, `Step` the specification of one
 event, and `CdDrive` the device. The disc, the CPU frequency and the time one
 sector takes are parameters (`Rig`), so results hold for every speed and pitch.
 */
module CdromTransfer {
  import opened Words
  import opened DiscTime

  const BUFFER_SIZE: nat := 2449
  const DIGITAL_AUDIO: nat := 2352
  const FRAMES_PER_SECOND: nat := 75
  const READ_AHEAD_CAP: nat := 48

  datatype Rig = Rig(disc: seq<seq<Byte>>, freq: nat, sectorCycles: nat)

  datatype Cd = Cd(
    now: nat,              // CPU cycles elapsed
    inReset: bool,         // POLREMASK
    polst: bool,
    poldt: bool,
    mediaReady: bool,      // door closed, disc in, spinning
    statusLen: nat,
    readSize: nat,         // read_sector_size
    wireSize: nat,         // mode.block.user_block_size
    dataLen: nat,
    dataIdx: nat,
    data: seq<Byte>,
    blocks: nat,           // blocks_requested
    sector: nat,           // current_sector
    ra: ReadAheadState,
    loads: seq<nat>)       // sectors asked of the image, oldest first

  // The part of g_CDROM_STATE that a transfer uses.
  datatype ReadAheadState = ReadAheadState(
    nextReady: nat,
    expectedLba: nat,
    haveExpected: bool,
    burst: bool,
    baseLba: nat,
    baseCycle: nat,
    clockActive: bool,
    statusPending: bool)

  // ---------- Block mode ----------

  function BaseSize(length: nat): nat
  {
    var size := if length == 0 then 2048 else length;
    Min(size, BUFFER_SIZE)
  }

  function TransferSize(length: nat, subcode: bool, error: bool): nat
  {
    Min(BaseSize(length) + (if subcode then 96 else 0) + (if error then 1 else 0), BUFFER_SIZE)
  }

  predicate ModeOk(cd: Cd)
  {
    0 < cd.readSize <= cd.wireSize <= BUFFER_SIZE && |cd.data| == BUFFER_SIZE
  }

  // Every mode page leaves sizes a transfer can use.
  lemma AnyModeIsOk(cd: Cd, length: nat, subcode: bool, error: bool)
    requires |cd.data| == BUFFER_SIZE
    ensures ModeOk(cd.(readSize := BaseSize(length), wireSize := TransferSize(length, subcode, error)))
  {
  }

  // ---------- CD-DA read-ahead arithmetic ----------

  function ElapsedFrames(cd: Cd, freq: nat): nat
    requires freq > 0
  {
    if cd.now <= cd.ra.baseCycle then 0
    else ((cd.now - cd.ra.baseCycle) * FRAMES_PER_SECOND) / freq
  }

  predicate Streaming(cd: Cd) { cd.readSize == DIGITAL_AUDIO && cd.ra.clockActive }

  function ReadAhead(cd: Cd, freq: nat): nat
    requires freq > 0
  {
    if !Streaming(cd) || cd.sector < cd.ra.baseLba then 0
    else Max(0, cd.sector - cd.ra.baseLba - ElapsedFrames(cd, freq))
  }

  // cdrom_data_audio_can_burst, which also updates the burst latch.
  function BurstLatch(cd: Cd, freq: nat): bool
    requires freq > 0
  {
    if !Streaming(cd) then cd.ra.burst
    else if ReadAhead(cd, freq) >= READ_AHEAD_CAP then false
    else cd.ra.burst || ReadAhead(cd, freq) <= READ_AHEAD_CAP - 1
  }

  predicate CanBurst(cd: Cd, freq: nat)
    requires freq > 0
  {
    Streaming(cd) && BurstLatch(cd, freq)
  }

  // The cycle before which the read-ahead gate holds the next sector back; zero is no gate.
  function GateCycle(cd: Cd, freq: nat): nat
  {
    if !Streaming(cd) || cd.sector < cd.ra.baseLba || cd.sector - cd.ra.baseLba < READ_AHEAD_CAP then 0
    else cd.ra.baseCycle + ((cd.sector - cd.ra.baseLba - (READ_AHEAD_CAP - 1)) * freq) / FRAMES_PER_SECOND
  }

  // ---------- Loading a sector ----------

  // The bytes the image supplies for a sector, at most n of them.
  function SectorBytes(disc: seq<seq<Byte>>, lba: nat, n: nat): (b: seq<Byte>)
    ensures |b| <= n
  {
    if lba < |disc| then disc[lba][..Min(n, |disc[lba]|)] else []
  }

  // A sector as it goes over the wire: what the image supplies, then zeros.
  function Image(disc: seq<seq<Byte>>, lba: nat, read: nat, wire: nat): (b: seq<Byte>)
    requires read <= wire
    ensures |b| == wire
  {
    var bytes := SectorBytes(disc, lba, read);
    bytes + Zeros(wire - |bytes|)
  }

  // The loader's buffer: wire-size zeroed, then the read lands on top.
  function Buffered(cd: Cd, rig: Rig): (b: seq<Byte>)
    requires ModeOk(cd)
    ensures |b| == BUFFER_SIZE
  {
    var cleared := Zeros(cd.wireSize) + cd.data[cd.wireSize..];
    var bytes := SectorBytes(rig.disc, cd.sector, cd.readSize);
    bytes + cleared[|bytes|..]
  }

  function ScheduleNext(cd: Cd, sectorCycles: int): nat
    requires sectorCycles >= 0
  {
    if cd.ra.nextReady == 0 then cd.now + sectorCycles
    else
      var next := cd.ra.nextReady + sectorCycles;
      if next - cd.now < -sectorCycles then cd.now else next
  }

  function LoadSector(cd: Cd, rig: Rig, burst: bool): Cd
    requires ModeOk(cd) && cd.blocks > 0
  {
    cd.(sector := cd.sector + 1,
    loads := cd.loads + [cd.sector],
    data := Buffered(cd, rig),
    dataLen := cd.wireSize,
    blocks := cd.blocks - 1,
    poldt := true,
    ra := cd.ra.(nextReady := if burst then cd.now else ScheduleNext(cd, rig.sectorCycles)))
  }

  // What the loader never touches.
  predicate SameFrame(a: Cd, b: Cd)
  {
    && a.now == b.now && a.inReset == b.inReset && a.mediaReady == b.mediaReady
    && a.polst == b.polst && a.statusLen == b.statusLen && a.dataIdx == b.dataIdx
    && a.readSize == b.readSize && a.wireSize == b.wireSize
    && a.ra.(nextReady := 0, burst := false) == b.ra.(nextReady := 0, burst := false)
  }

  // The loader left the sector where it was.
  predicate Held(a: Cd, b: Cd)
  {
    && a.data == b.data && a.dataLen == b.dataLen && a.blocks == b.blocks
    && a.sector == b.sector && a.loads == b.loads
    && b.poldt == (a.poldt && (a.inReset || a.dataLen > 0 || a.blocks == 0))
  }

  // The loader moved one sector into the buffer.
  predicate Loaded(a: Cd, b: Cd, rig: Rig)
    requires ModeOk(a)
  {
    && !a.inReset && a.dataLen == 0 && a.blocks > 0
    && b.data == Buffered(a, rig) && b.dataLen == a.wireSize && b.blocks == a.blocks - 1
    && b.sector == a.sector + 1 && b.loads == a.loads + [a.sector] && b.poldt
  }

  // cdrom_data_load_next_if_ready
  function LoadNext(cd: Cd, rig: Rig): (r: Cd)
    requires ModeOk(cd) && rig.freq > 0
    ensures ModeOk(r) && SameFrame(cd, r)
    ensures Held(cd, r) || Loaded(cd, r, rig)
  {
    hide CanBurst, BurstLatch, GateCycle, ScheduleNext, Buffered;
    if cd.inReset || cd.dataLen > 0 || cd.blocks == 0 then cd
    else
      var burst := CanBurst(cd, rig.freq);
      var cd1 := cd.(ra := cd.ra.(burst := BurstLatch(cd, rig.freq)));
      if !burst && cd1.now < cd1.ra.nextReady then cd1.(poldt := false)
      else
        var gate := GateCycle(cd1, rig.freq);
        if gate != 0 && cd1.now < gate then
          cd1.(ra := cd1.ra.(burst := false, nextReady := gate), poldt := false)
        else LoadSector(cd1, rig, burst)
  }

  // ---------- The FIFOs ----------

  predicate HasByte(cd: Cd, rig: Rig)
    requires ModeOk(cd) && rig.freq > 0
  {
    !cd.inReset && LoadNext(cd, rig).dataLen > 0
  }

  predicate BufferOk(cd: Cd)
  {
    ModeOk(cd) && cd.dataIdx + cd.dataLen <= BUFFER_SIZE && (cd.dataLen == 0 && cd.blocks > 0 ==> cd.dataIdx == 0)
  }

  function ByteRead(cd: Cd, rig: Rig): Byte
    requires BufferOk(cd) && rig.freq > 0
  {
    if HasByte(cd, rig) then LoadNext(cd, rig).data[LoadNext(cd, rig).dataIdx] else 0
  }

  function PublishStatus(cd: Cd): Cd
  {
    if !cd.ra.statusPending || cd.blocks != 0 || cd.dataLen != 0 then cd
    else cd.(ra := cd.ra.(statusPending := false), polst := true)
  }

  // opera_cdrom_fifo_get_data
  function AfterRead(cd: Cd, rig: Rig): (r: Cd)
    requires BufferOk(cd) && rig.freq > 0
    ensures BufferOk(r)
  {
    hide LoadNext;
    if !HasByte(cd, rig) then (if cd.inReset then cd else LoadNext(cd, rig))
    else
      var l := LoadNext(cd, rig);
      var t := l.(dataIdx := l.dataIdx + 1, dataLen := l.dataLen - 1);
      if t.dataLen > 0 then t
      else if t.blocks > 0 then LoadNext(t.(dataIdx := 0), rig)
      else PublishStatus(t.(dataIdx := 0, poldt := false))
  }

  // opera_cdrom_fifo_get_status
  function AfterStatusRead(cd: Cd, rig: Rig): (r: Cd)
    requires ModeOk(cd) && rig.freq > 0
    ensures ModeOk(r)
  {
    if cd.inReset then cd
    else
      var l := LoadNext(cd, rig);
      if l.statusLen == 0 then l
      else l.(statusLen := l.statusLen - 1, polst := l.polst && l.statusLen > 1)
  }

  // ---------- The command ----------

  predicate MsfValid(sec: Byte, frame: Byte) { sec < 60 && frame < 75 }

  function MsfToLba(min: Byte, sec: Byte, frame: Byte): nat { FromMsf(Msf(min, sec, frame)) }

  function ClearReadAhead(cd: Cd): Cd
  {
    cd.(ra := ReadAheadState(0, 0, false, false, 0, 0, false, false))
  }

  function ClearTransfer(cd: Cd): Cd
  {
    ClearReadAhead(cd.(dataLen := 0, dataIdx := 0, blocks := 0, data := Zeros(BUFFER_SIZE), poldt := false))
  }

  predicate PastEnd(disc: seq<seq<Byte>>, lba: nat, count: nat)
  {
    count != 0 && (lba >= |disc| || count > |disc| - lba)
  }

  predicate Accepted(cd: Cd, rig: Rig, min: Byte, sec: Byte, frame: Byte, count: nat)
  {
    cd.mediaReady && MsfValid(sec, frame) && !PastEnd(rig.disc, MsfToLba(min, sec, frame), count)
  }

  predicate Continuous(cd: Cd, lba: nat)
  {
    cd.readSize == DIGITAL_AUDIO && cd.ra.haveExpected && lba == cd.ra.expectedLba
  }

  function ScheduleStart(cd: Cd, sectorCycles: nat, continuous: bool): nat
  {
    if continuous && cd.ra.nextReady != 0 then Max(cd.ra.nextReady, cd.now) else cd.now + sectorCycles
  }

  // Read-ahead that the new request does not continue is dropped.
  function DropStale(cd: Cd, continuous: bool): Cd
  {
    if !continuous && (cd.ra.haveExpected || cd.ra.clockActive || cd.dataLen > 0 || cd.poldt) then
      ClearReadAhead(cd.(dataLen := 0, dataIdx := 0, poldt := false))
    else cd
  }

  // The audio clock as the command leaves it.
  function StartClock(cd: Cd, continuous: bool): Cd
  {
    if cd.readSize != DIGITAL_AUDIO then cd.(ra := cd.ra.(clockActive := false, burst := false))
    else if continuous && cd.ra.clockActive then cd
    else cd.(ra := cd.ra.(baseLba := cd.sector, baseCycle := cd.now, clockActive := true, burst := true))
  }

  // The drive with a new request recorded: stale read-ahead dropped, audio clock set.
  function Requested(cd: Cd, lba: nat, count: nat): (r: Cd)
    requires ModeOk(cd)
    ensures ModeOk(r) && r.sector == lba && r.blocks == count
  {
    var continuous := Continuous(cd, lba);
    var c := StartClock(DropStale(cd.(statusLen := 2, sector := lba, blocks := count), continuous), continuous);
    c.(ra := c.ra.(expectedLba := lba + count, haveExpected := count != 0))
  }

  // A request of at least one block, armed but with nothing loaded yet.
  function Armed(cd: Cd, rig: Rig, lba: nat, count: nat): (r: Cd)
    requires ModeOk(cd)
    ensures ModeOk(r) && r.sector == lba && r.blocks == count
  {
    Arm(Requested(cd, lba, count), rig.sectorCycles, Continuous(cd, lba))
  }

  function Arm(cd: Cd, sectorCycles: nat, continuous: bool): (r: Cd)
    ensures ModeOk(cd) ==> BufferOk(r)
  {
    cd.(dataLen := 0, dataIdx := 0, polst := false, poldt := false,
    ra := cd.ra.(statusPending := true, nextReady := ScheduleStart(cd, sectorCycles, continuous)))
  }

  // cdrom_cmd_read_data
  function ReadData(cd: Cd, rig: Rig, min: Byte, sec: Byte, frame: Byte, count: nat): (r: Cd)
    requires ModeOk(cd) && rig.freq > 0
    ensures ModeOk(r)
  {
    hide LoadNext, Requested, Armed;
    if !cd.mediaReady then cd.(statusLen := 2, polst := true)
    else if !MsfValid(sec, frame) then ClearTransfer(cd).(statusLen := 2, polst := true)
    else
      var lba := MsfToLba(min, sec, frame);
      if PastEnd(rig.disc, lba, count) then ClearTransfer(cd.(sector := lba)).(statusLen := 2, polst := true)
      else if count == 0 then Requested(cd, lba, count).(dataLen := 0, statusLen := 2, polst := true)
      else
        var d := Armed(cd, rig, lba, count);
        if d.readSize != DIGITAL_AUDIO then LoadNext(d, rig) else d
  }

  // ---------- Runs ----------

  datatype Event = Tick(cycles: nat) | Poll | ReadByte | ReadStatus

  function Step(cd: Cd, rig: Rig, e: Event): (r: Cd)
    requires BufferOk(cd) && rig.freq > 0
    ensures BufferOk(r)
  {
    match e
    case Tick(cycles) => cd.(now := cd.now + cycles)
    case Poll => LoadNext(cd, rig)
    case ReadByte => AfterRead(cd, rig)
    case ReadStatus => AfterStatusRead(cd, rig)
  }

  // The bytes one event hands to the reader of the data FIFO.
  function Out(cd: Cd, rig: Rig, e: Event): seq<Byte>
    requires BufferOk(cd) && rig.freq > 0
  {
    if e == ReadByte && HasByte(cd, rig) then [ByteRead(cd, rig)] else []
  }

  function Run(cd: Cd, rig: Rig, es: seq<Event>): (r: Cd)
    requires BufferOk(cd) && rig.freq > 0
    ensures BufferOk(r)
    decreases |es|
  {
    if es == [] then cd else Step(Run(cd, rig, es[..|es| - 1]), rig, es[|es| - 1])
  }

  function Delivered(cd: Cd, rig: Rig, es: seq<Event>): seq<Byte>
    requires BufferOk(cd) && rig.freq > 0
    decreases |es|
  {
    if es == [] then []
    else
      var front := es[..|es| - 1];
      Delivered(cd, rig, front) + Out(Run(cd, rig, front), rig, es[|es| - 1])
  }

  // ---------- What a transfer delivers ----------

  function Stream(disc: seq<seq<Byte>>, lba: nat, n: nat, read: nat, wire: nat): (s: seq<Byte>)
    requires read <= wire
    ensures |s| == n * wire
    decreases n
  {
    if n == 0 then [] else Image(disc, lba, read, wire) + Stream(disc, lba + 1, n - 1, read, wire)
  }

  predicate Done(cd: Cd) { cd.blocks == 0 && cd.dataLen == 0 }

  function Range(a: nat, b: nat): seq<nat>
    requires a <= b
  {
    seq(b - a, i requires 0 <= i => a + i)
  }

  function Remaining(cd: Cd, rig: Rig): seq<Byte>
    requires BufferOk(cd)
  {
    cd.data[cd.dataIdx..cd.dataIdx + cd.dataLen] +
    Stream(rig.disc, cd.sector, cd.blocks, cd.readSize, cd.wireSize)
  }

  // What holds at every moment of a transfer.
  predicate Transferring(cd: Cd, rig: Rig)
  {
    && BufferOk(cd) && !cd.inReset
    && cd.sector + cd.blocks <= |rig.disc|
    && (cd.poldt <==> cd.dataLen > 0)
    && (cd.ra.statusPending <==> !Done(cd))
    && (cd.polst ==> Done(cd))
  }

  lemma BufferedIsImage(cd: Cd, rig: Rig)
    requires ModeOk(cd)
    ensures Buffered(cd, rig)[..cd.wireSize] == Image(rig.disc, cd.sector, cd.readSize, cd.wireSize)
  {
  }

  // Loading moves bytes from the disc to the buffer: nothing is gained, lost or reordered.
  lemma LoadKeeps(cd: Cd, rig: Rig)
    requires BufferOk(cd) && !cd.inReset && rig.freq > 0
    requires cd.sector + cd.blocks <= |rig.disc|
    requires cd.dataLen > 0 ==> cd.poldt
    requires cd.dataLen == 0 && cd.blocks == 0 ==> !cd.poldt
    requires cd.ra.statusPending <==> !Done(cd)
    requires cd.polst ==> Done(cd)
    ensures Transferring(LoadNext(cd, rig), rig)
    ensures Remaining(LoadNext(cd, rig), rig) == Remaining(cd, rig)
    ensures Done(LoadNext(cd, rig)) <==> Done(cd)
    ensures LoadNext(cd, rig).polst == cd.polst
    ensures SectorsAccounted(cd, LoadNext(cd, rig))
  {
    hide LoadNext, Buffered, Image;
    BufferedIsImage(cd, rig);
    var r := LoadNext(cd, rig);
    if r.sector == cd.sector {
      assert Range(cd.sector, r.sector) == [];
    } else {
      assert Range(cd.sector, r.sector) == [cd.sector];
      assert r.data[0..r.wireSize] == Image(rig.disc, cd.sector, cd.readSize, cd.wireSize);
      assert cd.data[cd.dataIdx..cd.dataIdx + cd.dataLen] == [];
    }
  }

  // The sectors read and still to read, as both sides of one step see them.
  predicate SectorsAccounted(cd: Cd, r: Cd)
  {
    && r.sector + r.blocks == cd.sector + cd.blocks
    && cd.sector <= r.sector
    && r.loads == cd.loads + Range(cd.sector, r.sector)
  }

  lemma AccountedTrans(a: Cd, b: Cd, c: Cd)
    requires SectorsAccounted(a, b) && SectorsAccounted(b, c)
    ensures SectorsAccounted(a, c)
  {
    assert Range(a.sector, b.sector) + Range(b.sector, c.sector) == Range(a.sector, c.sector);
  }

  lemma AccountedSame(a: Cd, b: Cd)
    requires a.sector == b.sector && a.blocks == b.blocks && a.loads == b.loads
    ensures SectorsAccounted(a, b)
  {
    assert Range(a.sector, a.sector) == [];
  }

  function Popped(cd: Cd): Cd
    requires cd.dataLen > 0
  {
    cd.(dataIdx := if cd.dataLen == 1 then 0 else cd.dataIdx + 1, dataLen := cd.dataLen - 1)
  }

  lemma PopKeeps(cd: Cd, rig: Rig)
    requires Transferring(cd, rig) && cd.dataLen > 0
    ensures BufferOk(Popped(cd))
    ensures Remaining(cd, rig) == [cd.data[cd.dataIdx]] + Remaining(Popped(cd), rig)
  {
    hide Stream;
    var t := Popped(cd);
    assert cd.data[cd.dataIdx..cd.dataIdx + cd.dataLen] ==
           [cd.data[cd.dataIdx]] + t.data[t.dataIdx..t.dataIdx + t.dataLen];
  }

  lemma ReadKeeps(cd: Cd, rig: Rig)
    requires Transferring(cd, rig) && rig.freq > 0
    ensures Transferring(AfterRead(cd, rig), rig)
    ensures Remaining(cd, rig) == Out(cd, rig, ReadByte) + Remaining(AfterRead(cd, rig), rig)
    ensures !Done(cd) && Done(AfterRead(cd, rig)) ==> AfterRead(cd, rig).polst
    ensures SectorsAccounted(cd, AfterRead(cd, rig))
  {
    hide LoadNext, Remaining, Held, Loaded, SameFrame, SectorsAccounted, ModeOk;
    LoadKeeps(cd, rig);
    var l := LoadNext(cd, rig);
    if l.dataLen > 0 {
      PopKeeps(l, rig);
      var t := Popped(l);
      AccountedSame(l, t);
      if t.dataLen == 0 && t.blocks > 0 {
        LoadKeeps(t, rig);
        assert AfterRead(cd, rig) == LoadNext(t, rig);
        AccountedTrans(cd, l, t);
        AccountedTrans(cd, t, LoadNext(t, rig));
      } else if t.dataLen == 0 {
        var u := PublishStatus(t.(poldt := false));
        assert AfterRead(cd, rig) == u;
        RemainingSame(t, u, rig);
        AccountedSame(l, u);
        AccountedTrans(cd, l, u);
      } else {
        assert AfterRead(cd, rig) == t;
        AccountedTrans(cd, l, t);
      }
    }
  }

  lemma RemainingSame(a: Cd, b: Cd, rig: Rig)
    requires BufferOk(a) && BufferOk(b)
    requires a.data == b.data && a.dataIdx == b.dataIdx && a.dataLen == b.dataLen
    requires a.sector == b.sector && a.blocks == b.blocks && a.readSize == b.readSize && a.wireSize == b.wireSize
    ensures Remaining(a, rig) == Remaining(b, rig)
  {
  }

  // Any interleaving of ticks, polls and reads keeps the transfer's books balanced.
  lemma {:induction false} RunConserves(cd: Cd, rig: Rig, es: seq<Event>)
    requires Transferring(cd, rig) && rig.freq > 0
    ensures Transferring(Run(cd, rig, es), rig)
    ensures Delivered(cd, rig, es) + Remaining(Run(cd, rig, es), rig) == Remaining(cd, rig)
    ensures SectorsAccounted(cd, Run(cd, rig, es))
    decreases |es|
  {
    hide Step, Remaining, Out, BufferOk, SectorsAccounted, Done;
    if es == [] {
      AccountedSame(cd, cd);
    } else {
      var front, e := es[..|es| - 1], es[|es| - 1];
      RunConserves(cd, rig, front);
      StepConserves(Run(cd, rig, front), rig, e);
      AccountedTrans(cd, Run(cd, rig, front), Step(Run(cd, rig, front), rig, e));
    }
  }

  lemma StepConserves(cd: Cd, rig: Rig, e: Event)
    requires Transferring(cd, rig) && rig.freq > 0
    ensures Transferring(Step(cd, rig, e), rig)
    ensures Remaining(cd, rig) == Out(cd, rig, e) + Remaining(Step(cd, rig, e), rig)
    ensures SectorsAccounted(cd, Step(cd, rig, e))
    ensures !Done(cd) && Done(Step(cd, rig, e)) ==> e == ReadByte && Step(cd, rig, e).polst
  {
    hide LoadNext, AfterRead, Remaining, Held, Loaded, SameFrame, SectorsAccounted, ModeOk;
    LoadKeeps(cd, rig);
    ReadKeeps(cd, rig);
    var l := LoadNext(cd, rig);
    match e
    case Tick(cycles) =>
      AccountedSame(cd, Step(cd, rig, e));
      RemainingSame(cd, Step(cd, rig, e), rig);
    case Poll =>
    case ReadByte =>
    case ReadStatus =>
      var r := AfterStatusRead(cd, rig);
      AccountedSame(l, r);
      AccountedTrans(cd, l, r);
      RemainingSame(l, r, rig);
  }

  // An accepted command leaves a transfer of exactly the requested sectors.
  lemma CommandStarts(cd: Cd, rig: Rig, min: Byte, sec: Byte, frame: Byte, count: nat)
    requires BufferOk(cd) && !cd.inReset && rig.freq > 0 && count > 0
    requires Accepted(cd, rig, min, sec, frame, count)
    ensures var lba := MsfToLba(min, sec, frame);
            var r := ReadData(cd, rig, min, sec, frame, count);
            && Transferring(r, rig) && !r.polst
            && Remaining(r, rig) == Stream(rig.disc, lba, count, cd.readSize, cd.wireSize)
            && SectorsAccounted(cd.(sector := lba, blocks := count), r)
            && r.readSize == cd.readSize && r.wireSize == cd.wireSize
  {
    hide LoadNext, Stream, ScheduleStart, MsfToLba, SectorsAccounted, Held, Loaded;
    var lba := MsfToLba(min, sec, frame);
    var d := Armed(cd, rig, lba, count);
    assert d.data[0..0] == [];
    assert Remaining(d, rig) == Stream(rig.disc, lba, count, d.readSize, d.wireSize);
    LoadKeeps(d, rig);
    AccountedSame(cd.(sector := lba, blocks := count), d);
    AccountedTrans(cd.(sector := lba, blocks := count), d, LoadNext(d, rig));
  }

  // The transfer theorem: whatever the host and the clock do, the data FIFO yields exactly the
  // sectors asked for, in order, each padded to the wire size; only those sectors are read.
  lemma TransferDelivers(cd: Cd, rig: Rig, min: Byte, sec: Byte, frame: Byte, count: nat, es: seq<Event>)
    requires BufferOk(cd) && !cd.inReset && rig.freq > 0 && count > 0
    requires Accepted(cd, rig, min, sec, frame, count)
    ensures var lba := MsfToLba(min, sec, frame);
            var start := ReadData(cd, rig, min, sec, frame, count);
            var whole := Stream(rig.disc, lba, count, cd.readSize, cd.wireSize);
            && BufferOk(start)
            && var end := Run(start, rig, es);
            var got := Delivered(start, rig, es);
            && got <= whole
            && |got| + end.dataLen + end.blocks * cd.wireSize == count * cd.wireSize
            && (end.poldt <==> end.dataLen > 0)
            && (end.polst ==> got == whole)
            && (Done(end) <==> got == whole)
            && lba <= end.sector <= lba + count <= |rig.disc|
            && end.loads == cd.loads + Range(lba, end.sector)
  {
    hide LoadNext, ReadData, Step, Stream, Delivered, Run, MsfToLba;
    CommandStarts(cd, rig, min, sec, frame, count);
    var lba := MsfToLba(min, sec, frame);
    var start := ReadData(cd, rig, min, sec, frame, count);
    RunConserves(start, rig, es);
    var end := Run(start, rig, es);
    AccountedTrans(cd.(sector := lba, blocks := count), start, end);
    RunKeepsMode(start, rig, es);
    DoneIsEmpty(end, rig);
  }

  lemma DoneIsEmpty(cd: Cd, rig: Rig)
    requires BufferOk(cd)
    ensures |Remaining(cd, rig)| == cd.dataLen + cd.blocks * cd.wireSize
    ensures Done(cd) <==> Remaining(cd, rig) == []
  {
    hide Stream;
    if cd.blocks > 0 {
      MulMono(1, cd.blocks, cd.wireSize);
    }
  }

  lemma {:induction false} RunKeepsMode(cd: Cd, rig: Rig, es: seq<Event>)
    requires BufferOk(cd) && rig.freq > 0
    ensures Run(cd, rig, es).readSize == cd.readSize && Run(cd, rig, es).wireSize == cd.wireSize
    decreases |es|
  {
    hide LoadNext, AfterRead, AfterStatusRead;
    if es != [] {
      StepKeepsMode(Run(cd, rig, es[..|es| - 1]), rig, es[|es| - 1]);
      RunKeepsMode(cd, rig, es[..|es| - 1]);
    }
  }

  lemma StepKeepsMode(cd: Cd, rig: Rig, e: Event)
    requires BufferOk(cd) && rig.freq > 0
    ensures Step(cd, rig, e).readSize == cd.readSize && Step(cd, rig, e).wireSize == cd.wireSize
  {
    hide LoadNext;
  }

  // The completion status appears with the byte that ends the transfer and with no other event.
  lemma StatusWithLastByte(cd: Cd, rig: Rig, e: Event)
    requires Transferring(cd, rig) && rig.freq > 0 && !Done(cd)
    ensures Step(cd, rig, e).polst <==> e == ReadByte && HasByte(cd, rig) && |Remaining(cd, rig)| == 1
  {
    hide Step, HasByte, Remaining;
    StepConserves(cd, rig, e);
    DoneIsEmpty(cd, rig);
    DoneIsEmpty(Step(cd, rig, e), rig);
  }

  // No transfer can stall: wait long enough and the next read yields a byte.
  lemma NeverStalls(cd: Cd, rig: Rig) returns (wait: nat)
    requires Transferring(cd, rig) && rig.freq > 0 && !Done(cd)
    ensures HasByte(Step(cd, rig, Tick(wait)), rig)
  {
    var gate := GateCycle(cd, rig.freq);
    wait := Max(0, Max(cd.ra.nextReady, gate) - cd.now);
    var t := Step(cd, rig, Tick(wait));
    assert t.now >= t.ra.nextReady && t.now >= gate;
    assert GateCycle(t.(ra := t.ra.(burst := BurstLatch(t, rig.freq))), rig.freq) == gate;
  }

  // ---------- Reading a buffer empty ----------

  function Reads(n: nat): seq<Event> { seq(n, _ => ReadByte) }

  lemma {:induction false} RunAppend(cd: Cd, rig: Rig, es: seq<Event>, fs: seq<Event>)
    requires BufferOk(cd) && rig.freq > 0
    ensures Run(cd, rig, es + fs) == Run(Run(cd, rig, es), rig, fs)
    decreases |fs|
  {
    hide Step, BufferOk;
    if fs == [] {
      assert es + fs == es;
    } else {
      var front := fs[..|fs| - 1];
      assert (es + fs)[..|es + fs| - 1] == es + front;
      RunAppend(cd, rig, es, front);
    }
  }

  lemma RunOne(cd: Cd, rig: Rig, e: Event)
    requires BufferOk(cd) && rig.freq > 0
    ensures Run(cd, rig, [e]) == Step(cd, rig, e)
  {
    hide Step;
    assert [e][..0] == [];
  }

  // All but the last byte of a buffer only move its position.
  lemma {:induction false} ReadsDrain(cd: Cd, rig: Rig, n: nat)
    requires BufferOk(cd) && rig.freq > 0 && !cd.inReset && n < cd.dataLen
    ensures Run(cd, rig, Reads(n)) == cd.(dataIdx := cd.dataIdx + n, dataLen := cd.dataLen - n)
  {
    if n > 0 {
      hide LoadNext, Run;
      ReadsDrain(cd, rig, n - 1);
      assert Reads(n) == Reads(n - 1) + [ReadByte];
      RunAppend(cd, rig, Reads(n - 1), [ReadByte]);
      var d := cd.(dataIdx := cd.dataIdx + (n - 1), dataLen := cd.dataLen - (n - 1));
      RunOne(d, rig, ReadByte);
      FullIsLeft(d, rig);
    } else {
      assert Reads(0) == [];
    }
  }

  lemma FullIsLeft(cd: Cd, rig: Rig)
    requires ModeOk(cd) && rig.freq > 0 && cd.dataLen > 0
    ensures LoadNext(cd, rig) == cd
  {
  }

  // The drive with its buffer read empty.
  function Emptied(cd: Cd): Cd { cd.(dataLen := 0, dataIdx := 0) }

  // The last byte goes straight on to the next sector.
  lemma ReadsEmpty(cd: Cd, rig: Rig)
    requires BufferOk(cd) && rig.freq > 0 && !cd.inReset && cd.dataLen > 0 && cd.blocks > 0
    ensures Run(cd, rig, Reads(cd.dataLen)) == LoadNext(Emptied(cd), rig)
  {
    hide LoadNext, Run;
    var n := cd.dataLen - 1;
    ReadsDrain(cd, rig, n);
    assert Reads(n + 1) == Reads(n) + [ReadByte];
    RunAppend(cd, rig, Reads(n), [ReadByte]);
    var d := cd.(dataIdx := cd.dataIdx + n, dataLen := 1);
    RunOne(d, rig, ReadByte);
    FullIsLeft(d, rig);
  }
}
