/**
 What saving and loading a state in the middle of a transfer does to the drive.
 A deadline that has passed is stored as none, and the loader schedules the
 sector after next from the cycle it loads at instead of from the deadline.
 */
module CdromReload {
  import opened Words
  import opened CdromTransfer
  import opened CdromReadAhead

  // The drive as a load at the same cycle leaves it.
  function AfterReload(cd: Cd): Cd
  {
    cd.(ra := cd.ra.(nextReady := if cd.ra.nextReady <= cd.now then 0 else cd.ra.nextReady,
    baseCycle := Min(cd.ra.baseCycle, cd.now)))
  }

  // The next sector's deadline is set and has passed.
  predicate Due(cd: Cd) { 0 < cd.ra.nextReady <= cd.now }

  // ---------- What shifts ----------

  // With a due deadline the next sector loads just the same, and the one after it is scheduled later by
  // the time the deadline has been due, or by a whole sector when that is more than two sectors' time.
  lemma {:induction false} LateSchedule(cd: Cd, rig: Rig)
    requires ModeOk(cd) && rig.freq > 0 && !cd.inReset && cd.dataLen == 0 && cd.blocks > 0
    requires !Streaming(cd) && Due(cd)
    ensures var a, b := LoadNext(cd, rig), LoadNext(AfterReload(cd), rig);
            && a.dataLen > 0 && b == AfterReload(a).(ra := AfterReload(a).ra.(nextReady := b.ra.nextReady))
            && b.ra.nextReady - a.ra.nextReady
            == if cd.now - cd.ra.nextReady <= 2 * rig.sectorCycles then cd.now - cd.ra.nextReady else rig.sectorCycles
  {
    hide Buffered, LoadNext, ScheduleNext;
    SameBuffer(cd, rig);
    ReadyLoads(cd, rig);
    ReadyLoads(AfterReload(cd), rig);
    LoadChanges(cd, rig);
    LoadChanges(AfterReload(cd), rig);
    LateNext(cd, rig.sectorCycles);
  }

  // The two schedules after a due deadline.
  lemma {:induction false} LateNext(cd: Cd, cycles: nat)
    requires Due(cd)
    ensures ScheduleNext(AfterReload(cd), cycles) - ScheduleNext(cd, cycles)
         == if cd.now - cd.ra.nextReady <= 2 * cycles then cd.now - cd.ra.nextReady else cycles
  {
  }

  // All that loading a data sector changes.
  lemma {:induction false} LoadChanges(cd: Cd, rig: Rig)
    requires ModeOk(cd) && rig.freq > 0 && !cd.inReset && cd.dataLen == 0 && cd.blocks > 0
    requires !Streaming(cd) && cd.ra.nextReady <= cd.now
    ensures var r := LoadNext(cd, rig);
            r == cd.(sector := cd.sector + 1, loads := cd.loads + [cd.sector], data := Buffered(cd, rig),
            dataLen := cd.wireSize, blocks := cd.blocks - 1, poldt := true,
            ra := cd.ra.(nextReady := ScheduleNext(cd, rig.sectorCycles)))
  {
    hide Buffered, ScheduleNext;
    SameNext(cd, cd.(ra := cd.ra.(burst := BurstLatch(cd, rig.freq))), rig.sectorCycles);
  }

  lemma {:induction false} SameBuffer(cd: Cd, rig: Rig)
    requires ModeOk(cd)
    ensures Buffered(AfterReload(cd), rig) == Buffered(cd, rig)
  {
  }

  // ---------- A host can tell ----------

  // One cycle on, read until a fresh sector is in the buffer, then up to its last byte, wait, and read that.
  function Probe(cd: Cd, wait: nat): seq<Event>
    requires cd.wireSize > 0
  {
    var first := if cd.dataLen == 0 then [Poll] else Reads(cd.dataLen);
    [Tick(1)] + first + (Reads(cd.wireSize - 1) + [Tick(wait), ReadByte])
  }

  lemma {:induction false} FirstSector(cd: Cd, rig: Rig)
    requires BufferOk(cd) && rig.freq > 0 && !cd.inReset && cd.blocks > 0
    ensures Run(cd, rig, if cd.dataLen == 0 then [Poll] else Reads(cd.dataLen)) == LoadNext(Emptied(cd), rig)
  {
    hide LoadNext, Run;
    if cd.dataLen == 0 {
      RunOne(cd, rig, Poll);
    } else {
      ReadsEmpty(cd, rig);
    }
  }

  lemma {:induction false} RunTick(cd: Cd, rig: Rig, cycles: nat)
    requires BufferOk(cd) && rig.freq > 0
    ensures BufferOk(cd.(now := cd.now + cycles))
    ensures Run(cd, rig, [Tick(cycles)]) == cd.(now := cd.now + cycles)
  {
    hide Run;
    RunOne(cd, rig, Tick(cycles));
  }

  lemma {:induction false} EmptiedOk(cd: Cd)
    requires BufferOk(cd)
    ensures BufferOk(Emptied(cd))
  {
  }

  lemma {:induction false} ProbeLoads(cd: Cd, rig: Rig, wait: nat)
    requires BufferOk(cd) && rig.freq > 0 && !cd.inReset && cd.blocks > 0
    ensures Run(cd, rig, Probe(cd, wait))
         == Run(LoadNext(Emptied(cd.(now := cd.now + 1)), rig), rig, Reads(cd.wireSize - 1) + [Tick(wait), ReadByte])
  {
    hide LoadNext, Run, Reads, Step, Held, Loaded, SameFrame;
    var first := if cd.dataLen == 0 then [Poll] else Reads(cd.dataLen);
    var rest := Reads(cd.wireSize - 1) + [Tick(wait), ReadByte];
    RunTick(cd, rig, 1);
    RunAppend(cd, rig, [Tick(1)], first);
    RunAppend(cd, rig, [Tick(1)] + first, rest);
    FirstSector(cd.(now := cd.now + 1), rig);
  }

  // The probe shows data exactly when the second sector's deadline is over.
  lemma {:induction false} ProbeShows(cd: Cd, rig: Rig, wait: nat)
    requires BufferOk(cd) && rig.freq > 0 && !cd.inReset && cd.blocks >= 2 && !Streaming(cd)
    requires cd.ra.nextReady <= cd.now
    ensures Run(cd, rig, Probe(cd, wait)).poldt <==>
            cd.now + 1 + wait >= ScheduleNext(cd.(now := cd.now + 1), rig.sectorCycles)
  {
    hide LoadNext, Run, ScheduleNext, Probe, Buffered;
    var c1 := cd.(now := cd.now + 1);
    EmptiedOk(c1);
    ProbeLoads(cd, rig, wait);
    ReadyLoads(Emptied(c1), rig);
    SameNext(Emptied(c1), c1, rig.sectorCycles);
    LastByteAfter(LoadNext(Emptied(c1), rig), rig, wait);
  }

  // A data sector loads as soon as its deadline is over.
  lemma {:induction false} ReadyLoads(cd: Cd, rig: Rig)
    requires ModeOk(cd) && rig.freq > 0 && !cd.inReset && cd.dataLen == 0 && cd.blocks > 0
    requires !Streaming(cd)
    ensures var a := LoadNext(cd, rig);
            if cd.ra.nextReady <= cd.now
            then Loaded(cd, a, rig) && a.ra.nextReady == ScheduleNext(cd, rig.sectorCycles)
            else !a.poldt
  {
    hide ScheduleNext, Buffered;
    SameNext(cd, cd.(ra := cd.ra.(burst := BurstLatch(cd, rig.freq))), rig.sectorCycles);
  }

  lemma {:induction false} SameNext(a: Cd, b: Cd, cycles: nat)
    requires a.now == b.now && a.ra.nextReady == b.ra.nextReady
    ensures ScheduleNext(a, cycles) == ScheduleNext(b, cycles)
  {
  }

  lemma {:induction false} LastByteAfter(a: Cd, rig: Rig, wait: nat)
    requires BufferOk(a) && rig.freq > 0 && !a.inReset && a.dataLen == a.wireSize && a.dataIdx == 0 && a.blocks > 0
    requires !Streaming(a)
    ensures Run(a, rig, Reads(a.wireSize - 1) + [Tick(wait), ReadByte]).poldt <==> a.now + wait >= a.ra.nextReady
  {
    hide LoadNext, Run, ScheduleNext;
    var n := a.wireSize - 1;
    ReadsDrain(a, rig, n);
    var d := a.(dataIdx := n, dataLen := 1);
    RunAppend(a, rig, Reads(n), [Tick(wait), ReadByte]);
    assert [Tick(wait), ReadByte] == [Tick(wait)] + [ReadByte];
    RunAppend(d, rig, [Tick(wait)], [ReadByte]);
    RunOne(d, rig, Tick(wait));
    var e := d.(now := d.now + wait);
    ReadsEmpty(e, rig);
    assert Reads(1) == [ReadByte];
    ReadyLoads(Emptied(e), rig);
  }

  // A run of the probe tells the two drives apart.
  lemma {:induction false} ProbeTells(cd: Cd, rig: Rig) returns (es: seq<Event>)
    requires BufferOk(cd) && rig.freq > 0 && !cd.inReset && !Streaming(cd)
    requires Due(cd) && cd.blocks >= 2 && rig.sectorCycles > 0
    ensures Run(cd, rig, es).poldt && !Run(AfterReload(cd), rig, es).poldt
  {
    hide Run, ScheduleNext, Probe;
    var deadline := ScheduleNext(cd.(now := cd.now + 1), rig.sectorCycles);
    LaterThan(cd, rig);
    var wait := Max(0, deadline - (cd.now + 1));
    ProbeShows(cd, rig, wait);
    ProbeShows(AfterReload(cd), rig, wait);
    SameProbe(cd, wait);
    es := Probe(cd, wait);
  }

  lemma {:induction false} SameProbe(cd: Cd, wait: nat)
    requires cd.wireSize > 0
    ensures Probe(AfterReload(cd), wait) == Probe(cd, wait)
  {
  }

  lemma {:induction false} LaterThan(cd: Cd, rig: Rig)
    requires Due(cd) && rig.sectorCycles > 0
    ensures var deadline := ScheduleNext(cd.(now := cd.now + 1), rig.sectorCycles);
            var late := ScheduleNext(AfterReload(cd).(now := cd.now + 1), rig.sectorCycles);
            deadline < late && cd.now + 1 < late
  {
  }

  // ---------- When a host cannot tell ----------

  // The same drive but for its deadline and the start of an audio clock it does not run.
  predicate Alike(a: Cd, b: Cd)
  {
    a == b.(ra := b.ra.(nextReady := a.ra.nextReady, baseCycle := a.ra.baseCycle))
  }

  // Neither drive's deadline holds anything back.
  predicate BothPast(a: Cd, b: Cd) { a.ra.nextReady <= a.now && b.ra.nextReady <= b.now }

  // Alike, and the deadlines either the same or without effect.
  predicate Matched(a: Cd, b: Cd, rig: Rig)
  {
    && Alike(a, b) && !Streaming(b)
    && (a.ra.nextReady == b.ra.nextReady || b.blocks == 0 || b.inReset
        || (BothPast(a, b) && (b.blocks == 1 || rig.sectorCycles == 0)))
  }

  lemma {:induction false} MatchedLoad(a: Cd, b: Cd, rig: Rig)
    requires ModeOk(a) && ModeOk(b) && rig.freq > 0 && Matched(a, b, rig)
    ensures Matched(LoadNext(a, rig), LoadNext(b, rig), rig)
  {
    hide Buffered, ScheduleNext;
    if b.dataLen == 0 && b.blocks > 0 && !b.inReset {
      BufferAlike(a, b, rig);
      NextAlike(a, b, rig.sectorCycles);
    }
  }

  lemma {:induction false} BufferAlike(a: Cd, b: Cd, rig: Rig)
    requires ModeOk(a) && ModeOk(b) && Alike(a, b)
    ensures Buffered(a, rig) == Buffered(b, rig)
  {
  }

  lemma {:induction false} NextAlike(a: Cd, b: Cd, cycles: nat)
    requires a.now == b.now
    ensures a.ra.nextReady == b.ra.nextReady || (cycles == 0 && BothPast(a, b)) ==>
              forall x: bool, y: bool ::
                ScheduleNext(a.(ra := a.ra.(burst := x)), cycles) == ScheduleNext(b.(ra := b.ra.(burst := y)), cycles)
  {
  }

  lemma {:induction false} MatchedRead(a: Cd, b: Cd, rig: Rig)
    requires BufferOk(a) && BufferOk(b) && rig.freq > 0 && Matched(a, b, rig)
    ensures Matched(AfterRead(a, rig), AfterRead(b, rig), rig) && Out(a, rig, ReadByte) == Out(b, rig, ReadByte)
  {
    hide LoadNext, Held, Loaded;
    MatchedLoad(a, b, rig);
    var l, k := LoadNext(a, rig), LoadNext(b, rig);
    if !b.inReset && l.dataLen > 0 {
      var t := l.(dataIdx := 0, dataLen := l.dataLen - 1);
      var u := k.(dataIdx := 0, dataLen := k.dataLen - 1);
      if t.dataLen == 0 && t.blocks > 0 {
        MatchedLoad(t, u, rig);
      }
    }
  }

  lemma {:induction false} MatchedStep(a: Cd, b: Cd, rig: Rig, e: Event)
    requires BufferOk(a) && BufferOk(b) && rig.freq > 0 && Matched(a, b, rig)
    ensures Matched(Step(a, rig, e), Step(b, rig, e), rig) && Out(a, rig, e) == Out(b, rig, e)
  {
    hide LoadNext, AfterRead;
    match e
    case Tick(_) =>
    case Poll => MatchedLoad(a, b, rig);
    case ReadByte => MatchedRead(a, b, rig);
    case ReadStatus => MatchedLoad(a, b, rig);
  }

  lemma {:induction false} MatchedRun(a: Cd, b: Cd, rig: Rig, es: seq<Event>)
    requires BufferOk(a) && BufferOk(b) && rig.freq > 0 && Matched(a, b, rig)
    ensures Matched(Run(a, rig, es), Run(b, rig, es), rig) && Delivered(a, rig, es) == Delivered(b, rig, es)
    decreases |es|
  {
    hide Step, Out, Matched;
    if es != [] {
      var front := es[..|es| - 1];
      MatchedRun(a, b, rig, front);
      MatchedStep(Run(a, rig, front), Run(b, rig, front), rig, es[|es| - 1]);
    }
  }

  // A deadline that a load drops makes a difference.
  predicate Matters(cd: Cd, rig: Rig) { Due(cd) && cd.blocks >= 2 && !cd.inReset && rig.sectorCycles > 0 }

  // Of every drive that is not streaming audio: the host sees the same data bits over all runs after a load
  // as without one, and reads the same bytes, if and only if no deadline had passed, or fewer than two
  // sectors were to go, or sectors take no time, or the drive is held in reset.
  lemma {:induction false} ReloadIsInvisible(cd: Cd, rig: Rig)
    requires BufferOk(cd) && rig.freq > 0 && !Streaming(cd)
    ensures (forall es :: Run(AfterReload(cd), rig, es).poldt == Run(cd, rig, es).poldt) <==> !Matters(cd, rig)
    ensures !Matters(cd, rig) ==> forall es :: Delivered(AfterReload(cd), rig, es) == Delivered(cd, rig, es)
  {
    hide Run, Delivered;
    if Matters(cd, rig) {
      var es := ProbeTells(cd, rig);
    } else {
      forall es
        ensures Run(AfterReload(cd), rig, es).poldt == Run(cd, rig, es).poldt
        ensures Delivered(AfterReload(cd), rig, es) == Delivered(cd, rig, es)
      {
        MatchedRun(AfterReload(cd), cd, rig, es);
      }
    }
  }

  // ---------- Commands too ----------

  // A new command on a data drive sets the deadline afresh or leaves nothing to wait for.
  lemma {:induction false} MatchedCommand(a: Cd, b: Cd, rig: Rig, min: Byte, sec: Byte, frame: Byte, count: nat)
    requires ModeOk(a) && ModeOk(b) && rig.freq > 0 && Matched(a, b, rig) && b.readSize != DIGITAL_AUDIO
    ensures Matched(ReadData(a, rig, min, sec, frame, count), ReadData(b, rig, min, sec, frame, count), rig)
  {
    hide LoadNext, MsfToLba, Armed, Requested;
    var lba := MsfToLba(min, sec, frame);
    RequestedAlike(a, b, rig, lba, count);
    if Accepted(b, rig, min, sec, frame, count) && count > 0 {
      MatchedLoad(Armed(a, rig, lba, count), Armed(b, rig, lba, count), rig);
    }
  }

  lemma {:induction false} RequestedAlike(a: Cd, b: Cd, rig: Rig, lba: nat, count: nat)
    requires ModeOk(a) && ModeOk(b) && Alike(a, b) && b.readSize != DIGITAL_AUDIO
    ensures var c, d := Requested(a, lba, count), Requested(b, lba, count);
            Alike(c, d) && !Streaming(d) && c.readSize == d.readSize != DIGITAL_AUDIO
    ensures Matched(Armed(a, rig, lba, count), Armed(b, rig, lba, count), rig)
  {
    hide Requested, ScheduleStart, Matched;
    RequestedIsAlike(a, b, lba, count);
    var c, d := Requested(a, lba, count), Requested(b, lba, count);
    assert !Continuous(a, lba) && !Continuous(b, lba);
    ArmedAlike(c, d, rig);
  }

  lemma {:induction false} RequestedIsAlike(a: Cd, b: Cd, lba: nat, count: nat)
    requires ModeOk(a) && ModeOk(b) && Alike(a, b) && b.readSize != DIGITAL_AUDIO
    ensures var c, d := Requested(a, lba, count), Requested(b, lba, count);
            Alike(c, d) && !Streaming(d) && c.readSize == d.readSize != DIGITAL_AUDIO
  {
    hide DropStale, StartClock;
    var e := a.(statusLen := 2, sector := lba, blocks := count);
    var f := b.(statusLen := 2, sector := lba, blocks := count);
    assert !Continuous(a, lba) && !Continuous(b, lba);
    DropAlike(e, f);
    ClockAlike(DropStale(e, false), DropStale(f, false));
  }

  lemma {:induction false} DropAlike(a: Cd, b: Cd)
    requires Alike(a, b)
    ensures Alike(DropStale(a, false), DropStale(b, false)) && DropStale(b, false).readSize == b.readSize
  {
  }

  lemma {:induction false} ClockAlike(a: Cd, b: Cd)
    requires Alike(a, b) && b.readSize != DIGITAL_AUDIO
    ensures var c, d := StartClock(a, false), StartClock(b, false);
            Alike(c, d) && !Streaming(d) && c.readSize == d.readSize == b.readSize
  {
  }

  lemma {:induction false} ArmedAlike(c: Cd, d: Cd, rig: Rig)
    requires Alike(c, d) && !Streaming(d)
    ensures Matched(Arm(c, rig.sectorCycles, false), Arm(d, rig.sectorCycles, false), rig)
  {
  }

  lemma {:induction false} MatchedHostRun(a: Cd, b: Cd, rig: Rig, hs: seq<HostEvent>)
    requires BufferOk(a) && BufferOk(b) && rig.freq > 0 && Matched(a, b, rig) && b.readSize != DIGITAL_AUDIO
    ensures Matched(HostRun(a, rig, hs), HostRun(b, rig, hs), rig) && HostRun(b, rig, hs).readSize == b.readSize
    decreases |hs|
  {
    hide Step, ReadData, Matched;
    if hs != [] {
      var front, h := hs[..|hs| - 1], hs[|hs| - 1];
      MatchedHostRun(a, b, rig, front);
      var c, d := HostRun(a, rig, front), HostRun(b, rig, front);
      match h
      case Drive(e) =>
        MatchedStep(c, d, rig, e);
        StepKeepsMode(d, rig, e);
      case Command(min, sec, frame, count) =>
        MatchedCommand(c, d, rig, min, sec, frame, count);
        CommandKeepsMode(d, rig, min, sec, frame, count);
    }
  }

  lemma {:induction false} CommandKeepsMode(cd: Cd, rig: Rig, min: Byte, sec: Byte, frame: Byte, count: nat)
    requires ModeOk(cd) && rig.freq > 0
    ensures ReadData(cd, rig, min, sec, frame, count).readSize == cd.readSize
  {
    hide LoadNext, MsfToLba, Held, Loaded;
  }

  function Drives(es: seq<Event>): seq<HostEvent> { seq(|es|, i requires 0 <= i < |es| => Drive(es[i])) }

  lemma {:induction false} DrivesRun(cd: Cd, rig: Rig, es: seq<Event>)
    requires BufferOk(cd) && rig.freq > 0
    ensures HostRun(cd, rig, Drives(es)) == Run(cd, rig, es)
    decreases |es|
  {
    hide Step;
    if es != [] {
      assert Drives(es)[..|es| - 1] == Drives(es[..|es| - 1]);
      DrivesRun(cd, rig, es[..|es| - 1]);
    }
  }

  // The same for a data drive over runs with further commands in them.
  lemma {:induction false} ReloadIsInvisibleToHost(cd: Cd, rig: Rig)
    requires BufferOk(cd) && rig.freq > 0 && cd.readSize != DIGITAL_AUDIO
    ensures (forall hs :: HostRun(AfterReload(cd), rig, hs).poldt == HostRun(cd, rig, hs).poldt) <==> !Matters(cd, rig)
  {
    hide HostRun, Run;
    if Matters(cd, rig) {
      var es := ProbeTells(cd, rig);
      DrivesRun(cd, rig, es);
      DrivesRun(AfterReload(cd), rig, es);
      assert HostRun(AfterReload(cd), rig, Drives(es)).poldt != HostRun(cd, rig, Drives(es)).poldt;
    } else {
      forall hs
        ensures HostRun(AfterReload(cd), rig, hs).poldt == HostRun(cd, rig, hs).poldt
      {
        MatchedHostRun(AfterReload(cd), cd, rig, hs);
      }
    }
  }

  // ---------- Audio streams ----------

  // The cycle at which the read-ahead gate of the next sector opens is now.
  predicate AtGate(cd: Cd, freq: nat) { GateCycle(cd, freq) != 0 && cd.now == GateCycle(cd, freq) }

  // A sector that the burst does not load can pass the gate only in the gate's own cycle.
  lemma {:induction false} UnburstAtGate(cd: Cd, rig: Rig)
    requires rig.freq >= FRAMES_PER_SECOND && Streaming(cd) && cd.ra.baseLba <= cd.sector && cd.ra.baseCycle <= cd.now
    requires !CanBurst(cd, rig.freq) && GateCycle(cd, rig.freq) <= cd.now
    ensures AtGate(cd, rig.freq)
  {
    var k := cd.sector - cd.ra.baseLba - (READ_AHEAD_CAP - 1);
    var t := cd.now - cd.ra.baseCycle;
    assert ElapsedFrames(cd, rig.freq) < k;
    FloorGap(t, k, rig.freq);
  }

  // If k frames are not over at t, t is no later than the floor of their length.
  lemma {:induction false} FloorGap(t: nat, k: nat, freq: nat)
    requires freq > 0 && (t * FRAMES_PER_SECOND) / freq < k
    ensures t <= (k * freq) / FRAMES_PER_SECOND
  {
    var q := (t * FRAMES_PER_SECOND) / freq;
    assert t * FRAMES_PER_SECOND < (q + 1) * freq;
    MulMono(q + 1, k, freq);
  }

  // Streams alike but for a deadline that neither has before it.
  predicate Pending(a: Cd, b: Cd)
  {
    && Streaming(b) && b.wireSize > 1 && b.ra.baseLba <= b.sector && b.ra.baseCycle <= b.now
    && (a == b || (a == b.(ra := b.ra.(nextReady := a.ra.nextReady)) && BothPast(a, b)))
  }

  lemma {:induction false} PendingLoad(a: Cd, b: Cd, rig: Rig)
    requires ModeOk(a) && ModeOk(b) && rig.freq >= FRAMES_PER_SECOND && Pending(a, b) && !AtGate(b, rig.freq)
    ensures Pending(LoadNext(a, rig), LoadNext(b, rig))
  {
    hide Buffered, ScheduleNext, GateCycle, ReadAhead;
    if b.dataLen == 0 && b.blocks > 0 && !b.inReset && a != b {
      GateAlike(a, b, rig.freq);
      BufferAlike(a, b, rig);
      if !CanBurst(b, rig.freq) && GateCycle(b, rig.freq) <= b.now {
        UnburstAtGate(b, rig);
      }
    }
  }

  // Neither the gate nor the burst looks at the deadline.
  lemma {:induction false} GateAlike(a: Cd, b: Cd, freq: nat)
    requires freq > 0 && a == b.(ra := b.ra.(nextReady := a.ra.nextReady))
    ensures CanBurst(a, freq) == CanBurst(b, freq) && BurstLatch(a, freq) == BurstLatch(b, freq)
    ensures forall x: bool, y: bool ::
              GateCycle(a.(ra := a.ra.(burst := x)), freq) == GateCycle(b.(ra := b.ra.(burst := y)), freq)
    ensures forall y: bool :: GateCycle(b.(ra := b.ra.(burst := y)), freq) == GateCycle(b, freq)
  {
  }

  lemma {:induction false} PendingRead(a: Cd, b: Cd, rig: Rig)
    requires BufferOk(a) && BufferOk(b) && rig.freq >= FRAMES_PER_SECOND && Pending(a, b) && !AtGate(b, rig.freq)
    ensures Pending(AfterRead(a, rig), AfterRead(b, rig)) && Out(a, rig, ReadByte) == Out(b, rig, ReadByte)
  {
    hide LoadNext, AtGate, Held, Loaded, SameFrame;
    PendingLoad(a, b, rig);
    var l, k := LoadNext(a, rig), LoadNext(b, rig);
    LoadKeepsReset(a, rig);
    LoadKeepsReset(b, rig);
    if !b.inReset && k.dataLen == 1 && k.blocks > 0 {
      OneLeft(b, rig);
      PendingLoad(Emptied(l), Emptied(k), rig);
    }
  }

  lemma {:induction false} LoadKeepsReset(cd: Cd, rig: Rig)
    requires BufferOk(cd) && rig.freq > 0
    ensures LoadNext(cd, rig).inReset == cd.inReset && BufferOk(LoadNext(cd, rig))
  {
    hide LoadNext;
  }

  // A buffer down to its last byte was not loaded just now, so the gate is still the same.
  lemma {:induction false} OneLeft(cd: Cd, rig: Rig)
    requires ModeOk(cd) && rig.freq > 0 && cd.wireSize > 1 && LoadNext(cd, rig).dataLen == 1
    ensures AtGate(Emptied(LoadNext(cd, rig)), rig.freq) == AtGate(cd, rig.freq)
  {
    hide LoadNext, AtGate;
    SameGate(Emptied(LoadNext(cd, rig)), cd, rig.freq);
  }

  lemma {:induction false} SameGate(a: Cd, b: Cd, freq: nat)
    requires a.now == b.now && a.sector == b.sector && a.readSize == b.readSize
    requires a.ra.(nextReady := 0, burst := false) == b.ra.(nextReady := 0, burst := false)
    ensures AtGate(a, freq) == AtGate(b, freq)
  {
  }

  lemma {:induction false} PendingStatus(a: Cd, b: Cd, rig: Rig)
    requires BufferOk(a) && BufferOk(b) && rig.freq >= FRAMES_PER_SECOND && Pending(a, b) && !AtGate(b, rig.freq)
    ensures Pending(AfterStatusRead(a, rig), AfterStatusRead(b, rig))
  {
    hide LoadNext, AtGate, Held, Loaded, SameFrame;
    PendingLoad(a, b, rig);
  }

  lemma {:induction false} PendingStep(a: Cd, b: Cd, rig: Rig, e: Event)
    requires BufferOk(a) && BufferOk(b) && rig.freq >= FRAMES_PER_SECOND && Pending(a, b) && !AtGate(b, rig.freq)
    ensures Pending(Step(a, rig, e), Step(b, rig, e)) && Out(a, rig, e) == Out(b, rig, e)
  {
    hide LoadNext, AfterRead, AfterStatusRead, AtGate, Held, Loaded, SameFrame;
    match e
    case Tick(_) =>
    case Poll => PendingLoad(a, b, rig);
    case ReadByte => PendingRead(a, b, rig);
    case ReadStatus => PendingStatus(a, b, rig);
  }

  // No event of the run comes in the cycle in which a gate opens.
  ghost predicate AvoidsGates(cd: Cd, rig: Rig, es: seq<Event>)
    requires BufferOk(cd) && rig.freq > 0
  {
    forall i :: 0 <= i < |es| ==> !AtGate(Run(cd, rig, es[..i]), rig.freq)
  }

  // A stream reloaded with a passed deadline shows the host the same data bits and bytes over every run that
  // avoids the one cycle in which a gate opens; only there can a sector be loaded on schedule, not by the burst.
  lemma {:induction false} AudioReload(cd: Cd, rig: Rig, es: seq<Event>)
    requires BufferOk(cd) && rig.freq >= FRAMES_PER_SECOND && Streaming(cd)
    requires cd.ra.baseLba <= cd.sector && cd.ra.baseCycle <= cd.now && AvoidsGates(cd, rig, es)
    ensures Run(AfterReload(cd), rig, es).poldt == Run(cd, rig, es).poldt
    ensures Delivered(AfterReload(cd), rig, es) == Delivered(cd, rig, es)
  {
    hide Run, Delivered, AtGate;
    PendingRun(AfterReload(cd), cd, rig, es);
  }

  lemma {:induction false} PendingRun(a: Cd, b: Cd, rig: Rig, es: seq<Event>)
    requires BufferOk(a) && BufferOk(b) && rig.freq >= FRAMES_PER_SECOND && Pending(a, b) && AvoidsGates(b, rig, es)
    ensures Pending(Run(a, rig, es), Run(b, rig, es)) && Delivered(a, rig, es) == Delivered(b, rig, es)
    decreases |es|
  {
    hide Step, Out, Pending, AtGate;
    if es != [] {
      var n := |es| - 1;
      forall i | 0 <= i < n
        ensures !AtGate(Run(b, rig, es[..n][..i]), rig.freq)
      {
        assert es[..n][..i] == es[..i];
      }
      PendingRun(a, b, rig, es[..n]);
      PendingStep(Run(a, rig, es[..n]), Run(b, rig, es[..n]), rig, es[n]);
    }
  }
}
