/**
 How far CD-DA streaming may run ahead of playback.
 */
module CdromReadAhead {
  import opened Words
  import opened CdromTransfer

  datatype HostEvent = Drive(event: Event) | Command(min: Byte, sec: Byte, frame: Byte, count: nat)

  function HostStep(cd: Cd, rig: Rig, h: HostEvent): (r: Cd)
    requires BufferOk(cd) && rig.freq > 0
    ensures BufferOk(r)
  {
    match h
    case Drive(e) => Step(cd, rig, e)
    case Command(min, sec, frame, count) =>
      CommandKeepsBuffer(cd, rig, min, sec, frame, count);
      ReadData(cd, rig, min, sec, frame, count)
  }

  lemma CommandKeepsBuffer(cd: Cd, rig: Rig, min: Byte, sec: Byte, frame: Byte, count: nat)
    requires BufferOk(cd) && rig.freq > 0
    ensures BufferOk(ReadData(cd, rig, min, sec, frame, count))
  {
    hide LoadNext, MsfToLba, ScheduleStart;
  }

  function HostRun(cd: Cd, rig: Rig, hs: seq<HostEvent>): (r: Cd)
    requires BufferOk(cd) && rig.freq > 0
    ensures BufferOk(r)
    decreases |hs|
  {
    if hs == [] then cd else HostStep(HostRun(cd, rig, hs[..|hs| - 1]), rig, hs[|hs| - 1])
  }

  // Sectors streamed since the audio clock started.
  function Streamed(cd: Cd): int { cd.sector - cd.ra.baseLba }

  predicate WithinReadAhead(cd: Cd, rig: Rig)
    requires rig.freq > 0
  {
    Streaming(cd) ==> Streamed(cd) <= ElapsedFrames(cd, rig.freq) + READ_AHEAD_CAP + 1
  }

  predicate Invariant(cd: Cd, rig: Rig)
  {
    && rig.freq >= FRAMES_PER_SECOND
    && BufferOk(cd)
    && WithinReadAhead(cd, rig)
    && (Streaming(cd) ==> cd.ra.baseLba <= cd.sector && cd.ra.baseCycle <= cd.now)
    && (cd.ra.haveExpected ==> cd.sector + cd.blocks == cd.ra.expectedLba)
  }

  // A follow-on of the running stream comes only once its sectors are all loaded.
  predicate Polite(cd: Cd, rig: Rig, h: HostEvent)
  {
    var followOn :=
      && h.Command? && Accepted(cd, rig, h.min, h.sec, h.frame, h.count)
      && Continuous(cd, MsfToLba(h.min, h.sec, h.frame)) && cd.ra.clockActive;
    followOn ==> cd.blocks == 0
  }

  ghost predicate PoliteRun(cd: Cd, rig: Rig, hs: seq<HostEvent>)
    requires BufferOk(cd) && rig.freq > 0
  {
    forall i :: 0 <= i < |hs| ==> Polite(HostRun(cd, rig, hs[..i]), rig, hs[i])
  }

  // ---------- The two roundings ----------

  lemma DivAtLeast(x: int, d: int, q: int)
    requires d > 0 && q * d <= x
    ensures q <= x / d
  {
    var r := x / d;
    assert x == d * r + x % d;
    assert q * d == r * d + (q - r) * d;
    if r < q {
      MulAtLeast(q - r, d);
    }
  }

  lemma MulAtLeast(n: int, d: int)
    requires n >= 1 && d > 0
    ensures n * d >= d
  {
  }

  // Past the gate for k frames, playback has reached at least frame k - 1.
  lemma GateReached(c: int, k: int, freq: int)
    requires freq >= FRAMES_PER_SECOND && k >= 0
    requires c >= (k * freq) / FRAMES_PER_SECOND
    ensures (c * FRAMES_PER_SECOND) / freq >= k - 1
  {
    var n := k * freq;
    assert n == 75 * (n / 75) + n % 75;
    assert (k - 1) * freq == n - freq;
    DivAtLeast(c * 75, freq, k - 1);
  }

  // Once playback has reached frame k, the gate for k frames is open.
  lemma GateOpen(c: int, k: int, freq: int)
    requires freq > 0 && (c * FRAMES_PER_SECOND) / freq >= k
    ensures c >= (k * freq) / FRAMES_PER_SECOND
  {
    var x := c * 75;
    assert x == freq * (x / freq) + x % freq;
    assert freq * (x / freq) >= freq * k;
    assert k * freq == freq * k;
  }

  lemma ElapsedMonotone(cd: Cd, later: Cd, freq: nat)
    requires freq > 0 && cd.now <= later.now && later.ra.baseCycle == cd.ra.baseCycle
    ensures ElapsedFrames(cd, freq) <= ElapsedFrames(later, freq)
  {
    if cd.now > cd.ra.baseCycle {
      var x, y := (cd.now - cd.ra.baseCycle) * 75, (later.now - cd.ra.baseCycle) * 75;
      assert x == freq * (x / freq) + x % freq;
      assert (x / freq) * freq == freq * (x / freq);
      DivAtLeast(y, freq, x / freq);
    }
  }

  // ---------- The bound ----------

  lemma LoadWithinReadAhead(cd: Cd, rig: Rig)
    requires Invariant(cd, rig)
    ensures Invariant(LoadNext(cd, rig), rig)
  {
    var r := LoadNext(cd, rig);
    SameElapsed(cd, r, rig.freq);
    if Streaming(cd) && r.sector != cd.sector {
      LoadedPastGate(cd, rig);
      if Streamed(cd) >= READ_AHEAD_CAP {
        hide LoadNext, GateCycle;
        GateReached(cd.now - cd.ra.baseCycle, Streamed(cd) - (READ_AHEAD_CAP - 1), rig.freq);
      }
    }
  }

  lemma SameElapsed(a: Cd, b: Cd, freq: nat)
    requires freq > 0 && SameFrame(a, b)
    ensures ElapsedFrames(a, freq) == ElapsedFrames(b, freq) && Streaming(a) == Streaming(b)
  {
  }

  // A sector is only loaded once the clock has passed its gate.
  lemma LoadedPastGate(cd: Cd, rig: Rig)
    requires ModeOk(cd) && rig.freq > 0 && Streaming(cd) && cd.ra.baseLba <= cd.sector
    requires LoadNext(cd, rig).sector != cd.sector
    ensures Streamed(cd) < READ_AHEAD_CAP ||
            cd.now >= cd.ra.baseCycle + ((Streamed(cd) - (READ_AHEAD_CAP - 1)) * rig.freq) / FRAMES_PER_SECOND
  {
    hide BurstLatch, Buffered, ScheduleNext;
    var latched := cd.(ra := cd.ra.(burst := BurstLatch(cd, rig.freq)));
    assert GateCycle(latched, rig.freq) == GateCycle(cd, rig.freq);
  }

  // While fewer than the cap are ahead, the gate never holds a burst back.
  lemma BurstNeverGated(cd: Cd, rig: Rig)
    requires ModeOk(cd) && rig.freq > 0 && !cd.inReset && cd.dataLen == 0 && cd.blocks > 0
    requires Streaming(cd) && cd.ra.baseLba <= cd.sector && ReadAhead(cd, rig.freq) < READ_AHEAD_CAP
    ensures LoadNext(cd, rig).sector == cd.sector + 1
  {
    hide Buffered, ScheduleNext, ElapsedFrames;
    var latched := cd.(ra := cd.ra.(burst := BurstLatch(cd, rig.freq)));
    assert latched.ra.burst;
    assert GateCycle(latched, rig.freq) <= cd.now by {
      if Streamed(cd) >= READ_AHEAD_CAP {
        ReadAheadOpensGate(cd, rig.freq);
      }
    }
  }

  lemma ReadAheadOpensGate(cd: Cd, freq: nat)
    requires freq > 0 && Streaming(cd) && Streamed(cd) >= READ_AHEAD_CAP
    requires ReadAhead(cd, freq) < READ_AHEAD_CAP
    ensures GateCycle(cd, freq) <= cd.now
  {
    var k := Streamed(cd) - (READ_AHEAD_CAP - 1);
    assert ElapsedFrames(cd, freq) >= k;
    GateOpen(cd.now - cd.ra.baseCycle, k, freq);
  }

  lemma ReadWithinReadAhead(cd: Cd, rig: Rig)
    requires Invariant(cd, rig)
    ensures Invariant(AfterRead(cd, rig), rig)
  {
    hide LoadNext, WithinReadAhead, Held, Loaded, SameFrame, Streaming;
    LoadWithinReadAhead(cd, rig);
    var l := LoadNext(cd, rig);
    if l.dataLen > 0 && !cd.inReset {
      var t := Popped(l);
      SameClock(l, t, rig);
      LoadWithinReadAhead(t, rig);
      SameClock(t, PublishStatus(t.(poldt := false)), rig);
    }
  }

  lemma StepWithinReadAhead(cd: Cd, rig: Rig, e: Event)
    requires Invariant(cd, rig)
    ensures Invariant(Step(cd, rig, e), rig)
  {
    hide LoadNext, ElapsedFrames, AfterRead;
    LoadWithinReadAhead(cd, rig);
    match e
    case Tick(cycles) => ElapsedMonotone(cd, Step(cd, rig, e), rig.freq);
    case Poll =>
    case ReadByte => ReadWithinReadAhead(cd, rig);
    case ReadStatus =>
      if !cd.inReset {
        SameClock(LoadNext(cd, rig), AfterStatusRead(cd, rig), rig);
      }
  }

  // The invariant reads only the position, the request and the clock.
  lemma SameClock(a: Cd, b: Cd, rig: Rig)
    requires rig.freq > 0 && Invariant(a, rig) && BufferOk(b)
    requires a.now == b.now && a.sector == b.sector && a.blocks == b.blocks && a.readSize == b.readSize
    requires a.ra.(statusPending := false) == b.ra.(statusPending := false)
    ensures Invariant(b, rig)
  {
  }

  // Recording a request keeps the bound: a new stream starts at zero, a polite follow-on moves nothing.
  lemma RequestWithinReadAhead(cd: Cd, rig: Rig, lba: nat, count: nat)
    requires Invariant(cd, rig)
    requires Continuous(cd, lba) && cd.ra.clockActive ==> cd.blocks == 0
    ensures var r := Requested(cd, lba, count);
            Invariant(r.(dataLen := 0, dataIdx := 0), rig)
  {
    var r := Requested(cd, lba, count);
    if Continuous(cd, lba) && cd.ra.clockActive {
      assert r.ra.baseLba == cd.ra.baseLba && r.ra.baseCycle == cd.ra.baseCycle && r.sector == cd.sector;
    }
  }

  lemma CommandWithinReadAhead(cd: Cd, rig: Rig, h: HostEvent)
    requires Invariant(cd, rig) && h.Command? && Polite(cd, rig, h)
    ensures Invariant(HostStep(cd, rig, h), rig)
  {
    hide LoadNext, ElapsedFrames, Requested, MsfToLba, ScheduleStart;
    var lba := MsfToLba(h.min, h.sec, h.frame);
    var r := ReadData(cd, rig, h.min, h.sec, h.frame, h.count);
    CommandKeepsBuffer(cd, rig, h.min, h.sec, h.frame, h.count);
    if !cd.mediaReady {
      SameClock(cd, r, rig);
    } else if Accepted(cd, rig, h.min, h.sec, h.frame, h.count) {
      RequestWithinReadAhead(cd, rig, lba, h.count);
      var q := Requested(cd, lba, h.count).(dataLen := 0, dataIdx := 0);
      if h.count == 0 {
        SameClock(q, r, rig);
      } else {
        var d := Armed(cd, rig, lba, h.count);
        SameClock(q, d.(ra := d.ra.(nextReady := q.ra.nextReady)), rig);
        SameStart(d.(ra := d.ra.(nextReady := q.ra.nextReady)), d, rig);
        LoadWithinReadAhead(d, rig);
      }
    }
  }

  lemma SameStart(a: Cd, b: Cd, rig: Rig)
    requires rig.freq > 0 && Invariant(a, rig) && b == a.(ra := a.ra.(nextReady := b.ra.nextReady))
    ensures Invariant(b, rig)
  {
  }

  // The read-ahead theorem, over every polite run: sectors streamed never exceed the frames
  // played plus 49, one more than the cap because two divisions round down.
  lemma {:induction false} ReadAheadBound(cd: Cd, rig: Rig, hs: seq<HostEvent>)
    requires Invariant(cd, rig) && PoliteRun(cd, rig, hs)
    ensures Invariant(HostRun(cd, rig, hs), rig)
    decreases |hs|
  {
    hide HostStep, Polite, WithinReadAhead;
    if hs != [] {
      var n := |hs| - 1;
      assert Polite(HostRun(cd, rig, hs[..n]), rig, hs[n]);
      forall i | 0 <= i < n
        ensures Polite(HostRun(cd, rig, hs[..n][..i]), rig, hs[..n][i])
      {
        assert hs[..n][..i] == hs[..i];
      }
      ReadAheadBound(cd, rig, hs[..n]);
      HostStepWithin(HostRun(cd, rig, hs[..n]), rig, hs[n]);
    }
  }

  lemma HostStepWithin(cd: Cd, rig: Rig, h: HostEvent)
    requires Invariant(cd, rig) && Polite(cd, rig, h)
    ensures BufferOk(cd) && Invariant(HostStep(cd, rig, h), rig)
  {
    hide Step, ReadData, ElapsedFrames;
    match h
    case Drive(e) => StepWithinReadAhead(cd, rig, e);
    case Command(min, sec, frame, count) => CommandWithinReadAhead(cd, rig, h);
  }

  // Exactly how far an impolite follow-on overshoots: by the sectors it skipped.
  lemma FollowOnJump(cd: Cd, rig: Rig, lba: nat, count: nat)
    requires Invariant(cd, rig) && count > 0 && Streaming(cd) && Continuous(cd, lba)
    ensures var r := Armed(cd, rig, lba, count);
            && Streamed(r) == Streamed(cd) + cd.blocks
            && (WithinReadAhead(r, rig) <==>
                Streamed(cd) + cd.blocks <= ElapsedFrames(cd, rig.freq) + READ_AHEAD_CAP + 1)
  {
    var r := Armed(cd, rig, lba, count);
    assert r.ra.baseLba == cd.ra.baseLba && r.ra.baseCycle == cd.ra.baseCycle && r.now == cd.now;
    assert ElapsedFrames(r, rig.freq) == ElapsedFrames(cd, rig.freq);
  }

  // ---------- The bound is reached ----------

  const DEFAULT_FREQ: nat := 12500000

  // One frame less a rounding after the stream started, the 49th sector is let through.
  lemma {:induction false} TightStep(cd: Cd, rig: Rig)
    requires ModeOk(cd) && rig.freq == DEFAULT_FREQ
    requires Streaming(cd) && !cd.inReset && cd.dataLen == 0 && cd.blocks > 0
    requires Streamed(cd) == 48 && cd.now == cd.ra.baseCycle + 166666 && cd.ra.nextReady <= cd.now
    ensures Streamed(LoadNext(cd, rig)) == ElapsedFrames(LoadNext(cd, rig), rig.freq) + READ_AHEAD_CAP + 1
  {
    hide Buffered, ScheduleNext;
    assert ElapsedFrames(cd, rig.freq) == 0;
    var latched := cd.(ra := cd.ra.(burst := BurstLatch(cd, rig.freq)));
    assert GateCycle(latched, rig.freq) == cd.now;
    assert LoadNext(cd, rig).sector == cd.sector + 1;
    SameElapsed(cd, LoadNext(cd, rig), rig.freq);
  }

  // A stream in its first burst, with k sectors loaded at the cycle it started.
  predicate Bursting(cd: Cd, k: nat)
  {
    && BufferOk(cd) && !cd.inReset && Streaming(cd) && cd.ra.burst
    && cd.now == cd.ra.baseCycle == cd.ra.nextReady && Streamed(cd) == k
    && cd.dataLen == cd.wireSize && cd.dataIdx == 0 && cd.blocks + k >= 49
  }

  lemma {:induction false} BurstLoads(cd: Cd, rig: Rig, k: nat)
    requires ModeOk(cd) && rig.freq > 0 && !cd.inReset && Streaming(cd) && cd.ra.burst && cd.now == cd.ra.baseCycle
    requires Streamed(cd) == k < 48 && cd.dataLen == 0 && cd.dataIdx == 0 && cd.blocks + k >= 49
    ensures Bursting(LoadNext(cd, rig), k + 1)
  {
    hide Buffered, ScheduleNext;
    assert ElapsedFrames(cd, rig.freq) == 0;
  }

  lemma {:induction false} BurstTo(cd: Cd, rig: Rig, k: nat) returns (es: seq<Event>)
    requires rig.freq > 0 && Bursting(cd, 1) && 1 <= k <= 48
    ensures Bursting(Run(cd, rig, es), k)
    decreases k
  {
    hide LoadNext, Run, BufferOk;
    BurstIsOk(cd, 1);
    if k == 1 {
      es := [];
      RunNothing(cd, rig);
    } else {
      var front := BurstTo(cd, rig, k - 1);
      var d := Run(cd, rig, front);
      BurstIsOk(d, k - 1);
      es := front + Reads(d.wireSize);
      RunAppend(cd, rig, front, Reads(d.wireSize));
      ReadsEmpty(d, rig);
      BurstLoads(Emptied(d), rig, k - 1);
    }
  }

  lemma {:induction false} BurstIsOk(cd: Cd, k: nat)
    requires Bursting(cd, k)
    ensures BufferOk(cd) && cd.wireSize > 0 && ModeOk(Emptied(cd))
  {
  }

  lemma {:induction false} RunNothing(cd: Cd, rig: Rig)
    requires BufferOk(cd) && rig.freq > 0
    ensures Run(cd, rig, []) == cd
  {
  }

  // After 48 sectors the gate holds the 49th back for a frame, rounded down.
  lemma {:induction false} BurstEnds(cd: Cd, rig: Rig)
    requires ModeOk(cd) && rig.freq == DEFAULT_FREQ && !cd.inReset && Streaming(cd) && cd.dataLen == 0 && cd.blocks > 0
    requires cd.now == cd.ra.baseCycle == cd.ra.nextReady && Streamed(cd) == 48
    ensures var r := LoadNext(cd, rig);
            r == cd.(poldt := false, ra := r.ra) && r.ra == cd.ra.(burst := false, nextReady := cd.now + 166666)
  {
    hide Buffered, ScheduleNext;
    assert ElapsedFrames(cd, rig.freq) == 0;
    var latched := cd.(ra := cd.ra.(burst := BurstLatch(cd, rig.freq)));
    assert GateCycle(latched, rig.freq) == cd.now + 166666;
  }

  // From every accepted audio command of 49 sectors or more that starts a stream at 12.5 MHz, a host that
  // reads as fast as it can brings the stream exactly to the bound.
  lemma {:induction false} BoundIsTight(cd: Cd, rig: Rig, min: Byte, sec: Byte, frame: Byte, count: nat)
    returns (es: seq<Event>)
    requires BufferOk(cd) && !cd.inReset && rig.freq == DEFAULT_FREQ && cd.readSize == DIGITAL_AUDIO && count >= 49
    requires Accepted(cd, rig, min, sec, frame, count) && !Continuous(cd, MsfToLba(min, sec, frame))
    ensures BufferOk(ReadData(cd, rig, min, sec, frame, count))
    ensures var r := Run(ReadData(cd, rig, min, sec, frame, count), rig, es);
            Streaming(r) && Streamed(r) == ElapsedFrames(r, rig.freq) + READ_AHEAD_CAP + 1
  {
    hide LoadNext, Run, ElapsedFrames, MsfToLba, Reads, ScheduleStart;
    var start := ReadData(cd, rig, min, sec, frame, count);
    BurstLoads(start, rig, 0);
    RunOne(start, rig, Poll);
    var first := LoadNext(start, rig);
    var burst := BurstTo(first, rig, 48);
    RunAppend(start, rig, [Poll], burst);
    var d := Run(first, rig, burst);
    var last := FromFullBurst(d, rig);
    es := [Poll] + burst + last;
    RunAppend(start, rig, [Poll] + burst, last);
  }

  lemma {:induction false} FromFullBurst(d: Cd, rig: Rig) returns (es: seq<Event>)
    requires rig.freq == DEFAULT_FREQ && Bursting(d, 48)
    ensures var r := Run(d, rig, es);
            Streaming(r) && Streamed(r) == ElapsedFrames(r, rig.freq) + READ_AHEAD_CAP + 1
  {
    hide LoadNext, Run, ElapsedFrames, Reads;
    var drain := Reads(d.wireSize);
    ReadsEmpty(d, rig);
    BurstEnds(Emptied(d), rig);
    var e := LoadNext(Emptied(d), rig);
    es := drain + [Tick(166666)] + [Poll];
    RunAppend(d, rig, drain, [Tick(166666)]);
    RunAppend(d, rig, drain + [Tick(166666)], [Poll]);
    RunOne(e, rig, Tick(166666));
    var f := e.(now := e.now + 166666);
    RunOne(f, rig, Poll);
    TightStep(f, rig);
  }
}
