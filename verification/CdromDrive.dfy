/**
 The CD-ROM device as the emulator runs it: a device record updated step by
 step by the READ_DATA command, the sector loader and the FIFOs, each method
 proved against its specification in CdromTransfer, and what a host that drives
 the device through them gets.
 */
module CdromDrive {
  import opened Words
  import opened CdromTransfer

  class CdDrive {
    const rig: Rig
    var cd: Cd

    ghost predicate Valid()
      reads this
    {
      rig.freq > 0 && BufferOk(cd)
    }

    constructor (rig: Rig, readSize: nat, wireSize: nat)
      requires rig.freq > 0 && 0 < readSize <= wireSize <= BUFFER_SIZE
      ensures Valid() && this.rig == rig && cd.blocks == 0 && cd.dataLen == 0
    {
      this.rig := rig;
      cd := Cd(0, false, false, false, true, 0, readSize, wireSize, 0, 0, Zeros(BUFFER_SIZE), 0, 0,
               ReadAheadState(0, 0, false, false, 0, 0, false, false), []);
    }

    method Elapsed() returns (frames: nat)
      requires Valid()
      ensures frames == ElapsedFrames(cd, rig.freq)
    {
      if cd.now <= cd.ra.baseCycle {
        return 0;
      }
      frames := ((cd.now - cd.ra.baseCycle) * FRAMES_PER_SECOND) / rig.freq;
    }

    method ReadAheadSectors() returns (ahead: nat)
      requires Valid()
      ensures ahead == ReadAhead(cd, rig.freq)
    {
      hide ElapsedFrames;
      if cd.readSize != DIGITAL_AUDIO || !cd.ra.clockActive || cd.sector < cd.ra.baseLba {
        return 0;
      }
      var streamed := cd.sector - cd.ra.baseLba;
      var elapsed := Elapsed();
      if streamed <= elapsed {
        return 0;
      }
      ahead := streamed - elapsed;
    }

    method AudioCanBurst() returns (can: bool)
      requires Valid()
      modifies this
      ensures can == CanBurst(old(cd), rig.freq)
      ensures cd == old(cd).(ra := old(cd).ra.(burst := BurstLatch(old(cd), rig.freq)))
    {
      hide ElapsedFrames;
      var ahead := ReadAheadSectors();
      if cd.readSize != DIGITAL_AUDIO || !cd.ra.clockActive {
        return false;
      }
      if ahead >= READ_AHEAD_CAP {
        cd := cd.(ra := cd.ra.(burst := false));
        return false;
      }
      if !cd.ra.burst && ahead <= READ_AHEAD_CAP - 1 {
        cd := cd.(ra := cd.ra.(burst := true));
      }
      can := cd.ra.burst;
    }

    method ReadAheadCycle() returns (cycle: nat)
      requires Valid()
      ensures cycle == GateCycle(cd, rig.freq)
    {
      if cd.readSize != DIGITAL_AUDIO || !cd.ra.clockActive || cd.sector < cd.ra.baseLba {
        return 0;
      }
      var elapsed := cd.sector - cd.ra.baseLba;
      if elapsed < READ_AHEAD_CAP {
        return 0;
      }
      elapsed := elapsed - (READ_AHEAD_CAP - 1);
      cycle := cd.ra.baseCycle + (elapsed * rig.freq) / FRAMES_PER_SECOND;
    }

    method ScheduleFollowing()
      requires Valid()
      modifies this
      ensures cd == old(cd).(ra := old(cd).ra.(nextReady := ScheduleNext(old(cd), rig.sectorCycles)))
    {
      if cd.ra.nextReady == 0 {
        cd := cd.(ra := cd.ra.(nextReady := cd.now + rig.sectorCycles));
        return;
      }
      var next := cd.ra.nextReady + rig.sectorCycles;
      cd := cd.(ra := cd.ra.(nextReady := next));
      if next - cd.now < 0 - rig.sectorCycles {
        cd := cd.(ra := cd.ra.(nextReady := cd.now));
      }
    }

    // cdrom_data_load_next_if_ready
    method LoadNextIfReady()
      requires Valid()
      modifies this
      ensures cd == LoadNext(old(cd), rig) && Valid()
      ensures Transferring(old(cd), rig) ==> Transferring(cd, rig) && Remaining(cd, rig) == Remaining(old(cd), rig)
    {
      hide GateCycle, BurstLatch, CanBurst, ScheduleNext, Buffered, Remaining, Transferring;
      LoadConserves(cd, rig);
      if cd.inReset || cd.dataLen > 0 || cd.blocks == 0 {
        return;
      }
      var audioBurst := AudioCanBurst();
      if !audioBurst && cd.now < cd.ra.nextReady {
        cd := cd.(poldt := false);
        return;
      }
      var gate := ReadAheadCycle();
      if gate != 0 && cd.now < gate {
        cd := cd.(ra := cd.ra.(burst := false, nextReady := gate), poldt := false);
        return;
      }
      ghost var ready := cd;
      TakeSector(audioBurst);
      assert cd == LoadSector(ready, rig, audioBurst);
    }

    method TakeSector(audioBurst: bool)
      requires rig.freq > 0 && BufferOk(cd) && cd.blocks > 0 && cd.dataLen == 0
      modifies this
      ensures cd == LoadSector(old(cd), rig, audioBurst) && Valid()
    {
      hide ScheduleNext;
      var lba := cd.sector;
      cd := cd.(sector := lba + 1, loads := cd.loads + [lba]);
      cd := cd.(data := Zeros(cd.wireSize) + cd.data[cd.wireSize..]);
      var bytes := SectorBytes(rig.disc, lba, cd.readSize);
      cd := cd.(data := bytes + cd.data[|bytes|..]);
      cd := cd.(dataLen := cd.wireSize, blocks := cd.blocks - 1, poldt := true);
      if audioBurst {
        cd := cd.(ra := cd.ra.(nextReady := cd.now));
      } else {
        SameSchedule(cd, old(cd), rig.sectorCycles);
        ScheduleFollowing();
      }
    }

    // opera_cdrom_fifo_get_data
    method FifoGetData() returns (rv: Byte)
      requires Valid()
      modifies this
      ensures cd == AfterRead(old(cd), rig) && Valid()
      ensures rv == ByteRead(old(cd), rig)
      ensures Transferring(old(cd), rig) ==>
                && Transferring(cd, rig)
                && Remaining(old(cd), rig) == (if HasByte(old(cd), rig) then [rv] else []) + Remaining(cd, rig)
                && (!Done(old(cd)) && Done(cd) ==> cd.polst)
    {
      hide LoadNext, Loaded, Held, Remaining, Transferring;
      ReadConserves(cd, rig);
      if cd.inReset {
        return 0;
      }
      LoadNextIfReady();
      rv := 0;
      if cd.dataLen > 0 {
        rv := cd.data[cd.dataIdx];
        cd := cd.(dataIdx := cd.dataIdx + 1, dataLen := cd.dataLen - 1);
        if cd.dataLen == 0 {
          cd := cd.(dataIdx := 0);
          if cd.blocks > 0 {
            LoadNextIfReady();
          } else {
            cd := cd.(poldt := false);
            if cd.ra.statusPending {
              cd := cd.(ra := cd.ra.(statusPending := false), polst := true);
            }
          }
        }
      }
    }

    // opera_cdrom_fifo_get_status
    method FifoGetStatus()
      requires Valid()
      modifies this
      ensures cd == AfterStatusRead(old(cd), rig) && Valid()
    {
      hide LoadNext;
      if cd.inReset {
        return;
      }
      LoadNextIfReady();
      if cd.statusLen > 0 {
        cd := cd.(statusLen := cd.statusLen - 1);
        if cd.statusLen == 0 {
          cd := cd.(polst := false);
        }
      }
    }

    method ResetReadAhead()
      modifies this
      ensures cd == ClearReadAhead(old(cd))
    {
      cd := cd.(ra := ReadAheadState(0, 0, false, false, 0, 0, false, false));
    }

    method ClearTransferState()
      modifies this
      ensures cd == ClearTransfer(old(cd))
    {
      cd := cd.(dataLen := 0, dataIdx := 0, blocks := 0, data := Zeros(BUFFER_SIZE), poldt := false);
      ResetReadAhead();
    }

    method DropStaleReadAhead(continuous: bool)
      modifies this
      ensures cd == DropStale(old(cd), continuous)
    {
      if !continuous && (cd.ra.haveExpected || cd.ra.clockActive || cd.dataLen > 0 || cd.poldt) {
        cd := cd.(dataLen := 0, dataIdx := 0, poldt := false);
        ResetReadAhead();
      }
    }

    method SetAudioClock(continuous: bool)
      modifies this
      ensures cd == StartClock(old(cd), continuous)
    {
      if cd.readSize == DIGITAL_AUDIO {
        if !continuous || !cd.ra.clockActive {
          cd := cd.(ra := cd.ra.(baseLba := cd.sector, baseCycle := cd.now, clockActive := true, burst := true));
        }
      } else {
        cd := cd.(ra := cd.ra.(clockActive := false, burst := false));
      }
    }

    method Request(continuous: bool)
      requires ModeOk(cd) && continuous == Continuous(cd, cd.sector) && cd.statusLen == 2
      modifies this
      ensures cd == Requested(old(cd), old(cd).sector, old(cd).blocks)
    {
      hide DropStale, StartClock, Continuous, ModeOk;
      KeepsRequest(cd, continuous);
      RequestIs(cd);
      DropStaleReadAhead(continuous);
      SetAudioClock(continuous);
      cd := cd.(ra := cd.ra.(expectedLba := cd.sector + cd.blocks, haveExpected := cd.blocks != 0));
    }

    // cdrom_cmd_read_data
    method CmdReadData(min: Byte, sec: Byte, frame: Byte, count: nat)
      requires Valid()
      modifies this
      ensures cd == ReadData(old(cd), rig, min, sec, frame, count)
      ensures !old(cd).inReset && count > 0 && Accepted(old(cd), rig, min, sec, frame, count) ==>
                && Transferring(cd, rig) && !cd.polst
                && Remaining(cd, rig)
                == Stream(rig.disc, MsfToLba(min, sec, frame), count, old(cd).readSize, old(cd).wireSize)
    {
      hide LoadNext, MsfToLba, Requested, Arm, Remaining, Transferring, Stream;
      if !cd.inReset && count > 0 && Accepted(cd, rig, min, sec, frame, count) {
        CommandStarts(cd, rig, min, sec, frame, count);
      }
      if !cd.mediaReady {
        cd := cd.(statusLen := 2, polst := true);
        return;
      }
      cd := cd.(statusLen := 2);
      if !MsfValid(sec, frame) {
        ClearTransferState();
        cd := cd.(statusLen := 2, polst := true);
        return;
      }
      cd := cd.(sector := MsfToLba(min, sec, frame), blocks := count);
      if PastEnd(rig.disc, cd.sector, cd.blocks) {
        ClearTransferState();
        cd := cd.(statusLen := 2, polst := true);
        return;
      }
      ghost var lba := cd.sector;
      var continuous := cd.readSize == DIGITAL_AUDIO && cd.ra.haveExpected && cd.sector == cd.ra.expectedLba;
      RequestedAgain(old(cd), lba, count);
      Request(continuous);
      if cd.blocks > 0 {
        StartTransfer(continuous);
        if cd.readSize != DIGITAL_AUDIO {
          LoadNextIfReady();
        }
      } else {
        cd := cd.(dataLen := 0, statusLen := 2, polst := true);
      }
    }

    method FirstReady(continuous: bool) returns (next: nat)
      ensures next == ScheduleStart(cd, rig.sectorCycles, continuous)
    {
      next := cd.ra.nextReady;
      if continuous && next != 0 {
        if next < cd.now {
          next := cd.now;
        }
        return;
      }
      next := cd.now + rig.sectorCycles;
    }

    method StartTransfer(continuous: bool)
      modifies this
      ensures cd == Arm(old(cd), rig.sectorCycles, continuous)
    {
      hide ScheduleStart, BufferOk, ModeOk;
      var next := FirstReady(continuous);
      cd := cd.(dataLen := 0, dataIdx := 0, ra := cd.ra.(statusPending := true, nextReady := next));
      cd := cd.(polst := false, poldt := false);
    }

    // ---------- The host's side ----------

    // Time passes.
    method Wait(cycles: nat)
      requires Valid()
      modifies this
      ensures Valid() && cd == old(cd).(now := old(cd).now + cycles)
      ensures Transferring(old(cd), rig) ==> Transferring(cd, rig) && Remaining(cd, rig) == Remaining(old(cd), rig)
    {
      cd := cd.(now := cd.now + cycles);
    }

    // One move of the host. It reads the data FIFO when a poll shows data in it.
    method Move(e: Event) returns (got: seq<Byte>)
      requires Valid() && Transferring(cd, rig)
      modifies this
      ensures Valid() && Transferring(cd, rig)
      ensures Remaining(old(cd), rig) == got + Remaining(cd, rig)
      ensures |got| <= 1 && (got != [] ==> e == ReadByte)
    {
      hide LoadNext, AfterRead, AfterStatusRead, Remaining, Transferring;
      got := [];
      match e {
        case Tick(cycles) => Wait(cycles);
        case Poll => LoadNextIfReady();
        case ReadStatus =>
          StepConserves(cd, rig, ReadStatus);
          FifoGetStatus();
        case ReadByte =>
          LoadNextIfReady();
          if cd.poldt {
            DataIsThere(cd, rig);
            var b := FifoGetData();
            got := [b];
          }
      }
    }

    // A READ_DATA command followed by any moves of the host: what it has read is the beginning of the
    // requested sectors, and all of them once the status is raised.
    method Transfer(min: Byte, sec: Byte, frame: Byte, count: nat, moves: seq<Event>) returns (got: seq<Byte>)
      requires Valid() && !cd.inReset && count > 0 && Accepted(cd, rig, min, sec, frame, count)
      modifies this
      ensures Valid() && Transferring(cd, rig)
      ensures var whole :=
                Stream(rig.disc, MsfToLba(min, sec, frame), count, old(cd).readSize, old(cd).wireSize);
              && got + Remaining(cd, rig) == whole
              && got <= whole
              && (cd.polst ==> got == whole)
    {
      hide LoadNext, Remaining, Transferring, Stream, MsfToLba;
      ghost var whole := Stream(rig.disc, MsfToLba(min, sec, frame), count, cd.readSize, cd.wireSize);
      CmdReadData(min, sec, frame, count);
      got := [];
      var i := 0;
      while i < |moves|
        invariant 0 <= i <= |moves|
        invariant Valid() && Transferring(cd, rig)
        invariant got + Remaining(cd, rig) == whole
      {
        var bytes := Move(moves[i]);
        got := got + bytes;
        i := i + 1;
      }
      TransferFacts(cd, rig);
      assert got <= got + Remaining(cd, rig);
      assert Remaining(cd, rig) == [] ==> got + Remaining(cd, rig) == got;
    }

    // A host that polls, reads what is there and pauses otherwise gets the requested sectors, exactly,
    // however short its pauses are.
    method ReadSectors(min: Byte, sec: Byte, frame: Byte, count: nat, pause: nat) returns (got: seq<Byte>)
      requires Valid() && !cd.inReset && count > 0 && Accepted(cd, rig, min, sec, frame, count) && pause > 0
      modifies this
      ensures Valid() && cd.polst && Done(cd)
      ensures got == Stream(rig.disc, MsfToLba(min, sec, frame), count, old(cd).readSize, old(cd).wireSize)
    {
      hide LoadNext, Remaining, Transferring, Stream, MsfToLba, Patience;
      ghost var whole := Stream(rig.disc, MsfToLba(min, sec, frame), count, cd.readSize, cd.wireSize);
      MulMono(1, count, cd.wireSize);
      CmdReadData(min, sec, frame, count);
      TransferFacts(cd, rig);
      got := [];
      while !cd.polst
        invariant Valid() && Transferring(cd, rig) && (cd.polst <==> Done(cd))
        invariant got + Remaining(cd, rig) == whole
        decreases |Remaining(cd, rig)|, Patience(cd, rig.freq)
      {
        ghost var before := cd;
        LoadNextIfReady();
        TransferFacts(before, rig);
        TransferFacts(cd, rig);
        if cd.poldt {
          DataIsThere(cd, rig);
          var b := FifoGetData();
          got := got + [b];
          TransferFacts(cd, rig);
        } else {
          HeldMeansWaiting(before, rig, pause);
          Wait(pause);
          TransferFacts(cd, rig);
        }
      }
      TransferFacts(cd, rig);
      assert got + [] == got;
    }
  }

  lemma LoadConserves(cd: Cd, rig: Rig)
    requires BufferOk(cd) && rig.freq > 0
    ensures Transferring(cd, rig) ==>
              Transferring(LoadNext(cd, rig), rig) && Remaining(LoadNext(cd, rig), rig) == Remaining(cd, rig)
  {
    hide LoadNext, Remaining;
    if Transferring(cd, rig) {
      LoadKeeps(cd, rig);
    }
  }

  lemma ReadConserves(cd: Cd, rig: Rig)
    requires BufferOk(cd) && rig.freq > 0
    ensures Transferring(cd, rig) ==>
              var r := AfterRead(cd, rig);
              && Transferring(r, rig)
              && Remaining(cd, rig) == (if HasByte(cd, rig) then [ByteRead(cd, rig)] else []) + Remaining(r, rig)
              && (!Done(cd) && Done(r) ==> r.polst)
  {
    hide LoadNext, AfterRead, Remaining, Transferring, ByteRead, HasByte;
    if Transferring(cd, rig) {
      ReadKeeps(cd, rig);
    }
  }

  // While the poll bit shows data, a read finds a byte.
  lemma DataIsThere(cd: Cd, rig: Rig)
    requires Transferring(cd, rig) && rig.freq > 0 && cd.poldt
    ensures HasByte(cd, rig) && !Done(cd)
  {
  }

  lemma TransferFacts(cd: Cd, rig: Rig)
    requires Transferring(cd, rig)
    ensures cd.polst ==> Done(cd)
    ensures BufferOk(cd) && !cd.inReset && (cd.poldt <==> cd.dataLen > 0)
    ensures Done(cd) <==> Remaining(cd, rig) == []
  {
    DoneIsEmpty(cd, rig);
  }

  // How long until neither the schedule nor the read-ahead gate holds the next sector back.
  function Patience(cd: Cd, freq: nat): nat { Max(0, Max(cd.ra.nextReady, GateCycle(cd, freq)) - cd.now) }

  // A poll that brings nothing leaves something to wait for, and waiting brings it nearer.
  lemma HeldMeansWaiting(cd: Cd, rig: Rig, pause: nat)
    requires BufferOk(cd) && rig.freq > 0 && !cd.inReset && !Done(cd) && LoadNext(cd, rig).dataLen == 0 && pause > 0
    ensures var l := LoadNext(cd, rig);
            Patience(l.(now := l.now + pause), rig.freq) < Patience(cd, rig.freq)
  {
    hide Buffered, ScheduleNext, BurstLatch;
    var cd1 := cd.(ra := cd.ra.(burst := BurstLatch(cd, rig.freq)));
    assert GateCycle(cd1, rig.freq) == GateCycle(cd, rig.freq);
    var l := LoadNext(cd, rig);
    assert GateCycle(l.(now := l.now + pause), rig.freq) == GateCycle(cd, rig.freq);
  }

  lemma SameSchedule(a: Cd, b: Cd, cycles: nat)
    requires a.now == b.now && a.ra.nextReady == b.ra.nextReady
    ensures ScheduleNext(a, cycles) == ScheduleNext(b, cycles)
  {
  }

  // A request of what the fields already say.
  lemma RequestIs(cd: Cd)
    requires ModeOk(cd) && cd.statusLen == 2
    ensures var continuous := Continuous(cd, cd.sector);
            var c := StartClock(DropStale(cd, continuous), continuous);
            Requested(cd, cd.sector, cd.blocks)
            == c.(ra := c.ra.(expectedLba := cd.sector + cd.blocks, haveExpected := cd.blocks != 0))
  {
    hide DropStale, StartClock, Continuous;
    assert cd.(statusLen := 2, sector := cd.sector, blocks := cd.blocks) == cd;
  }

  lemma KeepsRequest(cd: Cd, continuous: bool)
    ensures var r := StartClock(DropStale(cd, continuous), continuous);
            r.sector == cd.sector && r.blocks == cd.blocks
  {
  }

  // Recording the position before the request changes nothing about the request.
  lemma RequestedAgain(cd: Cd, lba: nat, count: nat)
    requires ModeOk(cd)
    ensures Requested(cd.(statusLen := 2, sector := lba, blocks := count), lba, count) == Requested(cd, lba, count)
    ensures Requested(cd, lba, count).statusLen == 2
  {
  }
}
