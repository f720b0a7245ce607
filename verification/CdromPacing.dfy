/**
 The pace of data transfers. A data drive serves no sector earlier than the disc
 has turned to it: the k-th sector of a request is not in the buffer before k
 sector times have passed. Nor does it keep a host waiting longer than one
 sector time.
 */
module CdromPacing {
  import opened Words
  import opened CdromTransfer

  // The last sector served, or the command, was due at that time; the next one is due a sector time later at the
  // earliest and a sector time from now at the latest.
  predicate OnTime(cd: Cd, due: nat, sectorCycles: nat)
  {
    cd.readSize != DIGITAL_AUDIO && due <= cd.now && due + sectorCycles <= cd.ra.nextReady <= cd.now + sectorCycles
  }

  lemma LoadOnTime(cd: Cd, rig: Rig, due: nat)
    requires ModeOk(cd) && rig.freq > 0 && OnTime(cd, due, rig.sectorCycles)
    ensures var r := LoadNext(cd, rig);
            || (r.blocks == cd.blocks && OnTime(r, due, rig.sectorCycles))
            || (r.blocks + 1 == cd.blocks && OnTime(r, due + rig.sectorCycles, rig.sectorCycles))
  {
    hide Buffered, ElapsedFrames;
  }

  // The due time after so many more sectors.
  function Due(due: nat, sectors: nat, sectorCycles: nat): nat { due + sectors * sectorCycles }

  lemma DueNext(due: nat, sectors: nat, sectorCycles: nat)
    ensures Due(due, sectors + 1, sectorCycles) == Due(due + sectorCycles, sectors, sectorCycles)
    ensures Due(due, sectors + 1, sectorCycles) == Due(due, sectors, sectorCycles) + sectorCycles
    ensures Due(due, 0, sectorCycles) == due
  {
  }

  // On time, after serving some of the blocks it had.
  predicate Served(was: Cd, cd: Cd, due: nat, sectorCycles: nat)
  {
    cd.blocks <= was.blocks && OnTime(cd, Due(due, was.blocks - cd.blocks, sectorCycles), sectorCycles)
  }

  lemma LoadServes(was: Cd, cd: Cd, rig: Rig, due: nat)
    requires ModeOk(cd) && rig.freq > 0 && Served(was, cd, due, rig.sectorCycles)
    ensures Served(was, LoadNext(cd, rig), due, rig.sectorCycles)
  {
    hide LoadNext, OnTime, Due;
    var served := was.blocks - cd.blocks;
    LoadOnTime(cd, rig, Due(due, served, rig.sectorCycles));
    DueNext(due, served, rig.sectorCycles);
  }

  lemma SameServes(was: Cd, a: Cd, b: Cd, due: nat, sectorCycles: nat)
    requires Served(was, a, due, sectorCycles)
    requires a.blocks == b.blocks && a.now <= b.now && a.readSize == b.readSize && a.ra.nextReady == b.ra.nextReady
    ensures Served(was, b, due, sectorCycles)
  {
    hide Due;
  }

  lemma StepServes(was: Cd, cd: Cd, rig: Rig, e: Event, due: nat)
    requires BufferOk(cd) && rig.freq > 0 && Served(was, cd, due, rig.sectorCycles)
    ensures Served(was, Step(cd, rig, e), due, rig.sectorCycles)
  {
    hide LoadNext, Served, Held, Loaded, SameFrame;
    LoadServes(was, cd, rig, due);
    var l := LoadNext(cd, rig);
    match e
    case Tick(cycles) => SameServes(was, cd, Step(cd, rig, e), due, rig.sectorCycles);
    case Poll =>
    case ReadStatus => SameServes(was, if cd.inReset then cd else l, AfterStatusRead(cd, rig), due, rig.sectorCycles);
    case ReadByte =>
      if HasByte(cd, rig) {
        var t := Popped(l);
        SameServes(was, l, t, due, rig.sectorCycles);
        if t.dataLen == 0 && t.blocks > 0 {
          LoadServes(was, t, rig, due);
          assert Step(cd, rig, e) == LoadNext(t, rig);
        } else {
          SameServes(was, t, Step(cd, rig, e), due, rig.sectorCycles);
        }
      }
  }

  lemma {:induction false} RunServes(was: Cd, cd: Cd, rig: Rig, es: seq<Event>, due: nat)
    requires BufferOk(cd) && rig.freq > 0 && Served(was, cd, due, rig.sectorCycles)
    ensures Served(was, Run(cd, rig, es), due, rig.sectorCycles)
    decreases |es|
  {
    hide Step, Served;
    if es != [] {
      RunServes(was, cd, rig, es[..|es| - 1], due);
      StepServes(was, Run(cd, rig, es[..|es| - 1]), rig, es[|es| - 1], due);
    }
  }

  lemma CommandServes(cd: Cd, rig: Rig, min: Byte, sec: Byte, frame: Byte, count: nat)
    requires BufferOk(cd) && rig.freq > 0 && count > 0 && cd.readSize != DIGITAL_AUDIO
    requires Accepted(cd, rig, min, sec, frame, count)
    ensures Served(cd.(blocks := count), ReadData(cd, rig, min, sec, frame, count), cd.now, rig.sectorCycles)
  {
    hide LoadNext, MsfToLba, Due;
    var lba := MsfToLba(min, sec, frame);
    var d := Armed(cd, rig, lba, count);
    DueNext(cd.now, 0, rig.sectorCycles);
    LoadServes(cd.(blocks := count), d, rig, cd.now);
  }

  // With a sector to go and none in the buffer, a sector time is enough to load one.
  lemma OneSectorTime(cd: Cd, rig: Rig, due: nat)
    requires Transferring(cd, rig) && rig.freq > 0 && !Done(cd) && OnTime(cd, due, rig.sectorCycles)
    ensures HasByte(Step(cd, rig, Tick(rig.sectorCycles)), rig)
  {
    hide Buffered, ElapsedFrames;
  }

  // The pacing theorem. Whatever the host does after an accepted command on a data drive: of sector k, counted
  // from zero, no byte has been read or is in the buffer before k + 1 sector times have passed, no data bit shows
  // before the first one has, and after any sector time spent waiting there is a byte to read.
  lemma TransferIsPaced(cd: Cd, rig: Rig, min: Byte, sec: Byte, frame: Byte, count: nat, es: seq<Event>, k: nat)
    requires BufferOk(cd) && !cd.inReset && rig.freq > 0 && count > 0 && cd.readSize != DIGITAL_AUDIO
    requires Accepted(cd, rig, min, sec, frame, count)
    ensures var start := ReadData(cd, rig, min, sec, frame, count);
            && BufferOk(start)
            && var end := Run(start, rig, es);
            && (k * cd.wireSize < |Delivered(start, rig, es)| + end.dataLen ==>
                  end.now >= cd.now + (k + 1) * rig.sectorCycles)
            && (end.poldt ==> end.now >= cd.now + rig.sectorCycles)
            && (!Done(end) ==> HasByte(Step(end, rig, Tick(rig.sectorCycles)), rig))
  {
    hide LoadNext, ReadData, Step, Run, Delivered, MsfToLba, Stream, OnTime, Remaining, HasByte, Transferring;
    var start := ReadData(cd, rig, min, sec, frame, count);
    CommandStarts(cd, rig, min, sec, frame, count);
    TransferFacts(cd, rig, min, sec, frame, count, es);
    TransferDelivers(cd, rig, min, sec, frame, count, es);
    CommandServes(cd, rig, min, sec, frame, count);
    RunServes(cd.(blocks := count), start, rig, es, cd.now);
    var end := Run(start, rig, es);
    var served := count - end.blocks;
    if !Done(end) {
      OneSectorTime(end, rig, Due(cd.now, served, rig.sectorCycles));
    }
    ServedMeansDue(end, cd.now, served, rig.sectorCycles);
    BytesServed(k, served, cd.wireSize, |Delivered(start, rig, es)| + end.dataLen, end.blocks, count);
    if k < served {
      MulMono(k + 1, served, rig.sectorCycles);
    }
    if end.poldt {
      BytesServed(0, served, cd.wireSize, |Delivered(start, rig, es)| + end.dataLen, end.blocks, count);
      MulMono(1, served, rig.sectorCycles);
    }
  }

  lemma TransferFacts(cd: Cd, rig: Rig, min: Byte, sec: Byte, frame: Byte, count: nat, es: seq<Event>)
    requires BufferOk(cd) && !cd.inReset && rig.freq > 0 && count > 0
    requires Accepted(cd, rig, min, sec, frame, count)
    ensures BufferOk(ReadData(cd, rig, min, sec, frame, count))
    ensures Transferring(Run(ReadData(cd, rig, min, sec, frame, count), rig, es), rig)
  {
    hide LoadNext, ReadData, Run, MsfToLba, Stream, Remaining;
    CommandStarts(cd, rig, min, sec, frame, count);
    RunConserves(ReadData(cd, rig, min, sec, frame, count), rig, es);
  }

  lemma ServedMeansDue(cd: Cd, due: nat, served: nat, sectorCycles: nat)
    requires OnTime(cd, Due(due, served, sectorCycles), sectorCycles)
    ensures cd.now >= due + served * sectorCycles
  {
  }

  // Bytes of sector k are among those served only if more than k sectors are.
  lemma BytesServed(k: nat, served: nat, wire: nat, bytes: nat, blocks: nat, count: nat)
    requires bytes + blocks * wire == count * wire && served + blocks == count
    ensures bytes == served * wire
    ensures k * wire < bytes ==> k < served
  {
    assert (served + blocks) * wire == served * wire + blocks * wire;
    if k >= served {
      MulMono(served, k, wire);
    }
  }
}
