/**
 READ_DATA as the host sees it: which requests are accepted, what a refused one
 leaves behind, and how its status is read.
 */
module CdromCommand {
  import opened Words
  import opened DiscTime
  import opened CdromTransfer

  // A block mode page gives the number of bytes of each sector, 2048 if it gives none; on the wire a sector is
  // longer by 96 bytes of subcode and by one error byte. Of sectors of up to 2352 bytes nothing is cut off.
  lemma BlockSizes(length: nat, subcode: bool, error: bool)
    requires length <= 2352
    ensures BaseSize(length) == if length == 0 then 2048 else length
    ensures TransferSize(length, subcode, error)
         == (if length == 0 then 2048 else length) + (if subcode then 96 else 0) + (if error then 1 else 0)
  {
  }

  // The first sector a request names, and whether the drive can serve it.
  function FirstSector(min: Byte, sec: Byte, frame: Byte): nat { Max(0, (60 * min + sec) * 75 + frame - 150) }

  predicate Servable(rig: Rig, min: Byte, sec: Byte, frame: Byte, count: nat)
  {
    sec < 60 && frame < 75 && (count == 0 || FirstSector(min, sec, frame) + count <= |rig.disc|)
  }

  lemma AcceptedIsServable(cd: Cd, rig: Rig, min: Byte, sec: Byte, frame: Byte, count: nat)
    ensures Accepted(cd, rig, min, sec, frame, count) <==> cd.mediaReady && Servable(rig, min, sec, frame, count)
    ensures MsfToLba(min, sec, frame) == FirstSector(min, sec, frame)
  {
    assert Frames(Msf(min, sec, frame)) == (60 * min + sec) * 75 + frame;
  }

  // Nothing in the buffer and nothing to load.
  predicate Idle(cd: Cd) { cd.dataLen == 0 && cd.blocks == 0 && !cd.ra.statusPending }

  lemma IdleStays(cd: Cd, rig: Rig, e: Event)
    requires BufferOk(cd) && rig.freq > 0 && Idle(cd)
    ensures var r := Step(cd, rig, e);
            Idle(r) && r.loads == cd.loads && r.poldt == cd.poldt && Out(cd, rig, e) == []
  {
  }

  lemma {:induction false} IdleRun(cd: Cd, rig: Rig, es: seq<Event>)
    requires BufferOk(cd) && rig.freq > 0 && Idle(cd)
    ensures var r := Run(cd, rig, es);
            Idle(r) && r.loads == cd.loads && r.poldt == cd.poldt && Delivered(cd, rig, es) == []
    decreases |es|
  {
    hide Step, Out, Idle;
    if es != [] {
      IdleRun(cd, rig, es[..|es| - 1]);
      IdleStays(Run(cd, rig, es[..|es| - 1]), rig, es[|es| - 1]);
    }
  }

  // A request of sectors is accepted exactly when the disc has them all. Otherwise the status is there at once, two
  // bytes of it, and whatever the host does then it gets no data and no sector is read.
  lemma CommandDecides(cd: Cd, rig: Rig, min: Byte, sec: Byte, frame: Byte, count: nat, es: seq<Event>)
    requires BufferOk(cd) && rig.freq > 0 && count > 0 && cd.mediaReady
    ensures var r := ReadData(cd, rig, min, sec, frame, count);
            if Servable(rig, min, sec, frame, count) then
              r.ra.statusPending && !r.polst && r.sector + r.blocks == FirstSector(min, sec, frame) + count
            else
              && BufferOk(r) && r.polst && r.statusLen == 2 && !r.poldt
              && Delivered(r, rig, es) == [] && !Run(r, rig, es).poldt && Run(r, rig, es).loads == cd.loads
  {
    hide LoadNext, MsfToLba, Run, Delivered, FirstSector, Requested;
    AcceptedIsServable(cd, rig, min, sec, frame, count);
    var r := ReadData(cd, rig, min, sec, frame, count);
    if Servable(rig, min, sec, frame, count) {
      ArmedPending(cd, rig, FirstSector(min, sec, frame), count);
    } else {
      IdleRun(r, rig, es);
    }
  }

  lemma ArmedPending(cd: Cd, rig: Rig, lba: nat, count: nat)
    requires BufferOk(cd) && rig.freq > 0
    ensures var d := Armed(cd, rig, lba, count);
            && d.ra.statusPending && !d.polst
            && LoadNext(d, rig).ra.statusPending && !LoadNext(d, rig).polst
            && LoadNext(d, rig).sector + LoadNext(d, rig).blocks == lba + count
  {
    hide LoadNext, Requested;
  }

  // A drive without a disc that turns answers with a status and leaves everything else alone; a request of no sectors
  // is answered at once and brings no data.
  lemma NothingToRead(cd: Cd, rig: Rig, min: Byte, sec: Byte, frame: Byte, count: nat, es: seq<Event>)
    requires BufferOk(cd) && rig.freq > 0
    ensures var r := ReadData(cd, rig, min, sec, frame, count);
            && (!cd.mediaReady ==>
                  r.polst && r.statusLen == 2 && r.(polst := cd.polst, statusLen := cd.statusLen) == cd)
            && (cd.mediaReady && count == 0 && !cd.ra.statusPending ==>
                  && BufferOk(r) && r.polst && r.statusLen == 2
                  && Delivered(r, rig, es) == [] && Run(r, rig, es).loads == cd.loads)
  {
    hide LoadNext, MsfToLba, Run, Delivered;
    if cd.mediaReady && count == 0 && !cd.ra.statusPending {
      IdleRun(ReadData(cd, rig, min, sec, frame, count), rig, es);
    }
  }

  // ---------- The status ----------

  function StatusReads(n: nat): seq<Event> { seq(n, _ => ReadStatus) }

  // A raised status stays up until the last of its bytes has been read.
  lemma {:induction false} StatusDrains(cd: Cd, rig: Rig, k: nat)
    requires BufferOk(cd) && rig.freq > 0 && !cd.inReset && k <= cd.statusLen
    ensures var r := Run(cd, rig, StatusReads(k));
            !r.inReset && r.statusLen == cd.statusLen - k && r.polst == (cd.polst && (k == 0 || k < cd.statusLen))
  {
    hide LoadNext, Held, Loaded;
    if k == 0 {
      assert StatusReads(0) == [];
    } else {
      StatusDrains(cd, rig, k - 1);
      assert StatusReads(k)[..k - 1] == StatusReads(k - 1);
    }
  }
}
