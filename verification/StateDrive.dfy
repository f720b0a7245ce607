/**
 A state saved and loaded in the middle of a transfer: the stored drive is the
 drive of the READ_DATA machine, and what its host sees afterwards is compared
 with what it would have seen without the load.
 */
module StateDrive {
  import opened Words
  import opened StateCdrom
  import opened StateParts
  import opened StateTheorems
  import D = CdromTransfer
  import A = CdromReadAhead
  import R = CdromReload

  const POLST: nat := 0x10
  const POLDT: nat := 0x20
  const DOOR: nat := 0x80
  const DISC_IN: nat := 0x40
  const SPIN_UP: nat := 0x20

  predicate Bit(x: nat, b: nat)
    requires b > 0
  {
    (x / b) % 2 == 1
  }

  // The part of the stored drive that a transfer uses, at a cycle.
  function DriveOf(cd: Cd, now: nat): D.Cd
  {
    var v, d := cd.device, cd.data;
    D.Cd(now, Bit(v.poll, RESET_BIT), Bit(v.poll, POLST), Bit(v.poll, POLDT),
         Bit(v.xbusStatus, DOOR) && Bit(v.xbusStatus, DISC_IN) && Bit(v.xbusStatus, SPIN_UP),
         v.statusLen, v.readSize, v.wireSize, v.dataLen, v.dataIdx, v.data, v.blocks, v.sector,
         D.ReadAheadState(d.nextReady, d.expectedLba, d.haveExpected, d.burst, d.baseLba, d.baseCycle, d.clockActive,
                          d.statusPending),
         [])
  }

  // The drive of the machine after a load, at the cycle its clock was loaded with.
  function Loaded(env: Env, m: Machine, from: Machine): D.Cd
  {
    DriveOf(Restored(env, m, from).cd, Restored(env, m, from).clock.cycles)
  }

  function Saved(from: Machine): D.Cd { DriveOf(from.cd, from.clock.cycles) }

  // Loading settles the drive: because the clock is restored first, nothing else about it changes.
  lemma LoadSettles(env: Env, m: Machine, from: Machine)
    requires CountFrom(env, 0) > 0 && !Bit(from.cd.device.poll, RESET_BIT)
    ensures Loaded(env, m, from) == R.AfterReload(Saved(from))
  {
    hide MemCopied, LimitsFor, CountFrom;
  }

  // A deadline had passed when the state was saved, with two sectors or more to go that take time.
  predicate LostDeadline(from: Machine, rig: D.Rig)
  {
    && 0 < from.cd.data.nextReady <= from.clock.cycles
    && from.cd.device.blocks >= 2 && rig.sectorCycles > 0
  }

  // Of every drive that is not streaming audio, on any disc at any speed: the host sees the same data bits over
  // all runs after a load as without one, and reads the same bytes, if and only if no such deadline was lost.
  lemma LoadIsInvisible(env: Env, m: Machine, from: Machine, rig: D.Rig)
    requires CountFrom(env, 0) > 0 && !Bit(from.cd.device.poll, RESET_BIT)
    requires D.BufferOk(Saved(from)) && rig.freq > 0 && !D.Streaming(Saved(from))
    ensures D.BufferOk(Loaded(env, m, from))
    ensures (forall es :: D.Run(Loaded(env, m, from), rig, es).poldt == D.Run(Saved(from), rig, es).poldt) <==>
            !LostDeadline(from, rig)
    ensures !LostDeadline(from, rig) ==>
              forall es :: D.Delivered(Loaded(env, m, from), rig, es) == D.Delivered(Saved(from), rig, es)
  {
    hide D.Run, D.Delivered, Loaded, CountFrom;
    LoadSettles(env, m, from);
    R.ReloadIsInvisible(Saved(from), rig);
  }

  // The same for data drives when the runs hold further commands.
  lemma LoadIsInvisibleToHost(env: Env, m: Machine, from: Machine, rig: D.Rig)
    requires CountFrom(env, 0) > 0 && !Bit(from.cd.device.poll, RESET_BIT)
    requires D.BufferOk(Saved(from)) && rig.freq > 0 && from.cd.device.readSize != D.DIGITAL_AUDIO
    ensures D.BufferOk(Loaded(env, m, from))
    ensures (forall hs :: A.HostRun(Loaded(env, m, from), rig, hs).poldt == A.HostRun(Saved(from), rig, hs).poldt)
       <==> !LostDeadline(from, rig)
  {
    hide A.HostRun, Loaded, CountFrom;
    LoadSettles(env, m, from);
    R.ReloadIsInvisibleToHost(Saved(from), rig);
  }

  // An audio stream shows the same data bits and bytes over every run that avoids the cycles in which a
  // read-ahead gate opens, deadline or not.
  lemma LoadKeepsStream(env: Env, m: Machine, from: Machine, rig: D.Rig, es: seq<D.Event>)
    requires CountFrom(env, 0) > 0 && !Bit(from.cd.device.poll, RESET_BIT)
    requires D.BufferOk(Saved(from)) && rig.freq >= D.FRAMES_PER_SECOND && D.Streaming(Saved(from))
    requires from.cd.data.baseLba <= from.cd.device.sector && from.cd.data.baseCycle <= from.clock.cycles
    requires R.AvoidsGates(Saved(from), rig, es)
    ensures D.BufferOk(Loaded(env, m, from))
    ensures D.Run(Loaded(env, m, from), rig, es).poldt == D.Run(Saved(from), rig, es).poldt
    ensures D.Delivered(Loaded(env, m, from), rig, es) == D.Delivered(Saved(from), rig, es)
  {
    hide D.Run, D.Delivered, Loaded, CountFrom, R.AvoidsGates;
    LoadSettles(env, m, from);
    R.AudioReload(Saved(from), rig, es);
  }
}
