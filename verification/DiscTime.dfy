/**
 Disc addresses as minutes, seconds and frames, counted from the two-second
 lead-in.
 */
module DiscTime {
  const FRAMES_PER_MINUTE: nat := 4500
  const BIAS: nat := 150

  datatype Msf = Msf(minutes: nat, seconds: nat, frames: nat)

  predicate Proper(t: Msf) { t.seconds < 60 && t.frames < 75 }

  function Frames(t: Msf): nat { t.minutes * FRAMES_PER_MINUTE + t.seconds * 75 + t.frames }

  // LBA2MSF
  function ToMsf(lba: nat): Msf
  {
    var f := lba + BIAS;
    Msf(f / FRAMES_PER_MINUTE, f % FRAMES_PER_MINUTE / 75, f % FRAMES_PER_MINUTE % 75)
  }

  // MSF2LBA
  function FromMsf(t: Msf): nat { if Frames(t) < BIAS then 0 else Frames(t) - BIAS }

  // An address comes back from its time, and that is a proper one.
  lemma MsfRoundTrip(lba: nat)
    ensures FromMsf(ToMsf(lba)) == lba && Proper(ToMsf(lba))
  {
    var f := lba + BIAS;
    var m := f % FRAMES_PER_MINUTE;
    assert f == f / FRAMES_PER_MINUTE * FRAMES_PER_MINUTE + m;
    assert m == m / 75 * 75 + m % 75;
  }

  // And a proper time from the start of the disc on comes back from its address.
  lemma MsfInverse(t: Msf)
    requires Proper(t) && Frames(t) >= BIAS
    ensures ToMsf(FromMsf(t)) == t
  {
    var m := t.seconds * 75 + t.frames;
    var f := t.minutes * FRAMES_PER_MINUTE + m;
    assert m < FRAMES_PER_MINUTE;
    assert f / FRAMES_PER_MINUTE == t.minutes && f % FRAMES_PER_MINUTE == m;
    assert m / 75 == t.seconds && m % 75 == t.frames;
  }

  // Address zero is two seconds into the disc; a minute has 60 seconds of 75 frames.
  lemma Landmarks(t: Msf)
    ensures Frames(t) == (60 * t.minutes + t.seconds) * 75 + t.frames
    ensures FromMsf(Msf(0, 2, 0)) == 0 && ToMsf(0) == Msf(0, 2, 0)
  {
  }
}
