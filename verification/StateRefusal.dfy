/**
 What a refused load leaves behind: the components accepted before the refusal
 are installed and the others are as they were, so the machine is unchanged
 exactly when those stored what it already held.
 */
module StateRefusal {
  import opened Words
  import opened StateBytes
  import opened StateStreams
  import opened StateCdrom
  import opened StateParts
  import opened StateFile
  import opened StateTheorems

  // How many leading parts the bytes hold that their loaders accept. It does not depend on the machine.
  function AcceptedParts(parts: seq<Part>, m: Machine, s: seq<Byte>): (k: nat)
    requires MemShape(m.mem)
    ensures k <= |parts|
  {
    if parts == [] then 0
    else
      var rv := LoadPart(parts[0], true, m, s).rv;
      if rv == 0 then 0 else 1 + AcceptedParts(parts[1..], m, s[rv..])
  }

  // The machine with one more part installed.
  function WithPart(part: Part, m: Machine, s: seq<Byte>): (r: Machine)
    requires MemShape(m.mem)
    ensures MemShape(r.mem)
  {
    AfterPart(part, LoadPart(part, false, m, s).m)
  }

  // The machine with the first k parts installed.
  function Installed(parts: seq<Part>, k: nat, m: Machine, s: seq<Byte>): (r: Machine)
    requires MemShape(m.mem) && k <= |parts|
    ensures MemShape(r.mem)
  {
    if k == 0 then m
    else Installed(parts[1..], k - 1, WithPart(parts[0], m, s), s[LoadPart(parts[0], true, m, s).rv..])
  }

  // Each of the first k parts stored what the machine already held.
  predicate AlreadyHeld(parts: seq<Part>, k: nat, m: Machine, s: seq<Byte>)
    requires MemShape(m.mem) && k <= |parts|
  {
    k == 0 ||
    (WithPart(parts[0], m, s) == m && AlreadyHeld(parts[1..], k - 1, m, s[LoadPart(parts[0], true, m, s).rv..]))
  }

  // A part that refuses changes nothing itself.
  lemma {:induction false} RefusalKeeps(part: Part, m: Machine, s: seq<Byte>)
    requires MemShape(m.mem) && LoadPart(part, false, m, s).rv == 0
    ensures LoadPart(part, false, m, s).m == m
  {
    hide ParseTailed, Unchunk, Install, Accepts, LayoutOf, Mem2Ok, Mem2From, MemOk, MemFrom;
  }

  lemma {:induction false} PartsInstalled(parts: seq<Part>, m: Machine, other: Machine, s: seq<Byte>)
    requires MemShape(m.mem) && MemShape(other.mem)
    ensures var k := AcceptedParts(parts, other, s);
            && LoadParts(parts, false, m, s).m == Installed(parts, k, m, s)
            && (LoadParts(parts, false, m, s).ok <==> k == |parts|)
    decreases |parts|
  {
    hide LoadPart, AfterPart, MemShape;
    if parts != [] {
      PartDryRun(parts[0], other, m, s);
      PartDryRun(parts[0], m, m, s);
      var step := LoadPart(parts[0], false, m, s);
      if step.rv == 0 {
        RefusalKeeps(parts[0], m, s);
      } else {
        PartsInstalled(parts[1..], WithPart(parts[0], m, s), other, s[step.rv..]);
      }
    }
  }

  // ---------- When nothing has changed ----------

  // The same component, up to the overlay limits, which follow from the memory.
  predicate SamePart(part: Part, a: Machine, b: Machine)
  {
    match part
    case PRuntime => a.runtime == b.runtime
    case PPrng => a.prng == b.prng
    case PArm => a.arm.(limits := b.arm.limits) == b.arm
    case PClio => a.clio == b.clio
    case PDsp => a.dsp == b.dsp
    case PMadam => a.madam == b.madam
    case PMem => a.mem == b.mem
    case PSport => a.sport == b.sport
    case PVdlp => a.vdlp == b.vdlp
    case PClock => a.clock == b.clock
  }

  predicate LimitsSynced(m: Machine) { m.arm.limits == LimitsFor(m.arm.overlay, m.mem) }

  // Installing a part changes that part alone.
  lemma {:induction false} InstallOwnPart(part: Part, q: Part, m: Machine, fs: seq<Field>)
    requires part != PMem && PartShaped(part, fs) && Accepts(part, fs) && q != part
    ensures SamePart(q, m, Install(part, m, fs))
  {
    hide PartShaped, Accepts, ArmFrom, MadamFrom, DspFrom, VdlpFrom, ClockFrom;
  }

  lemma {:induction false} FixedOwnPart(part: Part, q: Part, m: Machine, s: seq<Byte>)
    requires part != PMem && q != part
    ensures SamePart(q, m, LoadFixed(part, false, m, s).m)
  {
    hide ParseTailed, Unchunk, Accepts, LayoutOf, Install, SamePart;
    SameAsItself(q, m);
    var layout := LayoutOf(part, s);
    if Unchunk(layout.name, s).Some? {
      var payload := Unchunk(layout.name, s).value.payload;
      if ParseTailed(layout.kinds, layout.tail, payload).Some? {
        var fs := ParseTailed(layout.kinds, layout.tail, payload).value;
        assert Shaped(LayoutOf(part, s), fs);
        if Accepts(part, fs) {
          InstallOwnPart(part, q, m, fs);
        }
      }
    }
  }

  lemma {:induction false} SameAsItself(q: Part, m: Machine)
    ensures SamePart(q, m, m)
  {
  }

  lemma {:induction false} OnlyOwnPart(part: Part, q: Part, m: Machine, s: seq<Byte>)
    requires MemShape(m.mem) && q != part
    ensures SamePart(q, m, WithPart(part, m, s))
  {
    hide LoadFixed, Unchunk, Mem2Ok, Mem2From, MemOk, MemFrom, LimitsFor;
    if part != PMem {
      FixedOwnPart(part, q, m, s);
    }
  }

  lemma {:induction false} OthersKept(parts: seq<Part>, k: nat, q: Part, m: Machine, s: seq<Byte>)
    requires MemShape(m.mem) && k <= |parts| && q !in parts
    ensures SamePart(q, m, Installed(parts, k, m, s))
    decreases k
  {
    hide LoadPart, WithPart, MemShape;
    if k > 0 {
      OnlyOwnPart(parts[0], q, m, s);
      OthersKept(parts[1..], k - 1, q, WithPart(parts[0], m, s), s[LoadPart(parts[0], true, m, s).rv..]);
    }
  }

  // If the part itself comes out as it was, so does the whole machine.
  lemma {:induction false} OwnPartSame(part: Part, m: Machine, s: seq<Byte>)
    requires MemShape(m.mem) && LimitsSynced(m) && SamePart(part, WithPart(part, m, s), m)
    ensures WithPart(part, m, s) == m
  {
    hide ParseTailed, Unchunk, Accepts, LayoutOf, Mem2Ok, Mem2From, MemOk, MemFrom, MadamFrom, DspFrom, VdlpFrom,
      ClockFrom, LimitsFor, AllFit;
  }

  predicate Distinct(parts: seq<Part>) { forall i, j :: 0 <= i < j < |parts| ==> parts[i] != parts[j] }

  // The installed machine is the old one exactly when every installed part stored what was already there.
  lemma {:induction false} UnchangedExactly(parts: seq<Part>, k: nat, m: Machine, s: seq<Byte>)
    requires MemShape(m.mem) && LimitsSynced(m) && k <= |parts| && Distinct(parts)
    ensures Installed(parts, k, m, s) == m <==> AlreadyHeld(parts, k, m, s)
    decreases k
  {
    hide LoadPart, WithPart, MemShape, LimitsSynced, SamePart;
    if k > 0 {
      var next, rest := WithPart(parts[0], m, s), s[LoadPart(parts[0], true, m, s).rv..];
      assert parts[0] !in parts[1..];
      assert Distinct(parts[1..]);
      if next == m {
        UnchangedExactly(parts[1..], k - 1, m, rest);
      } else if Installed(parts, k, m, s) == m {
        OthersKept(parts[1..], k - 1, parts[0], next, rest);
        OwnPartSame(parts[0], m, s);
      }
    }
  }

  // ---------- The refused load ----------

  // No bus chunk, or one whose own fields are refused.
  predicate NoBus(s: seq<Byte>)
  {
    Unchunk(XBUS, s).None? || ParseXbus(Unchunk(XBUS, s).value.payload).None?
  }

  // The machine with the bus fields taken over and the drives as far as the device loop got with them.
  function WithBus(env: Env, m: Machine, s: seq<Byte>): Machine
    requires !NoBus(s)
  {
    var head := ParseXbus(Unchunk(XBUS, s).value.payload).value;
    m.(xbus := head.xbus, cd := LoadDevices(env, false, m.cd, m.clock.cycles, head.count, head.rest).cd)
  }

  // Exactly what a refused load leaves. The bus comes last, and only it and its drives can be half loaded.
  lemma {:induction false} RefusedLoad(env: Env, parts: seq<Part>, m: Machine, s: seq<Byte>, version: nat)
    requires MemShape(m.mem) && LoadChunked(env, parts, false, m, s, version).rv == 0
    ensures var r, n := LoadChunked(env, parts, false, m, s, version).m, HeaderSize(version, s);
            if |s| > MAX32 || n == 0 then r == m
            else
              var k := AcceptedParts(parts, m, s[n..]);
              var installed := Installed(parts, k, m, s[n..]);
              && (k < |parts| || NoBus(LoadParts(parts, true, m, s[n..]).rest) ==> r == installed)
              && (k == |parts| && !NoBus(LoadParts(parts, true, m, s[n..]).rest) ==>
                    r == WithBus(env, installed, LoadParts(parts, true, m, s[n..]).rest))
  {
    hide HeaderSize, LoadParts, Installed, AcceptedParts, ParseXbus, Unchunk, LoadDevices, MemShape;
    var n := HeaderSize(version, s);
    PartsInstalled(parts, m, m, s[n..]);
    PartsDryRun(parts, m, m, s[n..]);
  }

  // So for every buffer that is not of the first format: an unknown version leaves the machine alone.
  lemma {:induction false} RefusedByLoad(env: Env, loadV1: (Machine, seq<Byte>) -> Step, m: Machine, s: seq<Byte>)
    requires MemShape(m.mem) && Version(s) != 1 && Load(env, loadV1, m, s).rv == 0
    ensures var r, v := Load(env, loadV1, m, s).m, Version(s);
            var parts, n := if v == 2 then PARTS_V2 else PARTS, HeaderSize(v, s);
            if !(2 <= v <= 4) || |s| > MAX32 || n == 0 then r == m
            else
              var k := AcceptedParts(parts, m, s[n..]);
              var installed := Installed(parts, k, m, s[n..]);
              && (k < |parts| || NoBus(LoadParts(parts, true, m, s[n..]).rest) ==> r == installed)
              && (k == |parts| && !NoBus(LoadParts(parts, true, m, s[n..]).rest) ==>
                    r == WithBus(env, installed, LoadParts(parts, true, m, s[n..]).rest))
  {
    hide LoadChunked, HeaderSize, Version, Installed, AcceptedParts, PARTS, PARTS_V2, LoadParts, NoBus, WithBus;
    var v := Version(s);
    if 2 <= v <= 4 {
      RefusedLoad(env, if v == 2 then PARTS_V2 else PARTS, m, s, v);
    }
  }

  // A load refused before the bus leaves the machine as it was exactly when every part accepted before the
  // refusal stored what the machine already held; in particular when the first part is refused.
  lemma {:induction false} RefusedUnchanged(env: Env, m: Machine, s: seq<Byte>, version: nat)
    requires MemShape(m.mem) && LimitsSynced(m) && |s| <= MAX32 && HeaderSize(version, s) != 0
    requires AcceptedParts(PARTS, m, s[HeaderSize(version, s)..]) < |PARTS|
    ensures var r, rest := LoadChunked(env, PARTS, false, m, s, version), s[HeaderSize(version, s)..];
            && r.rv == 0
            && (r.m == m <==> AlreadyHeld(PARTS, AcceptedParts(PARTS, m, rest), m, rest))
            && (AcceptedParts(PARTS, m, rest) == 0 ==> r.m == m)
  {
    hide HeaderSize, LoadParts, AcceptedParts, LoadXbus, MemShape, LimitsSynced, WithPart, LoadPart;
    var rest := s[HeaderSize(version, s)..];
    PartsInstalled(PARTS, m, m, rest);
    RefusedLoad(env, PARTS, m, s, version);
    UnchangedExactly(PARTS, AcceptedParts(PARTS, m, rest), m, rest);
  }
}
