/**
 The emulator's clock: 16.16 accumulators that turn CPU cycles into DSP
 triggers, scanlines and timer slots, and the frame loop that feeds it.
 */
module Clock {
  import opened Words
  import opened ClioTimers

  const MIN_CPU_FREQ: nat := 1000000
  const DEFAULT_SLACK: nat := 64
  const SND_FREQ: nat := 44100
  const M25M_FREQ: nat := 25000000
  const SLOT_TICKS: nat := 4
  const CLOCK_STEP: nat := 32
  const STEP_1616: int := 0x20_0000  // CLOCK_STEP << 16

  datatype Region = Region(fieldRate: nat, fieldSize: nat)

  const NTSC := Region(3928227, 263)
  const PAL := Region(3276800, 312)

  datatype Clock = Clock(
    freq: Word,
    cycles: nat,
    dspAcc: int,
    vdlAcc: int,
    timerAcc: int,
    slack: Word,
    slot: nat,
    inGap: bool,
    region: Region,
    perSnd: int,
    perLine: int,
    perSlot: int,
    perGap: int,
    untilTimer: int)

  // Conversion to a 32-bit signed field.
  function Int32(x: int): int
  {
    var m := x % 0x1_0000_0000;
    if m < 0x8000_0000 then m else m - 0x1_0000_0000
  }

  function U64(x: nat): nat { x % 0x1_0000_0000_0000_0000 }

  // ---------- Derived rates ----------

  function CyclesPerSnd(freq: Word): int { Int32((freq * 0x1_0000) / SND_FREQ) }

  function CyclesPerLine(freq: Word, region: Region): int
    requires region.fieldRate > 0 && region.fieldSize > 0
  {
    Int32((freq * 0x1_0000_0000) / (region.fieldRate * region.fieldSize))
  }

  function CyclesPerTicks(freq: Word, ticks: nat): int
  {
    Int32(U64(U64(freq * ticks) * 0x1_0000) / M25M_FREQ)
  }

  predicate Wf(c: Clock)
  {
    c.region.fieldRate > 0 && c.region.fieldSize > 0 && c.slot < SLOTS
  }

  // recalculate_cycles_per
  function Recalculated(c: Clock): Clock
    requires Wf(c)
  {
    var perSlot, perGap := CyclesPerTicks(c.freq, SLOT_TICKS), CyclesPerTicks(c.freq, SLOT_TICKS + c.slack);
    c.(perSnd := CyclesPerSnd(c.freq),
    perLine := CyclesPerLine(c.freq, c.region),
    perSlot := perSlot,
    perGap := perGap,
    untilTimer := if c.inGap then perGap else perSlot)
  }

  function Reset(freq: Word, region: Region): (c: Clock)
    requires region.fieldRate > 0 && region.fieldSize > 0
  {
    Recalculated(Clock(freq, 0, 0, 0, 0, DEFAULT_SLACK, 0, false, region, 0, 0, 0, 0, 0))
  }

  // ---------- Operations ----------

  function Pushed(c: Clock, clks: nat): Clock
  {
    var c1616 := (clks * 0x1_0000) % 0x1_0000_0000;
    c.(cycles := c.cycles + clks, dspAcc := Int32(c.dspAcc + c1616),
    vdlAcc := Int32(c.vdlAcc + c1616), timerAcc := Int32(c.timerAcc + c1616))
  }

  predicate DspDue(c: Clock) { c.dspAcc >= c.perSnd }

  predicate LineDue(c: Clock) { c.vdlAcc >= c.perLine }

  predicate SlotDue(c: Clock) { c.timerAcc >= c.untilTimer }

  function DspTaken(c: Clock): Clock { if DspDue(c) then c.(dspAcc := c.dspAcc - c.perSnd) else c }

  function LineTaken(c: Clock): Clock { if LineDue(c) then c.(vdlAcc := c.vdlAcc - c.perLine) else c }

  // opera_clock_timer_queued, which hands out c.slot when it is due.
  function SlotTaken(c: Clock): Clock
  {
    if !SlotDue(c) then c
    else
      var wrapped := c.slot + 1 >= SLOTS;
      c.(timerAcc := c.timerAcc - c.untilTimer,
      slot := if wrapped then 0 else c.slot + 1,
      inGap := wrapped,
      untilTimer := if wrapped then c.perGap else c.perSlot)
  }

  // ---------- Slots come round in order whatever else happens ----------

  datatype Op =
    | Push(clks: nat)
    | SetFreq(freq: Word)
    | SetSlack(slack: Word)
    | SetRegion(ntsc: bool)
    | TakeDsp
    | TakeLine
    | TakeSlot

  function Apply(c: Clock, op: Op): (r: Clock)
    requires Wf(c)
    ensures Wf(r)
  {
    match op
    case Push(clks) => Pushed(c, clks)
    case SetFreq(freq) => Recalculated(c.(freq := if freq < MIN_CPU_FREQ then MIN_CPU_FREQ else freq))
    case SetSlack(slack) => Recalculated(c.(slack := slack))
    case SetRegion(ntsc) => Recalculated(c.(region := if ntsc then NTSC else PAL))
    case TakeDsp => DspTaken(c)
    case TakeLine => LineTaken(c)
    case TakeSlot => SlotTaken(c)
  }

  function Applied(c: Clock, ops: seq<Op>): (r: Clock)
    requires Wf(c)
    ensures Wf(r)
    decreases |ops|
  {
    if ops == [] then c else Apply(Applied(c, ops[..|ops| - 1]), ops[|ops| - 1])
  }

  // The slots handed out along a run.
  function SlotsOf(c: Clock, ops: seq<Op>): seq<nat>
    requires Wf(c)
    decreases |ops|
  {
    if ops == [] then []
    else
      var before := Applied(c, ops[..|ops| - 1]);
      SlotsOf(c, ops[..|ops| - 1]) + if ops[|ops| - 1] == TakeSlot && SlotDue(before) then [before.slot] else []
  }

  // Whatever the frequency, slack and region do, slots are handed out cyclically.
  lemma {:induction false} SlotsCyclic(c: Clock, ops: seq<Op>)
    requires Wf(c)
    ensures Applied(c, ops).slot == (c.slot + |SlotsOf(c, ops)|) % SLOTS
    ensures forall i :: 0 <= i < |SlotsOf(c, ops)| ==> SlotsOf(c, ops)[i] == (c.slot + i) % SLOTS
    decreases |ops|
  {
    hide Recalculated, Pushed;
    if ops != [] {
      var front, op := ops[..|ops| - 1], ops[|ops| - 1];
      SlotsCyclic(c, front);
      SlotUnlessTaken(Applied(c, front), op);
    }
  }

  lemma SlotUnlessTaken(c: Clock, op: Op)
    requires Wf(c)
    ensures Apply(c, op).slot == if op == TakeSlot && SlotDue(c) then (c.slot + 1) % SLOTS else c.slot
  {
  }

  function Executed(s: Timers, slots: seq<nat>): (r: Timers)
    requires Valid(s) && forall i :: 0 <= i < |slots| ==> slots[i] < SLOTS
    ensures Valid(r)
    decreases |slots|
  {
    if slots == [] then s else Execute(Executed(s, slots[..|slots| - 1]), slots[|slots| - 1])
  }

  // Sixteen slots from slot zero are a scan.
  lemma {:induction false} CyclesAreScans(s: Timers, slots: seq<nat>, n: nat, k: nat)
    requires Valid(s) && k <= SLOTS && |slots| == SLOTS * n + k
    requires forall i :: 0 <= i < |slots| ==> slots[i] == i % SLOTS
    ensures Executed(s, slots) == ScanTo(Scans(s, n), k)
    decreases n, k
  {
    hide Execute;
    if k > 0 {
      var front := slots[..|slots| - 1];
      CyclesAreScans(s, front, n, k - 1);
      assert slots[|slots| - 1] == k - 1;
    } else if n > 0 {
      CyclesAreScans(s, slots, n - 1, SLOTS);
      assert Scans(s, n) == ScanTo(Scans(s, n - 1), SLOTS);
      assert ScanTo(Scans(s, n), 0) == Scans(s, n);
    } else {
      assert slots == [];
    }
  }

  // The timer theorem: drive the timers from the clock through any run that starts at slot zero
  // and hands out 16n slots, and a chain has counted down by exactly n.
  lemma ClockedChain(s: Timers, a: nat, b: nat, c: Clock, ops: seq<Op>, n: nat)
    requires Chain(s, a, b) && Wf(c) && c.slot == 0 && |SlotsOf(c, ops)| == SLOTS * n
    ensures var slots := SlotsOf(c, ops);
            && (forall i :: 0 <= i < |slots| ==> slots[i] < SLOTS)
            && Chain(Executed(s, slots), a, b)
            && Value(Executed(s, slots).count, s.reload, a, b) ==
               (Value(s.count, s.reload, a, b) - n) % Radix(s.reload, a, b)
  {
    hide Applied, SlotsOf, Value, Radix, Executed, Scans;
    SlotsCyclic(c, ops);
    var slots := SlotsOf(c, ops);
    assert forall i :: 0 <= i < |slots| ==> slots[i] == i % SLOTS;
    CyclesAreScans(s, slots, n, 0);
    ZeroScan(Scans(s, n));
    ScansCount(s, a, b, n);
  }

  lemma ZeroScan(s: Timers)
    requires Valid(s)
    ensures ScanTo(s, 0) == s
  {
  }

  // ---------- One step of the frame loop ----------

  // All slots due, handed out.
  function Drained(c: Clock): (r: Clock)
    requires Wf(c) && c.perSlot >= 1 && c.perGap >= 1 && c.untilTimer >= 1
    ensures Wf(r) && !SlotDue(r)
    ensures r.timerAcc <= c.timerAcc && (c.timerAcc >= 0 ==> r.timerAcc >= 0)
    ensures r.untilTimer >= 1
    ensures r.(timerAcc := 0, slot := 0, inGap := false, untilTimer := 0) ==
            c.(timerAcc := 0, slot := 0, inGap := false, untilTimer := 0)
    decreases c.timerAcc
  {
    if SlotDue(c) then Drained(SlotTaken(c)) else c
  }

  predicate Ticking(c: Clock)
  {
    Wf(c) && c.perSlot >= 1 && c.perGap >= 1 && c.untilTimer >= 1
  }

  // opera_3do_internal_frame, as the clock sees it.
  function Stepped(c: Clock): (r: Clock)
    requires Ticking(c)
  {
    LineTaken(Drained(DspTaken(Pushed(c, CLOCK_STEP))))
  }

  function Run(c: Clock, n: nat): (r: Clock)
    requires Ticking(c)
    ensures Ticking(r)
  {
    if n == 0 then c else Stepped(Run(c, n - 1))
  }

  function Triggers(c: Clock, n: nat): nat
    requires Ticking(c)
  {
    if n == 0 then 0
    else Triggers(c, n - 1) + if DspDue(Pushed(Run(c, n - 1), CLOCK_STEP)) then 1 else 0
  }

  function Lines(c: Clock, n: nat): nat
    requires Ticking(c)
  {
    if n == 0 then 0
    else
      var before := Drained(DspTaken(Pushed(Run(c, n - 1), CLOCK_STEP)));
      Lines(c, n - 1) + if LineDue(before) then 1 else 0
  }

  // The CPU frequencies at which one step never owes two triggers and no field overflows.
  predicate Supported(freq: Word) { 1411200 <= freq <= 50000000 }

  lemma RatesInRange(freq: Word, region: Region)
    requires Supported(freq) && (region == NTSC || region == PAL)
    ensures STEP_1616 <= CyclesPerSnd(freq) <= 0x4000_0000
    ensures STEP_1616 <= CyclesPerLine(freq, region) <= 0x4000_0000
    ensures 1 <= CyclesPerTicks(freq, SLOT_TICKS) <= 0x4000_0000
    ensures 1 <= CyclesPerTicks(freq, SLOT_TICKS + DEFAULT_SLACK) <= 0x4000_0000
  {
    hide Int32, U64;
    Int32Small((freq * 0x1_0000) / SND_FREQ);
    if region == NTSC {
      assert NTSC.fieldRate * NTSC.fieldSize == 1033123701;
      Int32Small((freq * 0x1_0000_0000) / 1033123701);
    } else {
      assert PAL.fieldRate * PAL.fieldSize == 1022361600;
      Int32Small((freq * 0x1_0000_0000) / 1022361600);
    }
    TicksSmall(freq, SLOT_TICKS);
    TicksSmall(freq, SLOT_TICKS + DEFAULT_SLACK);
  }

  lemma Int32Small(x: int)
    ensures 0 <= x <= 0x7FFF_FFFF ==> Int32(x) == x
  {
  }

  lemma TicksSmall(freq: Word, ticks: nat)
    requires Supported(freq) && (ticks == 4 || ticks == 68)
    ensures CyclesPerTicks(freq, ticks) == (freq * ticks * 0x1_0000) / M25M_FREQ
    ensures 1 <= CyclesPerTicks(freq, ticks) <= 0x4000_0000
  {
    if ticks == 4 {
      assert U64(freq * 4) == freq * 4 && U64(freq * 4 * 0x1_0000) == freq * 4 * 0x1_0000;
    } else {
      assert U64(freq * 68) == freq * 68 && U64(freq * 68 * 0x1_0000) == freq * 68 * 0x1_0000;
    }
  }

  // What the accumulators owe after n steps at a supported frequency.
  predicate InStep(c: Clock, r: Clock, n: nat, triggers: nat, lines: nat)
  {
    && Ticking(r)
    && r.perSnd == c.perSnd && r.perLine == c.perLine && r.perSlot == c.perSlot && r.perGap == c.perGap
    && r.untilTimer <= 0x4000_0000
    && 0 <= r.dspAcc < c.perSnd && triggers * c.perSnd + r.dspAcc == n * STEP_1616
    && 0 <= r.vdlAcc < c.perLine && lines * c.perLine + r.vdlAcc == n * STEP_1616
    && 0 <= r.timerAcc < r.untilTimer
    && r.cycles == n * CLOCK_STEP
  }

  predicate GoodRates(c: Clock)
  {
    && STEP_1616 <= c.perSnd <= 0x4000_0000 && STEP_1616 <= c.perLine <= 0x4000_0000
    && 1 <= c.perSlot <= 0x4000_0000 && 1 <= c.perGap <= 0x4000_0000
  }

  lemma {:induction false} StepKeeps(c: Clock, r: Clock, n: nat, triggers: nat, lines: nat)
    requires GoodRates(c) && InStep(c, r, n, triggers, lines)
    ensures var pushed := Pushed(r, CLOCK_STEP);
            var drained := Drained(DspTaken(pushed));
            && pushed.dspAcc == r.dspAcc + STEP_1616 && pushed.vdlAcc == r.vdlAcc + STEP_1616
            && pushed.timerAcc == r.timerAcc + STEP_1616
            && InStep(c, Stepped(r), n + 1,
                      triggers + if DspDue(pushed) then 1 else 0,
                      lines + if LineDue(drained) then 1 else 0)
  {
    hide Drained;
    var pushed := Pushed(r, CLOCK_STEP);
    Int32Small(r.dspAcc + STEP_1616);
    Int32Small(r.vdlAcc + STEP_1616);
    Int32Small(r.timerAcc + STEP_1616);
    OneMore(triggers, c.perSnd);
    OneMore(lines, c.perLine);
    DrainedUntil(DspTaken(pushed));
  }

  lemma OneMore(k: int, p: int)
    ensures (k + 1) * p == k * p + p
  {
  }

  lemma {:induction false} DrainedUntil(c: Clock)
    requires Ticking(c) && c.perSlot <= 0x4000_0000 && c.perGap <= 0x4000_0000 && c.untilTimer <= 0x4000_0000
    ensures Drained(c).untilTimer <= 0x4000_0000
    decreases c.timerAcc
  {
    if SlotDue(c) {
      DrainedUntil(SlotTaken(c));
    }
  }

  lemma {:induction false} RunInStep(c: Clock, n: nat)
    requires Ticking(c) && GoodRates(c) && c.untilTimer == c.perSlot
    requires c.dspAcc == 0 && c.vdlAcc == 0 && c.timerAcc == 0 && c.cycles == 0
    ensures InStep(c, Run(c, n), n, Triggers(c, n), Lines(c, n))
  {
    hide Stepped, Pushed, Drained;
    if n > 0 {
      RunInStep(c, n - 1);
      StepKeeps(c, Run(c, n - 1), n - 1, Triggers(c, n - 1), Lines(c, n - 1));
    }
  }

  lemma QuotientIs(x: int, d: int, q: int, r: int)
    requires d > 0 && x == q * d + r && 0 <= r < d
    ensures x / d == q
  {
    var q', r' := x / d, x % d;
    assert x == d * q' + r';
    assert d * q' == q' * d && (q - q') * d == q * d - q' * d && (q' - q) * d == q' * d - q * d;
    if q > q' {
      MulMono(1, q - q', d);
    } else if q < q' {
      MulMono(1, q' - q, d);
    }
  }

  // From reset at any supported frequency, n steps give exactly the triggers and lines that
  // n * 32 cycles are worth, and no accumulator comes near overflow.
  lemma ExactCounts(freq: Word, region: Region, n: nat)
    requires Supported(freq) && (region == NTSC || region == PAL)
    ensures var c := Reset(freq, region);
            && Ticking(c) && c.perSnd > 0 && c.perLine > 0
            && Triggers(c, n) == (n * STEP_1616) / c.perSnd
            && Lines(c, n) == (n * STEP_1616) / c.perLine
            && Run(c, n).cycles == n * CLOCK_STEP
            && 0 <= Run(c, n).dspAcc <= 0x4000_0000
            && 0 <= Run(c, n).vdlAcc <= 0x4000_0000
            && 0 <= Run(c, n).timerAcc <= 0x4000_0000
  {
    hide CyclesPerSnd, CyclesPerLine, CyclesPerTicks, Run, Triggers, Lines;
    RatesInRange(freq, region);
    var c := Reset(freq, region);
    RunInStep(c, n);
    QuotientIs(n * STEP_1616, c.perSnd, Triggers(c, n), Run(c, n).dspAcc);
    QuotientIs(n * STEP_1616, c.perLine, Lines(c, n), Run(c, n).vdlAcc);
  }

  // ---------- Below the supported frequencies ----------

  // The clock accepts frequencies down to one megahertz. There one step owes more than one DSP trigger and
  // hands out only one.
  predicate Slow(freq: Word) { MIN_CPU_FREQ <= freq < 1411200 }

  // What the DSP accumulator is behind after n steps.
  function Backlog(c: Clock, n: nat): int { n * (STEP_1616 - c.perSnd) }

  lemma SlowRates(freq: Word, region: Region)
    requires Slow(freq) && (region == NTSC || region == PAL)
    ensures var c := Reset(freq, region); Ticking(c) && 0 < c.perSnd < STEP_1616 && c.dspAcc == 0
  {
    hide Int32, U64, CyclesPerLine;
    Int32Small((freq * 0x1_0000) / SND_FREQ);
    U64Small(freq * 4);
    U64Small(freq * 4 * 0x1_0000);
    U64Small(freq * 68);
    U64Small(freq * 68 * 0x1_0000);
    Int32Small((freq * 4 * 0x1_0000) / M25M_FREQ);
    Int32Small((freq * 68 * 0x1_0000) / M25M_FREQ);
  }

  lemma U64Small(x: nat)
    ensures x < 0x1_0000_0000_0000_0000 ==> U64(x) == x
  {
  }

  lemma SlowStep(r: Clock)
    requires Ticking(r) && 0 < r.perSnd < STEP_1616 && 0 <= r.dspAcc && r.dspAcc + STEP_1616 <= 0x7FFF_FFFF
    ensures DspDue(Pushed(r, CLOCK_STEP))
    ensures Stepped(r).dspAcc == r.dspAcc + (STEP_1616 - r.perSnd) && Stepped(r).perSnd == r.perSnd
  {
    hide Drained;
    Int32Small(r.dspAcc + STEP_1616);
  }

  // From any backlog, until the accumulator overflows, every step gives one trigger and the backlog grows evenly.
  lemma {:induction false} SlowRun(c: Clock, n: nat)
    requires Ticking(c) && 0 < c.perSnd < STEP_1616 && c.dspAcc >= 0
    requires n > 0 ==> c.dspAcc + Backlog(c, n - 1) + STEP_1616 <= 0x7FFF_FFFF
    ensures Run(c, n).perSnd == c.perSnd && Run(c, n).dspAcc == c.dspAcc + Backlog(c, n) && Triggers(c, n) == n
  {
    hide Stepped, Pushed, Drained;
    if n > 0 {
      OneMore(n - 1, STEP_1616 - c.perSnd);
      OneMore(n - 2, STEP_1616 - c.perSnd);
      SlowRun(c, n - 1);
      MulMono(0, n - 1, STEP_1616 - c.perSnd);
      SlowStep(Run(c, n - 1));
    }
  }

  // The step in which it overflows leaves it far below zero and gives no trigger.
  lemma SlowWraps(r: Clock)
    requires Ticking(r) && 0 < r.perSnd < STEP_1616 && r.dspAcc <= 0x7FFF_FFFF < r.dspAcc + STEP_1616
    ensures !DspDue(Pushed(r, CLOCK_STEP))
    ensures Stepped(r).dspAcc == r.dspAcc + STEP_1616 - 0x1_0000_0000 < 0 && Stepped(r).perSnd == r.perSnd
  {
    hide Drained;
    assert Int32(r.dspAcc + STEP_1616) == r.dspAcc + STEP_1616 - 0x1_0000_0000;
  }

  lemma SilentStep(r: Clock)
    requires Ticking(r) && -0x8000_0000 <= r.dspAcc && r.dspAcc + STEP_1616 < r.perSnd <= 0x4000_0000
    ensures !DspDue(Pushed(r, CLOCK_STEP))
    ensures Stepped(r).dspAcc == r.dspAcc + STEP_1616 && Stepped(r).perSnd == r.perSnd
  {
    hide Drained;
    assert Int32(r.dspAcc + STEP_1616) == r.dspAcc + STEP_1616;
  }

  // Then there is silence until it has climbed back, after which the triggers go on from a small backlog.
  lemma {:induction false} SlowSilence(c: Clock, n: nat)
    requires Ticking(c) && 0 < c.perSnd < STEP_1616 && -0x8000_0000 <= c.dspAcc
    requires c.dspAcc + n * STEP_1616 < c.perSnd
    ensures Run(c, n).dspAcc == c.dspAcc + n * STEP_1616 && Run(c, n).perSnd == c.perSnd && Triggers(c, n) == 0
    ensures c.dspAcc + (n + 1) * STEP_1616 >= c.perSnd ==>
              DspDue(Pushed(Run(c, n), CLOCK_STEP)) && 0 <= Stepped(Run(c, n)).dspAcc < STEP_1616
  {
    hide Stepped, Pushed, Drained, DspDue;
    if n > 0 {
      SlowSilence(c, n - 1);
      SilentStep(Run(c, n - 1));
    }
    if c.dspAcc + (n + 1) * STEP_1616 >= c.perSnd {
      SlowResumes(Run(c, n));
    }
  }

  lemma SlowResumes(r: Clock)
    requires Ticking(r) && 0 < r.perSnd < STEP_1616
    requires -0x8000_0000 <= r.dspAcc < r.perSnd <= r.dspAcc + STEP_1616
    ensures DspDue(Pushed(r, CLOCK_STEP)) && 0 <= Stepped(r).dspAcc < STEP_1616
  {
    hide Drained;
    assert Int32(r.dspAcc + STEP_1616) == r.dspAcc + STEP_1616;
  }

  // So below 1411200 Hz the DSP gets one trigger per step, never more, until the accumulator wraps, and then none.
  lemma SlowClock(freq: Word, region: Region, n: nat)
    requires Slow(freq) && (region == NTSC || region == PAL)
    requires n > 0 ==> Backlog(Reset(freq, region), n - 1) + STEP_1616 <= 0x7FFF_FFFF
    ensures var c := Reset(freq, region);
            && Ticking(c) && c.perSnd < STEP_1616
            && Triggers(c, n) == n && Run(c, n).dspAcc == Backlog(c, n)
            && (Backlog(c, n) + STEP_1616 > 0x7FFF_FFFF ==> !DspDue(Pushed(Run(c, n), CLOCK_STEP)))
  {
    hide CyclesPerSnd, CyclesPerLine, CyclesPerTicks, Run, Triggers;
    SlowRates(freq, region);
    var c := Reset(freq, region);
    SlowRun(c, n);
    if n > 0 {
      OneMore(n - 1, STEP_1616 - c.perSnd);
    }
  }

  // ---------- The frame loop ----------

  function Sum(costs: seq<nat>): nat
  {
    if costs == [] then 0 else Sum(costs[..|costs| - 1]) + costs[|costs| - 1]
  }

  class Machine {
    var clock: Clock
    var remainder: nat      // g_FRAME_CYCLE_REMAINDER
    ghost var steps: nat    // clock steps taken since construction

    ghost predicate Valid()
      reads this
    {
      Ticking(clock)
    }

    constructor (freq: Word, region: Region)
      requires Supported(freq) && (region == NTSC || region == PAL)
      ensures Valid() && clock == Reset(freq, region) && remainder == 0 && steps == 0
    {
      RatesInRange(freq, region);
      clock := Reset(freq, region);
      remainder, steps := 0, 0;
    }

    // opera_3do_internal_frame: the timer drain loop always ends.
    method InternalFrame(line: nat) returns (next: nat)
      requires Valid()
      modifies this
      ensures clock == Stepped(old(clock)) && Valid()
      ensures steps == old(steps) + 1 && remainder == old(remainder)
      ensures line <= next <= line + 1
    {
      clock := Pushed(clock, CLOCK_STEP);
      clock := DspTaken(clock);
      ghost var due := clock;
      while clock.timerAcc >= clock.untilTimer
        invariant Ticking(clock) && Drained(clock) == Drained(due)
        invariant remainder == old(remainder) && steps == old(steps)
        decreases clock.timerAcc
      {
        clock := SlotTaken(clock);
      }
      next := line;
      if clock.vdlAcc >= clock.perLine {
        clock := LineTaken(clock);
        next := line + 1;
      }
      steps := steps + 1;
    }

    // Spends whole steps while there are any and the field is not over.
    method Spend(cnt: nat, line: nat, scanlines: nat) returns (left: nat, next: nat)
      requires Valid() && line <= scanlines
      modifies this
      ensures Valid() && remainder == old(remainder) && steps >= old(steps)
      ensures left + CLOCK_STEP * (steps - old(steps)) == cnt
      ensures clock == Run(old(clock), steps - old(steps))
      ensures next <= scanlines && (left < CLOCK_STEP || next == scanlines)
    {
      hide Stepped;
      left, next := cnt, line;
      while left >= CLOCK_STEP && next < scanlines
        invariant Valid() && remainder == old(remainder) && next <= scanlines && steps >= old(steps)
        invariant left + CLOCK_STEP * (steps - old(steps)) == cnt
        invariant clock == Run(old(clock), steps - old(steps))
      {
        next := InternalFrame(next);
        left := left - CLOCK_STEP;
      }
    }

    // opera_3do_process_frame: costs are the cycles the ARM's next instructions take. Every
    // cycle executed is either spent on a clock step or carried to the next frame.
    method ProcessFrame(costs: seq<nat>, scanlines: nat) returns (used: nat)
      requires Valid()
      modifies this
      ensures Valid() && used <= |costs| && steps >= old(steps)
      ensures remainder + CLOCK_STEP * (steps - old(steps)) == old(remainder) + Sum(costs[..used])
      ensures clock == Run(old(clock), steps - old(steps))
    {
      hide Stepped;
      var cnt: nat, line: nat := Spend(remainder, 0, scanlines);
      used := 0;
      while line < scanlines && used < |costs|
        invariant Valid() && used <= |costs| && line <= scanlines && steps >= old(steps)
        invariant cnt + CLOCK_STEP * (steps - old(steps)) == old(remainder) + Sum(costs[..used])
        invariant clock == Run(old(clock), steps - old(steps))
        decreases |costs| - used
      {
        assert costs[..used + 1][..used] == costs[..used];
        cnt := cnt + costs[used];
        used := used + 1;
        ghost var taken := steps - old(steps);
        cnt, line := Spend(cnt, line, scanlines);
        RunAdds(old(clock), taken, steps - old(steps) - taken);
      }
      remainder := cnt;
    }
  }

  lemma {:induction false} RunAdds(c: Clock, m: nat, n: nat)
    requires Ticking(c)
    ensures Run(Run(c, m), n) == Run(c, m + n)
  {
    hide Stepped;
    if n > 0 {
      RunAdds(c, m, n - 1);
    }
  }
}
