/**
 The clock against real time. The rates are quotients rounded down, so every
 DSP trigger, line and timer slot comes a little early; how little is proved for
 any number of steps.
 */
module ClockRates {
  import opened Words
  import opened ClioTimers
  import opened Clock

  function Quotient(x: nat, d: nat): nat
    requires d > 0
  {
    x / d
  }

  // A period of parts/units rounded down, counted over x, gives at least the exact number of periods and at
  // most one more for every period counted, besides the one under way.
  lemma RoundedPeriod(x: nat, period: nat, parts: nat, units: nat)
    requires period > 0 && units > 0 && parts > 0 && period == Quotient(parts, units)
    ensures var counted, exact := Quotient(x, period), Quotient(x * units, parts);
            exact <= counted <= exact + 1 + Quotient(counted, period)
  {
    hide Quotient;
    var counted, exact := Quotient(x, period), Quotient(x * units, parts);
    QuotientBounds(parts, units);
    QuotientBounds(x, period);
    QuotientBounds(x * units, parts);
    QuotientBounds(counted, period);
    NotTooFew(x, period, parts, units, exact);
    NotTooMany(x, period, parts, units, counted, Quotient(counted, period), exact);
  }

  lemma NotTooFew(x: nat, period: nat, parts: nat, units: nat, exact: nat)
    requires period > 0 && units > 0 && period * units <= parts && exact * parts <= x * units
    ensures exact <= Quotient(x, period)
  {
    MulMono(period * units, parts, exact);
    Swap(exact, period * units);
    Swap(exact, parts);
    Assoc(exact, period, units);
    MulCancel(exact * period, x, units);
    Largest(x, period, exact);
  }

  lemma NotTooMany(x: nat, period: nat, parts: nat, units: nat, counted: nat, extra: nat, exact: nat)
    requires period > 0 && units > 0 && parts < (period + 1) * units
    requires counted * period <= x && counted < (extra + 1) * period && x * units < (exact + 1) * parts
    ensures counted <= exact + 1 + extra
  {
    if counted > exact + 1 + extra {
      var rest := counted - 1 - extra;
      RestBelow(x, period, counted, extra);
      MulMono(exact + 1, rest, parts);
      MulMono(parts, (period + 1) * units, rest);
      Swap(rest, parts);
      Swap(rest, (period + 1) * units);
      Assoc(rest, period + 1, units);
      MulMono(rest * (period + 1), x, units);
    }
  }

  lemma RestBelow(x: nat, period: nat, counted: nat, extra: nat)
    requires counted * period <= x && counted < (extra + 1) * period
    ensures (counted - 1 - extra) * (period + 1) < x || counted <= 1 + extra
  {
    assert (counted - 1 - extra) * (period + 1)
        == counted * period + counted - (extra + 1) * period - (extra + 1);
  }

  lemma Swap(a: int, b: int)
    ensures a * b == b * a
  {
  }

  lemma Assoc(a: int, b: int, c: int)
    ensures a * (b * c) == (a * b) * c
  {
  }

  lemma QuotientBounds(x: nat, d: nat)
    requires d > 0
    ensures Quotient(x, d) * d <= x < (Quotient(x, d) + 1) * d
  {
  }

  lemma MulCancel(a: int, b: int, c: int)
    requires a * c <= b * c && c > 0
    ensures a <= b
  {
    if a > b {
      MulMono(b + 1, a, c);
    }
  }

  lemma Largest(x: nat, d: nat, q: nat)
    requires d > 0 && q * d <= x
    ensures q <= Quotient(x, d)
  {
    QuotientBounds(x, d);
    if q > x / d {
      MulMono(x / d + 1, q, d);
    }
  }

  lemma ScaledQuotient(a: nat, b: nat, k: nat)
    requires b > 0 && k > 0 && b * k > 0
    ensures Quotient(a * k, b * k) == Quotient(a, b)
  {
    hide Quotient;
    var q := Quotient(a, b);
    QuotientBounds(a, b);
    QuotientBounds(a * k, b * k);
    var p := Quotient(a * k, b * k);
    MulMono(q * b, a, k);
    Assoc(q, b, k);
    Assoc(p, b, k);
    MulCancel(p * b, a, k);
    Largest(a, b, p);
    Largest(a * k, b * k, q);
  }

  // ---------- DSP triggers and lines ----------

  // A second's worth of triggers and of lines, as units over a 65536th of a second's cycles.
  function LineRate(region: Region): nat { region.fieldRate * region.fieldSize }

  lemma PositiveRates(freq: Word, region: Region)
    requires Supported(freq) && (region == NTSC || region == PAL)
    ensures LineRate(region) > 0 && region.fieldRate > 0 && region.fieldSize > 0
    ensures CyclesPerSnd(freq) == Quotient(freq * 0x1_0000, SND_FREQ) >= STEP_1616
    ensures CyclesPerLine(freq, region) == Quotient(freq * 0x1_0000_0000, LineRate(region)) >= STEP_1616
  {
    hide Int32;
    RatesInRange(freq, region);
    Int32Small((freq * 0x1_0000) / SND_FREQ);
    if region == NTSC {
      assert LineRate(NTSC) == 1033123701;
      Int32Small((freq * 0x1_0000_0000) / 1033123701);
    } else {
      assert LineRate(PAL) == 1022361600;
      Int32Small((freq * 0x1_0000_0000) / 1022361600);
    }
  }

  // After any number of steps at a supported frequency the clock has given 44100 triggers and fieldRate * fieldSize
  // lines (in 65536ths) for every freq cycles: never fewer than the exact number rounded down, and at most one more
  // than that and one for every whole period of triggers or lines given, of which a second has none.
  lemma CountsKeepTime(freq: Word, region: Region, n: nat)
    requires Supported(freq) && (region == NTSC || region == PAL)
    ensures var c := Reset(freq, region);
            && Ticking(c) && c.perSnd > 0 && c.perLine > 0 && LineRate(region) > 0
            && var cycles := n * CLOCK_STEP;
            && var triggers := Quotient(cycles * 44100, freq);
            && var lines := Quotient(cycles * LineRate(region), freq * 0x1_0000);
            && triggers <= Triggers(c, n) <= triggers + 1 + Quotient(Triggers(c, n), c.perSnd)
            && lines <= Lines(c, n) <= lines + 1 + Quotient(Lines(c, n), c.perLine)
            && (cycles <= freq ==>
                  triggers <= Triggers(c, n) <= triggers + 1 && lines <= Lines(c, n) <= lines + 1)
  {
    hide CyclesPerSnd, CyclesPerLine, CyclesPerTicks, Triggers, Lines, Quotient, Reset, LineRate, Run;
    PositiveRates(freq, region);
    ResetRates(freq, region);
    ExactCounts(freq, region, n);
    var c := Reset(freq, region);
    Steps32(n);
    TriggersKeepTime(n * CLOCK_STEP, freq, c.perSnd, Triggers(c, n));
    LinesKeepTime(n * CLOCK_STEP, freq, c.perLine, LineRate(region), Lines(c, n));
  }

  lemma Steps32(n: nat)
    ensures n * STEP_1616 == (n * CLOCK_STEP) * 0x1_0000
  {
  }

  lemma TriggersKeepTime(cycles: nat, freq: Word, perSnd: int, triggers: nat)
    requires Supported(freq) && perSnd >= STEP_1616 && perSnd == Quotient(freq * 0x1_0000, SND_FREQ)
    requires triggers == (cycles * 0x1_0000) / perSnd
    ensures var exact := Quotient(cycles * 44100, freq);
            && exact <= triggers <= exact + 1 + Quotient(triggers, perSnd)
            && (cycles <= freq ==> triggers <= exact + 1)
  {
    hide Quotient;
    QuotientOf(cycles * 0x1_0000, perSnd);
    QuotientBounds(cycles * 0x1_0000, perSnd);
    RoundedPeriod(cycles * 0x1_0000, perSnd, freq * 0x1_0000, 44100);
    ByTwo(cycles, 44100);
    ScaledQuotient(cycles * 44100, freq, 0x1_0000);
    if cycles <= freq {
      SmallCount(triggers, perSnd, cycles * 0x1_0000);
    }
  }

  lemma LinesKeepTime(cycles: nat, freq: Word, perLine: int, rate: nat, lines: nat)
    requires Supported(freq) && perLine >= STEP_1616 && rate > 0
    requires perLine == Quotient(freq * 0x1_0000_0000, rate) && lines == (cycles * 0x1_0000) / perLine
    ensures var exact := Quotient(cycles * rate, freq * 0x1_0000);
            && exact <= lines <= exact + 1 + Quotient(lines, perLine)
            && (cycles <= freq ==> lines <= exact + 1)
  {
    hide Quotient;
    QuotientOf(cycles * 0x1_0000, perLine);
    QuotientBounds(cycles * 0x1_0000, perLine);
    RoundedPeriod(cycles * 0x1_0000, perLine, freq * 0x1_0000_0000, rate);
    ByTwo(cycles, rate);
    ScaledQuotient(cycles * rate, freq * 0x1_0000, 0x1_0000);
    if cycles <= freq {
      SmallCount(lines, perLine, cycles * 0x1_0000);
    }
  }

  lemma ByTwo(x: nat, y: nat)
    ensures (x * 0x1_0000) * y == (x * y) * 0x1_0000
  {
  }

  lemma ResetRates(freq: Word, region: Region)
    requires region.fieldRate > 0 && region.fieldSize > 0
    ensures Reset(freq, region).perSnd == CyclesPerSnd(freq)
    ensures Reset(freq, region).perLine == CyclesPerLine(freq, region)
  {
  }

  lemma QuotientOf(x: nat, d: nat)
    requires d > 0
    ensures Quotient(x, d) == x / d
  {
  }

  // A second holds fewer periods than a period has 65536ths of cycles.
  lemma SmallCount(k: nat, period: nat, x: nat)
    requires period >= STEP_1616 && k * period <= x <= 50000000 * 0x1_0000
    ensures k < period && Quotient(k, period) == 0
  {
    if k >= STEP_1616 {
      MulMono(STEP_1616, k, period);
      MulMono(STEP_1616, period, STEP_1616);
    }
  }

  // ---------- Timer slots ----------

  // The slots handed out when all that are due are.
  function SlotsDue(c: Clock): nat
    requires Ticking(c)
    decreases c.timerAcc
  {
    if SlotDue(c) then 1 + SlotsDue(SlotTaken(c)) else 0
  }

  // The slots handed out in n steps.
  function Slots(c: Clock, n: nat): nat
    requires Ticking(c)
  {
    if n == 0 then 0 else Slots(c, n - 1) + SlotsDue(DspTaken(Pushed(Run(c, n - 1), CLOCK_STEP)))
  }

  // How long slot k is waited for: before slot zero comes round again there is the gap.
  function Interval(c: Clock, k: nat): int { if k > 0 && k % SLOTS == 0 then c.perGap else c.perSlot }

  function Elapsed(c: Clock, k: nat): int { if k == 0 then 0 else Elapsed(c, k - 1) + Interval(c, k - 1) }

  // The clock after k slots.
  predicate AfterSlots(c: Clock, r: Clock, k: nat, time: int)
  {
    && Ticking(r) && r.perSlot == c.perSlot && r.perGap == c.perGap
    && r.slot == k % SLOTS && r.untilTimer == Interval(c, k) && r.timerAcc + Elapsed(c, k) == time
  }

  lemma {:induction false} DrainCounts(c: Clock, r: Clock, k: nat, time: int)
    requires AfterSlots(c, r, k, time)
    ensures AfterSlots(c, Drained(r), k + SlotsDue(r), time)
    decreases r.timerAcc
  {
    if SlotDue(r) {
      TakenIsNext(c, r, k, time);
      DrainCounts(c, SlotTaken(r), k + 1, time);
    }
  }

  lemma TakenIsNext(c: Clock, r: Clock, k: nat, time: int)
    requires AfterSlots(c, r, k, time) && SlotDue(r)
    ensures AfterSlots(c, SlotTaken(r), k + 1, time)
  {
  }

  lemma {:induction false} SlotsRun(freq: Word, region: Region, n: nat)
    requires Supported(freq) && (region == NTSC || region == PAL)
    ensures var c := Reset(freq, region);
            && Ticking(c)
            && AfterSlots(c, Run(c, n), Slots(c, n), n * STEP_1616)
            && Run(c, n).timerAcc < Run(c, n).untilTimer
  {
    hide CyclesPerSnd, CyclesPerLine, CyclesPerTicks, Stepped, Pushed, DspTaken, SlotsDue, Elapsed;
    RatesInRange(freq, region);
    var c := Reset(freq, region);
    NoneElapsed(c);
    if n > 0 {
      SlotsRun(freq, region, n - 1);
      ExactCounts(freq, region, n - 1);
      SlotsStep(c, Run(c, n - 1), Slots(c, n - 1), (n - 1) * STEP_1616);
    }
  }

  lemma SlotsStep(c: Clock, r: Clock, k: nat, time: int)
    requires AfterSlots(c, r, k, time) && 0 <= r.timerAcc <= 0x4000_0000
    ensures AfterSlots(c, Stepped(r), k + SlotsDue(DspTaken(Pushed(r, CLOCK_STEP))), time + STEP_1616)
    ensures Stepped(r).timerAcc < Stepped(r).untilTimer
  {
    hide Drained, SlotsDue, Elapsed;
    PushedTimer(r);
    DrainCounts(c, DspTaken(Pushed(r, CLOCK_STEP)), k, time + STEP_1616);
  }

  lemma NoneElapsed(c: Clock)
    ensures Elapsed(c, 0) == 0
  {
  }

  lemma PushedTimer(r: Clock)
    requires 0 <= r.timerAcc <= 0x4000_0000
    ensures Pushed(r, CLOCK_STEP).timerAcc == r.timerAcc + STEP_1616
  {
    Int32Small(r.timerAcc + STEP_1616);
  }

  // The timer slots keep time exactly: after n steps as many have been handed out as fit their intervals, the next
  // one is still to come, and every round of sixteen takes fifteen slots' time and one gap.
  lemma SlotsKeepTime(freq: Word, region: Region, n: nat)
    requires Supported(freq) && (region == NTSC || region == PAL)
    ensures var c := Reset(freq, region);
            && Ticking(c)
            && var k := Slots(c, n);
            && Elapsed(c, k) <= n * STEP_1616 < Elapsed(c, k + 1)
            && Run(c, n).slot == k % SLOTS
  {
    hide Run, Slots, Reset, Elapsed;
    SlotsRun(freq, region, n);
    ExactCounts(freq, region, n);
    OneMoreElapsed(Reset(freq, region), Slots(Reset(freq, region), n));
  }

  lemma OneMoreElapsed(c: Clock, k: nat)
    ensures Elapsed(c, k + 1) == Elapsed(c, k) + Interval(c, k)
  {
  }

  function Round(c: Clock): int { 15 * c.perSlot + c.perGap }

  lemma {:induction false} ElapsedRounds(c: Clock, rounds: nat, k: nat)
    requires 1 <= k <= SLOTS
    ensures Elapsed(c, SLOTS * rounds + k) == rounds * Round(c) + k * c.perSlot
    decreases rounds, k
  {
    hide Elapsed, Interval, Round;
    OneMoreElapsed(c, SLOTS * rounds + k - 1);
    IntervalIn(c, rounds, k);
    if k > 1 {
      ElapsedRounds(c, rounds, k - 1);
      OneMore(k - 1, c.perSlot);
    } else if rounds > 0 {
      ElapsedRounds(c, rounds - 1, SLOTS);
      OneMore(rounds - 1, Round(c));
      RoundIs(c);
    } else {
      NoneElapsed(c);
    }
  }

  lemma IntervalIn(c: Clock, rounds: nat, k: nat)
    requires 1 <= k <= SLOTS
    ensures Interval(c, SLOTS * rounds + k - 1) == if k == 1 && rounds > 0 then c.perGap else c.perSlot
  {
  }

  lemma RoundIs(c: Clock)
    ensures Round(c) == 15 * c.perSlot + c.perGap
  {
  }

  // A round of slots takes 64 ticks of the 25 MHz clock and the slack, to within sixteen 65536ths of a cycle, as
  // long as the longest wait fits its register.
  lemma RoundTakes(c: Clock)
    requires Supported(c.freq) && c.freq * (SLOT_TICKS + c.slack) * 0x1_0000 < 0x8000_0000 * 25000000
    requires c.perSlot == CyclesPerTicks(c.freq, SLOT_TICKS)
    requires c.perGap == CyclesPerTicks(c.freq, SLOT_TICKS + c.slack)
    ensures Round(c) * 25000000 <= c.freq * (64 + c.slack) * 0x1_0000 < (Round(c) + 16) * 25000000
  {
    hide CyclesPerTicks;
    TicksSmall(c.freq, SLOT_TICKS);
    TicksFit(c.freq, SLOT_TICKS + c.slack);
    QuotientBounds(c.freq * SLOT_TICKS * 0x1_0000, M25M_FREQ);
    QuotientBounds(c.freq * (SLOT_TICKS + c.slack) * 0x1_0000, M25M_FREQ);
    assert c.freq * (64 + c.slack) * 0x1_0000
        == 15 * (c.freq * SLOT_TICKS * 0x1_0000) + c.freq * (SLOT_TICKS + c.slack) * 0x1_0000;
  }

  lemma TicksFit(freq: Word, ticks: nat)
    requires freq * ticks * 0x1_0000 < 0x8000_0000 * 25000000
    ensures CyclesPerTicks(freq, ticks) == Quotient(freq * ticks * 0x1_0000, M25M_FREQ)
  {
    hide Int32, U64, Quotient;
    var x := freq * ticks;
    U64Small(x);
    U64Small(x * 0x1_0000);
    QuotientBounds(x * 0x1_0000, M25M_FREQ);
    Int32Small(Quotient(x * 0x1_0000, M25M_FREQ));
    QuotientOf(x * 0x1_0000, M25M_FREQ);
  }
}
