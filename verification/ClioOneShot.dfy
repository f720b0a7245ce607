/**
 Timers that do not reload. Such a timer ends a count: it runs down once,
 interrupts, and is disabled with its count at the top. It may stand alone or be
 the last of a cascade whose other timers reload; either way the count it ends
 is the combined value of the timers up to it.
 */
module ClioOneShot {
  import opened Words
  import opened ClioTimers

  // Timers a to b cascade, the last one without reload; the others are a chain.
  predicate EndsIn(s: Timers, a: nat, b: nat)
  {
    && Valid(s) && a <= b < SLOTS
    && s.flags[b] == Flags(true, false, b != a)
    && (a < b ==> Chain(s, a, b - 1))
  }

  // A timer that has run down.
  predicate Spent(s: Timers, t: nat)
    requires Valid(s) && t < SLOTS
  {
    !s.flags[t].decrement && s.count[t] == 0xFFFF
  }

  // How many scans the count still takes.
  function Left(s: Timers, a: nat, b: nat): nat
    requires EndsIn(s, a, b)
  {
    Value(s.count, s.reload, a, b)
  }

  // The last timer's slot in a scan: it moves when all timers below it are zero, and fires from zero.
  lemma LastSlot(s: Timers, a: nat, b: nat)
    requires EndsIn(s, a, b)
    ensures var r, fires := Scan(s), AllZero(s.count, a, b + 1);
            && r.count[b] == (if fires then 0xFFFF else if AllZero(s.count, a, b) then s.count[b] - 1 else s.count[b])
            && r.flags[b] == (if fires then s.flags[b].(decrement := false) else s.flags[b])
            && (b % 2 == 1 ==> (10 - b / 2 in r.raised <==> 10 - b / 2 in s.raised || fires))
  {
    hide ScanTo, Value;
    if a < b {
      ChainCarry(s, a, b - 1, b - 1);
    }
    ScanBefore(s, b, b);
    OwnSlot(s, b);
    ScanAfter(s, SLOTS, b);
  }

  lemma OwnSlot(s: Timers, t: nat)
    requires Valid(s) && t < SLOTS
    ensures ScanTo(s, t + 1) == Execute(ScanTo(s, t), t)
  {
  }

  // While the count is not over a scan takes one off it.
  lemma ScanTakesOne(s: Timers, a: nat, b: nat)
    requires EndsIn(s, a, b) && Left(s, a, b) > 0
    ensures EndsIn(Scan(s), a, b) && Left(Scan(s), a, b) == Left(s, a, b) - 1
    ensures b % 2 == 1 ==> (10 - b / 2 in Scan(s).raised <==> 10 - b / 2 in s.raised)
  {
    hide Scan, Value;
    var r := Scan(s);
    LastSlot(s, a, b);
    ZeroValue(s.count, s.reload, a, b);
    ReloadsKept(s);
    if a < b {
      ChainKept(s, a, b - 1);
    }
    forall k | a <= k < b
      ensures r.count[k] == Counted(s, a, k)
    {
      ScanOfChain(s, a, b - 1, k);
    }
    ValueCountsDown(s.count, r.count, s.reload, a, b);
  }

  lemma ReloadsKept(s: Timers)
    requires Valid(s)
    ensures Scan(s).reload == s.reload
  {
    ReloadKept(s, SLOTS);
  }

  // A disabled timer neither counts nor interrupts, over any number of scans.
  lemma {:induction false} DisabledStays(s: Timers, t: nat, n: nat)
    requires Valid(s) && t < SLOTS && !s.flags[t].decrement
    ensures var r := Scans(s, n);
            && r.count[t] == s.count[t] && r.flags[t] == s.flags[t]
            && (t % 2 == 1 ==> (10 - t / 2 in r.raised <==> 10 - t / 2 in s.raised))
  {
    hide ScanTo;
    if n > 0 {
      DisabledStays(s, t, n - 1);
      var u := Scans(s, n - 1);
      ScanBefore(u, t, t);
      OwnSlot(u, t);
      ScanAfter(u, SLOTS, t);
    }
  }

  // The one-shot theorem. Up to its combined value a count only runs down: no interrupt of its last timer. The
  // scan after that raises the interrupt and leaves the timer at the top and disabled, and so every later scan.
  lemma {:induction false} OneShotFires(s: Timers, a: nat, b: nat, n: nat)
    requires EndsIn(s, a, b)
    ensures var r := Scans(s, n);
            if n <= Left(s, a, b) then
              && EndsIn(r, a, b) && Left(r, a, b) == Left(s, a, b) - n
              && (b % 2 == 1 ==> (10 - b / 2 in r.raised <==> 10 - b / 2 in s.raised))
            else
              && Spent(r, b) && r.flags[b] == Flags(false, false, b != a)
              && (b % 2 == 1 ==> 10 - b / 2 in r.raised)
    decreases n
  {
    hide Scan, Value;
    if n > 0 {
      OneShotFires(s, a, b, n - 1);
      var u := Scans(s, n - 1);
      if n - 1 < Left(s, a, b) {
        ScanTakesOne(u, a, b);
      } else if n - 1 == Left(s, a, b) {
        LastSlot(u, a, b);
        ZeroValue(u.count, u.reload, a, b);
      } else {
        DisabledStays(u, b, 1);
        assert Scans(u, 0) == u && Scans(u, 1) == Scan(u);
      }
    }
  }

  // A lone timer takes its own count of scans.
  lemma LoneCount(s: Timers, t: nat)
    requires EndsIn(s, t, t)
    ensures Left(s, t, t) == s.count[t]
  {
    assert Value(s.count, s.reload, t + 1, t) == 0;
  }

  // The chain below a one-shot timer goes on counting for ever.
  lemma LowerGoesOn(s: Timers, a: nat, b: nat, n: nat)
    requires EndsIn(s, a, b) && a < b
    ensures Chain(Scans(s, n), a, b - 1)
    ensures Value(Scans(s, n).count, s.reload, a, b - 1)
         == (Value(s.count, s.reload, a, b - 1) - n) % Radix(s.reload, a, b - 1)
  {
    hide Value, Radix, Scans;
    ScansCount(s, a, b - 1, n);
  }
}
