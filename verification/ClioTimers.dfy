/**
 CLIO's sixteen countdown timers. One call runs one slot; a scan runs slots 0
 to 15 in order, each passing its underflow to the next as a carry.

 A chain of enabled, reloading timers in which all but the first cascade is one
 mixed-radix counter.
 */
module ClioTimers {
  import opened Words

  const SLOTS: nat := 16

  // A timer's nibble of the control registers 0x200 and 0x208.
  datatype Flags = Flags(decrement: bool, reload: bool, cascade: bool)

  datatype Timers = Timers(
    count: seq<Half>,     // regs 0x100, 0x108, ...
    reload: seq<Half>,    // regs 0x104, 0x10c, ...
    flags: seq<Flags>,
    carry: bool,          // TIMER_CARRY
    raised: set<nat>)     // bits latched in reg 0x40

  predicate Valid(s: Timers)
  {
    |s.count| == SLOTS && |s.reload| == SLOTS && |s.flags| == SLOTS
  }

  // ---------- One slot ----------

  // The interrupt bit an odd timer latches.
  function InterruptBit(t: nat): nat
    requires t < SLOTS
  {
    10 - t / 2
  }

  // opera_clio_timer_execute
  function Execute(s: Timers, t: nat): (r: Timers)
    requires Valid(s) && t < SLOTS
    ensures Valid(r)
  {
    var carryIn := t != 0 && s.carry;
    var f := s.flags[t];
    if !f.decrement || (f.cascade && !carryIn) then s.(carry := false)
    else if s.count[t] != 0 then s.(count := s.count[t := s.count[t] - 1], carry := false)
    else
      var latched := s.(carry := true, raised := if t % 2 == 1 then s.raised + {InterruptBit(t)} else s.raised);
      if f.reload then latched.(count := s.count[t := s.reload[t]])
      else latched.(count := s.count[t := 0xFFFF], flags := s.flags[t := f.(decrement := false)])
  }

  // Slots 0 to n - 1 in order.
  function ScanTo(s: Timers, n: nat): (r: Timers)
    requires Valid(s) && n <= SLOTS
    ensures Valid(r)
  {
    if n == 0 then s else Execute(ScanTo(s, n - 1), n - 1)
  }

  function Scan(s: Timers): (r: Timers)
    requires Valid(s)
    ensures Valid(r)
  {
    ScanTo(s, SLOTS)
  }

  function Scans(s: Timers, n: nat): (r: Timers)
    requires Valid(s)
    ensures Valid(r)
  {
    if n == 0 then s else Scan(Scans(s, n - 1))
  }

  // ---------- Chains ----------

  // Timers a to b form a chain: all enabled and reloading, all but the first cascading.
  predicate Chain(s: Timers, a: nat, b: nat)
  {
    && Valid(s) && a <= b < SLOTS
    && (forall k :: a <= k <= b ==> s.flags[k] == Flags(true, true, k != a))
    && (forall k :: a <= k <= b ==> s.count[k] <= s.reload[k])
  }

  predicate AllZero(c: seq<Half>, a: nat, k: nat)
    requires k <= |c|
  {
    forall j :: a <= j < k ==> c[j] == 0
  }

  // What one scan does to chain timer k: it moves only when everything below it is zero.
  function Counted(s: Timers, a: nat, k: nat): Half
    requires Valid(s) && a <= k < SLOTS
  {
    if !AllZero(s.count, a, k) then s.count[k]
    else if s.count[k] == 0 then s.reload[k]
    else s.count[k] - 1
  }

  // Executing a slot touches no other timer's count, reload or flags.
  lemma ExecuteIsLocal(s: Timers, t: nat, k: nat)
    requires Valid(s) && t < SLOTS && k < SLOTS && t != k
    ensures var r := Execute(s, t);
            && r.count[k] == s.count[k] && r.reload == s.reload && r.flags[k] == s.flags[k]
            && (k % 2 == 1 ==> (InterruptBit(k) in r.raised <==> InterruptBit(k) in s.raised))
  {
  }

  lemma {:induction false} ScanBefore(s: Timers, n: nat, k: nat)
    requires Valid(s) && n <= k < SLOTS
    ensures var r := ScanTo(s, n);
            && r.count[k] == s.count[k] && r.reload == s.reload && r.flags[k] == s.flags[k]
            && (k % 2 == 1 ==> (InterruptBit(k) in r.raised <==> InterruptBit(k) in s.raised))
  {
    hide Execute;
    if n > 0 {
      ScanBefore(s, n - 1, k);
      ExecuteIsLocal(ScanTo(s, n - 1), n - 1, k);
    }
  }

  lemma {:induction false} ScanAfter(s: Timers, n: nat, k: nat)
    requires Valid(s) && k < n <= SLOTS
    ensures var u, r := ScanTo(s, k + 1), ScanTo(s, n);
            && r.count[k] == u.count[k] && r.reload == u.reload && r.flags[k] == u.flags[k]
            && (k % 2 == 1 ==> (InterruptBit(k) in r.raised <==> InterruptBit(k) in u.raised))
  {
    hide Execute;
    if n > k + 1 {
      ScanAfter(s, n - 1, k);
      ExecuteIsLocal(ScanTo(s, n - 1), n - 1, k);
    }
  }

  // The slot of chain timer k, given the carry its predecessor left.
  lemma ChainSlot(s: Timers, a: nat, b: nat, k: nat)
    requires Chain(s, a, b) && a <= k <= b
    requires k > a ==> (ScanTo(s, k).carry <==> AllZero(s.count, a, k))
    ensures var r := ScanTo(s, k + 1);
            && r.count[k] == Counted(s, a, k)
            && (r.carry <==> AllZero(s.count, a, k + 1))
            && r.flags[k] == s.flags[k]
            && (k % 2 == 1 ==>
                  (InterruptBit(k) in r.raised <==> InterruptBit(k) in s.raised || AllZero(s.count, a, k + 1)))
  {
    ScanBefore(s, k, k);
    var u := ScanTo(s, k);
    assert ScanTo(s, k + 1) == Execute(u, k);
  }

  lemma {:induction false} ChainCarry(s: Timers, a: nat, b: nat, k: nat)
    requires Chain(s, a, b) && a <= k <= b
    ensures var r := ScanTo(s, k + 1);
            && r.count[k] == Counted(s, a, k)
            && (r.carry <==> AllZero(s.count, a, k + 1))
            && r.flags[k] == s.flags[k]
            && (k % 2 == 1 ==>
                  (InterruptBit(k) in r.raised <==> InterruptBit(k) in s.raised || AllZero(s.count, a, k + 1)))
    decreases k
  {
    hide ScanTo;
    if k > a {
      ChainCarry(s, a, b, k - 1);
    }
    ChainSlot(s, a, b, k);
  }

  // One whole scan, seen from one timer of a chain.
  lemma ScanOfChain(s: Timers, a: nat, b: nat, k: nat)
    requires Chain(s, a, b) && a <= k <= b
    ensures var r := Scan(s);
            && r.count[k] == Counted(s, a, k) && r.reload == s.reload && r.flags[k] == s.flags[k]
            && (k % 2 == 1 ==>
                  (InterruptBit(k) in r.raised <==> InterruptBit(k) in s.raised || AllZero(s.count, a, k + 1)))
  {
    hide ScanTo;
    ChainCarry(s, a, b, k);
    ScanAfter(s, SLOTS, k);
    ReloadKept(s, SLOTS);
  }

  lemma {:induction false} ReloadKept(s: Timers, n: nat)
    requires Valid(s) && n <= SLOTS
    ensures ScanTo(s, n).reload == s.reload
  {
    if n > 0 {
      ReloadKept(s, n - 1);
    }
  }

  lemma ChainKept(s: Timers, a: nat, b: nat)
    requires Chain(s, a, b)
    ensures Chain(Scan(s), a, b)
  {
    hide Scan;
    forall k | a <= k <= b
      ensures Scan(s).flags[k] == s.flags[k] && Scan(s).count[k] <= Scan(s).reload[k]
    {
      ScanOfChain(s, a, b, k);
    }
  }

  // ---------- The mixed-radix counter ----------

  function Value(c: seq<Half>, r: seq<Half>, a: nat, b: nat): nat
    requires b < |c| && b < |r|
    decreases b + 1 - a
  {
    if a > b then 0 else c[a] + (Period(r, a)) * Value(c, r, a + 1, b)
  }

  function Period(r: seq<Half>, k: nat): nat
    requires k < |r|
  {
    1 + r[k] as int
  }

  function Radix(r: seq<Half>, a: nat, b: nat): (p: nat)
    requires b < |r|
    ensures p >= 1
    decreases b + 1 - a
  {
    if a > b then 1
    else
      MulPositive(Period(r, a), Radix(r, a + 1, b));
      (Period(r, a)) * Radix(r, a + 1, b)
  }

  lemma MulPositive(x: int, y: int)
    requires x >= 1 && y >= 1
    ensures x * y >= 1
  {
  }

  // One less, wrapping from zero to the top.
  function Down(v: nat, radix: nat): nat
    requires radix >= 1
  {
    if v == 0 then radix - 1 else v - 1
  }

  // c' is c counted down once from timer a on.
  predicate CountedFrom(c: seq<Half>, c': seq<Half>, r: seq<Half>, a: nat, b: nat)
    requires b < |c| && b < |c'| && b < |r|
  {
    forall k :: a <= k <= b ==>
                  c'[k] == if !AllZero(c, a, k) then c[k] else if c[k] == 0 then r[k] else c[k] - 1
  }

  lemma {:induction false} ValueSame(c: seq<Half>, c': seq<Half>, r: seq<Half>, a: nat, b: nat)
    requires b < |c| && b < |c'| && b < |r| && forall k :: a <= k <= b ==> c'[k] == c[k]
    ensures Value(c', r, a, b) == Value(c, r, a, b)
    decreases b + 1 - a
  {
    if a <= b {
      ValueSame(c, c', r, a + 1, b);
    }
  }

  lemma {:induction false} ValueCountsDown(c: seq<Half>, c': seq<Half>, r: seq<Half>, a: nat, b: nat)
    requires b < |c| && b < |c'| && b < |r| && CountedFrom(c, c', r, a, b)
    ensures Value(c', r, a, b) == Down(Value(c, r, a, b), Radix(r, a, b))
    decreases b + 1 - a
  {
    if a <= b {
      var rest := Value(c, r, a + 1, b);
      assert AllZero(c, a, a);
      if c[a] != 0 {
        forall k | a + 1 <= k <= b
          ensures c'[k] == c[k]
        {
          assert !AllZero(c, a, k);
        }
        ValueSame(c, c', r, a + 1, b);
        MulPart(Period(r, a), rest);
      } else {
        forall k | a + 1 <= k <= b
          ensures AllZero(c, a + 1, k) <==> AllZero(c, a, k)
        {
        }
        ValueCountsDown(c, c', r, a + 1, b);
        CarryIntoRest(r[a], rest, Radix(r, a + 1, b));
      }
    }
  }

  lemma MulPart(x: int, y: int)
    requires x >= 1 && y >= 0
    ensures x * y >= 0 && (y > 0 ==> x * y > 0)
  {
  }

  // Reloading one digit and counting the rest down counts the pair down.
  lemma CarryIntoRest(top: nat, rest: nat, radix: nat)
    requires radix >= 1
    ensures top + (top + 1) * Down(rest, radix) == Down((top + 1) * rest, (top + 1) * radix)
  {
    MulPart(top + 1, rest);
    MulPart(top + 1, radix);
    var d := Down(rest, radix);
    if rest == 0 {
      assert (top + 1) * radix == (top + 1) * d + (top + 1);
    } else {
      assert (top + 1) * rest == (top + 1) * d + (top + 1);
    }
  }

  // A scan of a chain counts its combined value down by one, modulo the product of the periods.
  lemma ScanCountsDown(s: Timers, a: nat, b: nat)
    requires Chain(s, a, b)
    ensures Chain(Scan(s), a, b) && Scan(s).reload == s.reload
    ensures Value(Scan(s).count, s.reload, a, b) == Down(Value(s.count, s.reload, a, b), Radix(s.reload, a, b))
  {
    hide Scan;
    ChainKept(s, a, b);
    ScanOfChain(s, a, b, a);
    forall k | a <= k <= b
      ensures Scan(s).count[k] == Counted(s, a, k)
    {
      ScanOfChain(s, a, b, k);
    }
    ValueCountsDown(s.count, Scan(s).count, s.reload, a, b);
  }

  lemma {:induction false} ValueBelowRadix(c: seq<Half>, r: seq<Half>, a: nat, b: nat)
    requires b < |c| && b < |r| && forall k :: a <= k <= b ==> c[k] <= r[k]
    ensures Value(c, r, a, b) < Radix(r, a, b)
    decreases b + 1 - a
  {
    if a <= b {
      ValueBelowRadix(c, r, a + 1, b);
      DigitFits(c[a], r[a], Value(c, r, a + 1, b), Radix(r, a + 1, b));
    }
  }

  lemma DigitFits(d: nat, top: nat, v: nat, radix: nat)
    requires d <= top && v < radix
    ensures d + (top + 1) * v < (top + 1) * radix
  {
    assert (top + 1) * (v + 1) <= (top + 1) * radix by {
      MulMono(v + 1, radix, top + 1);
      assert (v + 1) * (top + 1) == (top + 1) * (v + 1) && radix * (top + 1) == (top + 1) * radix;
    }
    assert (top + 1) * (v + 1) == (top + 1) * v + (top + 1);
  }

  lemma DownIsMod(v: int, n: int, radix: nat)
    requires radix >= 1
    ensures Down((v - n) % radix, radix) == (v - n - 1) % radix
  {
    var x := v - n;
    var q, m := x / radix, x % radix;
    assert x == radix * q + m;
    if m == 0 {
      assert x - 1 == radix * (q - 1) + (radix - 1);
      ModUnique(x - 1, radix, q - 1, radix - 1);
    } else {
      ModUnique(x - 1, radix, q, m - 1);
    }
  }

  lemma ModUnique(x: int, d: int, q: int, m: int)
    requires d > 0 && x == d * q + m && 0 <= m < d
    ensures x % d == m
  {
    var q', m' := x / d, x % d;
    assert x == d * q' + m';
    assert d * q - d * q' == (q - q') * d && (q' - q) * d == d * q' - d * q;
    if q > q' {
      MulMono(1, q - q', d);
    } else if q < q' {
      MulMono(1, q' - q, d);
    }
  }

  // After n scans a chain holds its starting value minus n, modulo the product of the periods.
  lemma {:induction false} ScansCount(s: Timers, a: nat, b: nat, n: nat)
    requires Chain(s, a, b)
    ensures Chain(Scans(s, n), a, b) && Scans(s, n).reload == s.reload
    ensures Value(Scans(s, n).count, s.reload, a, b) ==
            (Value(s.count, s.reload, a, b) - n) % Radix(s.reload, a, b)
  {
    hide Scan, Value, Radix;
    var radix := Radix(s.reload, a, b);
    if n == 0 {
      ChainValueFits(s, a, b);
      ModUnique(Value(s.count, s.reload, a, b), radix, 0, Value(s.count, s.reload, a, b));
    } else {
      ScansCount(s, a, b, n - 1);
      ScanCountsDown(Scans(s, n - 1), a, b);
      DownIsMod(Value(s.count, s.reload, a, b), n - 1, radix);
    }
  }

  lemma ChainValueFits(s: Timers, a: nat, b: nat)
    requires Chain(s, a, b)
    ensures Value(s.count, s.reload, a, b) < Radix(s.reload, a, b)
  {
    ValueBelowRadix(s.count, s.reload, a, b);
  }

  lemma {:induction false} ZeroValue(c: seq<Half>, r: seq<Half>, a: nat, b: nat)
    requires b < |c| && b < |r| && a <= b + 1
    ensures Value(c, r, a, b) == 0 <==> AllZero(c, a, b + 1)
    decreases b + 1 - a
  {
    if a <= b {
      ZeroValue(c, r, a + 1, b);
      MulPart(Period(r, a), Value(c, r, a + 1, b));
      assert AllZero(c, a, b + 1) <==> c[a] == 0 && AllZero(c, a + 1, b + 1);
    }
  }

  // An odd chain timer interrupts on a scan exactly when it and every timer below it stood at zero.
  lemma InterruptOnUnderflow(s: Timers, a: nat, b: nat, k: nat)
    requires Chain(s, a, b) && a <= k <= b && k % 2 == 1
    ensures 10 - k / 2 in Scan(s).raised <==>
            10 - k / 2 in s.raised || Value(s.count, s.reload, a, k) == 0
  {
    hide Scan;
    ScanOfChain(s, a, b, k);
    ZeroValue(s.count, s.reload, a, k);
  }

  // The chain is still one and its value is one less, modulo the product of the periods.
  predicate CountedDown(s: Timers, r: Timers, a: nat, b: nat)
    requires Chain(s, a, b)
  {
    && Chain(r, a, b) && r.reload == s.reload
    && Value(r.count, s.reload, a, b) == Down(Value(s.count, s.reload, a, b), Radix(s.reload, a, b))
  }

  // ---------- The timer block ----------

  class Clio {
    var s: Timers

    method TimerExecute(timer: nat)
      requires Valid(s)
      modifies this
      ensures s == Execute(old(s), timer % SLOTS) && Valid(s)
    {
      var t := timer % SLOTS;
      if t == 0 {
        s := s.(carry := false);
      }
      var underflow := false;
      var flags := s.flags[t];
      if flags.decrement {
        if flags.cascade && !s.carry {
          s := s.(carry := false);
          return;
        }
        var count := s.count[t];
        if count == 0 {
          underflow := true;
          if t % 2 == 1 {
            s := s.(raised := s.raised + {InterruptBit(t)});
          }
          if flags.reload {
            s := s.(count := s.count[t := s.reload[t]]);
          } else {
            s := s.(count := s.count[t := 0xFFFF]);
            s := s.(flags := s.flags[t := flags.(decrement := false)]);
          }
        } else {
          s := s.(count := s.count[t := count - 1]);
        }
      }
      s := s.(carry := underflow);
    }

    // A full pass over the slots counts every chain down by one.
    method RunScan()
      requires Valid(s)
      modifies this
      ensures s == Scan(old(s)) && Valid(s)
      ensures forall a: nat, b: nat :: Chain(old(s), a, b) ==> CountedDown(old(s), s, a, b)
    {
      hide Execute, Value, Radix;
      for t := 0 to SLOTS
        invariant Valid(s) && s == ScanTo(old(s), t)
      {
        TimerExecute(t);
      }
      forall a: nat, b: nat | Chain(old(s), a, b)
        ensures CountedDown(old(s), s, a, b)
      {
        ScanCountsDown(old(s), a, b);
      }
    }
  }
}
