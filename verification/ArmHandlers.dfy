/**
 Handlers that are interrupted themselves. Programs in which every exception
 entered is also left, nested to any depth, are run on the banked core; as long
 as no handler is interrupted by an exception of its own mode, each return finds
 what its entry saved.
 */
module ArmHandlers {
  import opened Words
  import opened ArmBanks

  // What is executed: single events, and exceptions with all that happens until they are left.
  datatype Program =
    | Finished
    | Then(e: Event, rest: Program)
    | Interrupted(x: Exception, handler: Program, rest: Program)

  function Events(p: Program): seq<Event>
  {
    match p
    case Finished => []
    case Then(e, rest) => [e] + Events(rest)
    case Interrupted(x, handler, rest) => [Raise(x)] + (Events(handler) + ([Leave] + Events(rest)))
  }

  // In mode m: register writes and status writes that keep the mode.
  predicate Plain(e: Event, m: Mode)
  {
    match e
    case Write(n, _) => n < 16
    case WriteUserBank(n, _) => n < 16
    case SetPsr(psr) => ModeTable(Privileged(psr).bits) == Some(m)
    case _ => false
  }

  // No exception is taken into a mode whose handler is under way.
  predicate Nests(p: Program, m: Mode, busy: set<Mode>)
  {
    match p
    case Finished => true
    case Then(e, rest) => Plain(e, m) && Nests(rest, m, busy)
    case Interrupted(x, handler, rest) =>
      Handler(x) !in busy && Nests(handler, Handler(x), busy + {Handler(x)}) && Nests(rest, m, busy)
  }

  // The registers a program may leave changed: those it writes, the program counter and the link registers.
  function Touched(p: Program, m: Mode): set<Reg>
  {
    match p
    case Finished => {}
    case Then(Write(n, _), rest) => (if n < 16 then {Place(m, n)} else {}) + Touched(rest, m)
    case Then(WriteUserBank(n, _), rest) => (if n < 16 then {Place(User, n)} else {}) + Touched(rest, m)
    case Then(_, rest) => Touched(rest, m)
    case Interrupted(x, handler, rest) =>
      {Shared(15), Place(Handler(x), 14)} + Touched(handler, Handler(x)) + Touched(rest, m)
  }

  lemma {:induction false} FlatRunAppend(f: Flat, es: seq<Event>, fs: seq<Event>)
    requires FlatOk(f) && LegalRun(f, es) && LegalRun(FlatRun(f, es), fs)
    ensures LegalRun(f, es + fs) && FlatRun(f, es + fs) == FlatRun(FlatRun(f, es), fs)
    decreases |es|
  {
    hide FlatStep, Legal;
    if es == [] {
      assert es + fs == fs;
    } else {
      assert (es + fs)[1..] == es[1..] + fs;
      FlatRunAppend(FlatStep(f, es[0]), es[1..], fs);
    }
  }

  lemma FlatRunOne(f: Flat, e: Event)
    requires FlatOk(f) && Legal(f.cpsr, f.spsr, e)
    ensures LegalRun(f, [e]) && FlatRun(f, [e]) == FlatStep(f, e)
  {
    hide FlatStep, Legal;
    assert [e][1..] == [];
    assert LegalRun(FlatStep(f, e), []);
  }

  // The state after a program: same mode, what busy modes saved, and every register not touched.
  ghost predicate Kept(f: Flat, g: Flat, busy: set<Mode>, touched: set<Reg>)
  {
    && FlatOk(f) && FlatOk(g) && ModeTable(g.cpsr.bits) == ModeTable(f.cpsr.bits)
    && (forall m: Mode :: m in busy ==> g.spsr[m] == f.spsr[m])
    && (forall l :: IsReg(l) && l !in touched ==> g.file[l] == f.file[l])
  }

  lemma PlainKeeps(f: Flat, e: Event, m: Mode, busy: set<Mode>)
    requires FlatOk(f) && ModeTable(f.cpsr.bits) == Some(m) && Plain(e, m)
    ensures Legal(f.cpsr, f.spsr, e)
    ensures Kept(f, FlatStep(f, e), busy, Touched(Then(e, Finished), m))
  {
  }

  lemma KeptTrans(f: Flat, g: Flat, h: Flat, busy: set<Mode>, s: set<Reg>, t: set<Reg>)
    requires Kept(f, g, busy, s) && Kept(g, h, busy, t)
    ensures Kept(f, h, busy, s + t)
  {
  }

  lemma TouchedFirst(e: Event, rest: Program, m: Mode)
    ensures Touched(Then(e, rest), m) == Touched(Then(e, Finished), m) + Touched(rest, m)
  {
  }

  // Entry, a handler that keeps its own saved status, and the return.
  lemma LeaveFinds(f: Flat, x: Exception, g: Flat, busy: set<Mode>, touched: set<Reg>)
    requires FlatOk(f) && Handler(x) !in busy
    requires Kept(FlatStep(f, Raise(x)), g, busy + {Handler(x)}, touched)
    ensures Legal(g.cpsr, g.spsr, Leave)
    ensures FlatStep(g, Leave).cpsr == f.cpsr
    ensures Kept(f, FlatStep(g, Leave), busy, {Shared(15), Place(Handler(x), 14)} + touched)
  {
    var h := Handler(x);
    ModeBits(h);
    assert ModeTable(g.cpsr.bits) == Some(h);
    assert g.spsr[h] == f.cpsr;
    assert Privileged(f.cpsr) == f.cpsr;
  }

  // Every well-nested program can be run; it keeps the mode, the saved status of every busy mode and every
  // register it does not touch.
  lemma {:induction false} ProgramKeeps(f: Flat, p: Program, m: Mode, busy: set<Mode>)
    requires FlatOk(f) && ModeTable(f.cpsr.bits) == Some(m) && Nests(p, m, busy)
    ensures LegalRun(f, Events(p))
    ensures Kept(f, FlatRun(f, Events(p)), busy, Touched(p, m))
    decreases p, 0
  {
    hide FlatStep, Legal, FlatRun, LegalRun, ModeTable;
    match p
    case Finished =>
      NothingRun(f);
    case Then(e, rest) =>
      PlainKeeps(f, e, m, busy);
      FlatRunOne(f, e);
      var g := FlatStep(f, e);
      ProgramKeeps(g, rest, m, busy);
      FlatRunAppend(f, [e], Events(rest));
      KeptTrans(f, g, FlatRun(g, Events(rest)), busy, Touched(Then(e, Finished), m), Touched(rest, m));
      TouchedFirst(e, rest, m);
    case Interrupted(x, handler, rest) =>
      var g := HandlerReturns(f, x, handler, busy);
      ProgramKeeps(g, rest, m, busy);
      var whole := [Raise(x)] + Events(handler) + [Leave];
      FlatRunAppend(f, whole, Events(rest));
      assert Events(p) == whole + Events(rest);
      KeptTrans(f, g, FlatRun(g, Events(rest)), busy,
                {Shared(15), Place(Handler(x), 14)} + Touched(handler, Handler(x)), Touched(rest, m));
  }

  lemma NothingRun(f: Flat)
    requires FlatOk(f)
    ensures LegalRun(f, []) && FlatRun(f, []) == f
  {
  }

  lemma {:induction false} HandlerReturns(f: Flat, x: Exception, handler: Program, busy: set<Mode>) returns (g: Flat)
    requires FlatOk(f) && Handler(x) !in busy && Nests(handler, Handler(x), busy + {Handler(x)})
    ensures var es := [Raise(x)] + Events(handler) + [Leave];
            LegalRun(f, es) && g == FlatRun(f, es)
    ensures Kept(f, g, busy, {Shared(15), Place(Handler(x), 14)} + Touched(handler, Handler(x)))
    ensures g.cpsr == f.cpsr
    decreases handler, 1
  {
    hide FlatStep, LegalRun, FlatRun, Nests, Touched;
    var entered := EnteredMode(f, x);
    ProgramKeeps(entered, handler, Handler(x), busy + {Handler(x)});
    var handled := FlatRun(entered, Events(handler));
    LeaveFinds(f, x, handled, busy, Touched(handler, Handler(x)));
    FlatRunOne(f, Raise(x));
    FlatRunAppend(f, [Raise(x)], Events(handler));
    FlatRunOne(handled, Leave);
    FlatRunAppend(f, [Raise(x)] + Events(handler), [Leave]);
    g := FlatStep(handled, Leave);
  }

  lemma EnteredMode(f: Flat, x: Exception) returns (g: Flat)
    requires FlatOk(f)
    ensures Legal(f.cpsr, f.spsr, Raise(x)) && g == FlatStep(f, Raise(x))
    ensures ModeTable(g.cpsr.bits) == Some(Handler(x))
  {
    ModeBits(Handler(x));
    g := FlatStep(f, Raise(x));
  }

  // On the banked core: an exception whose handler nests, to any depth, is left with the status register it was
  // taken with, and with every register of every mode but those touched on the way.
  lemma NestedReturn(c: Core, x: Exception, handler: Program)
    requires Valid(c) && Nests(handler, Handler(x), {Handler(x)})
    ensures var es := [Raise(x)] + Events(handler) + [Leave];
            && LegalRun(Abstract(c), es)
            && Run(c, es).cpsr == c.cpsr
            && forall l | IsReg(l) && l !in {Shared(15), Place(Handler(x), 14)} + Touched(handler, Handler(x)) ::
                 File(Run(c, es))[l] == File(c)[l]
  {
    hide Nests, Touched, Events, FlatRun, File, Run;
    assert {} + {Handler(x)} == {Handler(x)};
    var g := HandlerReturns(Abstract(c), x, handler, {});
    RunRefines(c, [Raise(x)] + Events(handler) + [Leave]);
  }

  // What an entry leaves, and the return from it.
  lemma EnterThenLeave(f: Flat, x: Exception)
    requires FlatOk(f)
    ensures Legal(f.cpsr, f.spsr, Raise(x))
    ensures var g := FlatStep(f, Raise(x));
            && g.cpsr == Masked(f.cpsr, x).(bits := BitsOf(Handler(x)))
            && g.spsr == f.spsr[Handler(x) := f.cpsr]
            && Legal(g.cpsr, g.spsr, Leave)
            && FlatStep(g, Leave).cpsr == f.cpsr && FlatStep(g, Leave).spsr == g.spsr
  {
    ModeBits(Handler(x));
    assert Privileged(f.cpsr) == f.cpsr;
  }

  // Leaving mode m with a defined mode saved.
  lemma LeaveMode(f: Flat, m: Mode)
    requires FlatOk(f) && f.cpsr.bits == BitsOf(m) && Defined(f.spsr[m])
    ensures Legal(f.cpsr, f.spsr, Leave) && FlatStep(f, Leave).cpsr == f.spsr[m]
  {
    ModeBits(m);
    assert Privileged(f.spsr[m]) == f.spsr[m];
  }

  // Two exceptions, one in the other's handler, and two returns. The status register comes back if and only if
  // they have handlers of different modes, or the first was taken in its handler's own mode with its masks set.
  lemma TwoDeepExact(c: Core, x: Exception, y: Exception)
    requires Valid(c)
    ensures var es := [Raise(x), Raise(y), Leave, Leave];
            && LegalRun(Abstract(c), es)
            && (Run(c, es).cpsr == c.cpsr <==>
                Handler(x) != Handler(y) || c.cpsr == Masked(c.cpsr, x).(bits := BitsOf(Handler(x))))
  {
    hide Run, File, FlatStep, Legal, Masked, BitsOf, ModeTable, Handler;
    var f := Abstract(c);
    EnterThenLeave(f, x);
    var f1 := FlatStep(f, Raise(x));
    EnterThenLeave(f1, y);
    var f2 := FlatStep(f1, Raise(y));
    LeaveMode(FlatStep(f2, Leave), Handler(x));
    assert [Raise(x), Raise(y), Leave, Leave][1..] == [Raise(y), Leave, Leave];
    assert [Raise(y), Leave, Leave][1..] == [Leave, Leave];
    assert [Leave, Leave][1..] == [Leave];
    FlatRunOne(FlatStep(f2, Leave), Leave);
    assert LegalRun(f2, [Leave, Leave]) && LegalRun(f1, [Raise(y), Leave, Leave]);
    assert FlatRun(f2, [Leave, Leave]) == FlatStep(FlatStep(f2, Leave), Leave);
    assert FlatRun(f1, [Raise(y), Leave, Leave]) == FlatRun(f2, [Leave, Leave]);
    assert FlatRun(f, [Raise(x), Raise(y), Leave, Leave]) == FlatRun(f1, [Raise(y), Leave, Leave]);
    RunRefines(c, [Raise(x), Raise(y), Leave, Leave]);
  }
}
