/** C words and the Pico's ticks against integers and a clock that do not wrap:
    where the countings and the clocks agree. */
module Targets {
  import opened Script
  import opened Machine
  import opened Structured
  import opened TaskCode
  import opened Scheduler

  // ---- deadlines ----------------------------------------------------------

  /** Before the deadline, a reading must come within half the counter. The C
      test still reads a distance of exactly half right on this side, the
      `ticks_diff` test on the other. */
  predicate NotTooSoon(t: Target, now: int, due: int) {
    match t
    case MicroBit => true
    case Pico(half) => due - half < now
    case C(size) => due - size.half <= now
  }

  predicate NotTooLate(t: Target, now: int, due: int) {
    match t
    case MicroBit => true
    case Pico(half) => now <= due + half
    case C(size) => now < due + size.half
  }

  /** How often the target's clock comes round. */
  function Period(t: Target): nat
    requires !t.MicroBit?
  {
    match t
    case Pico(half) => 2 * half
    case C(size) => 2 * size.half
  }

  /** Less than a whole counter away, the wrapped test reads a deadline right
      exactly while it is within half the counter. */
  lemma {:induction false} WrappedDeadline(t: Target, now: int, due: int)
    requires Sound(t) && !t.MicroBit?
    requires due - Period(t) <= now < due + Period(t)
    ensures (Pending(t, now, Word(t, due)) <==> Pending(MicroBit, now, due))
            <==> NotTooSoon(t, now, due) && NotTooLate(t, now, due)
  {
    var period := Period(t);
    assert period > 0;
    if t.Pico? {
      MinusMod(due, now, period);
      SmallMod(due - now, period);
    } else {
      ModMinus(now, due, period);
      SmallMod(now - due, period);
    }
  }

  lemma {:induction false} WrappedPending(t: Target, now: int, due: int)
    requires Sound(t) && NotTooSoon(t, now, due) && NotTooLate(t, now, due)
    ensures Pending(t, now, Word(t, due)) <==> Pending(MicroBit, now, due)
  {
    if !t.MicroBit? {
      WrappedDeadline(t, now, due);
    }
  }

  lemma {:induction false} SmallMod(d: int, period: nat)
    requires period > 0 && 0 <= d + period && d <= period
    ensures d % period == if d < 0 then d + period else if d < period then d else 0
  {
    if d < 0 {
      ModShift(d, period);
    } else if d < period {
      ModSmall(d, period);
    } else {
      UniqueRemainder(d, 1, 0, period);
    }
  }

  lemma {:induction false} ModSmall(d: int, period: nat)
    requires 0 <= d < period
    ensures d % period == d
  {
  }

  lemma {:induction false} ModShift(d: int, period: nat)
    requires d < 0 <= d + period
    ensures d % period == d + period
  {
    assert d == -1 * period + (d + period);
  }

  lemma {:induction false} ModMinus(now: int, due: int, period: nat)
    requires period > 0
    ensures (now - due % period) % period == (now - due) % period
  {
    var q := due / period;
    assert now - due % period == (now - due) + q * period;
    ModMultiple(now - due, q, period);
  }

  lemma {:induction false} MinusMod(due: int, now: int, period: nat)
    requires period > 0
    ensures (due % period - now) % period == (due - now) % period
  {
    var q := due / period;
    assert due % period - now == (due - now) + -q * period;
    ModMultiple(due - now, -q, period);
  }

  lemma {:induction false} ModMultiple(x: int, q: int, period: nat)
    requires period > 0
    ensures (x + q * period) % period == x % period
  {
    var y := x + q * period;
    assert y == (x / period + q) * period + x % period;
    UniqueRemainder(y, x / period + q, x % period, period);
  }

  lemma {:induction false} UniqueRemainder(y: int, q: int, r: int, period: nat)
    requires 0 <= r < period && y == q * period + r
    ensures y % period == r
  {
    var d := y / period - q;
    assert d * period == r - y % period;
  }

  /** The two back ends go round a REPEAT equally often exactly when its count
      fits the counter, or is a negative multiple of its range. */
  lemma {:induction false} LatchesAgree(size: Sizes, i: int)
    requires Sized(size)
    ensures Latch(C(size), i) == Latch(MicroBit, i) <==> 0 <= i < size.range || (i < 0 && i % size.range == 0)
  {
    if i >= size.range {
      RemainderBelow(i, size.range);
    }
  }

  /** A counter holds what its count comes to modulo its range. */
  lemma {:induction false} LatchIs(size: Sizes, i: int)
    requires Sized(size)
    ensures var r := Latch(C(size), i); 0 <= r < size.range && exists q: int :: i == q * size.range + r
  {
    if 0 <= i < size.range {
      assert i == 0 * size.range + i;
    } else {
      RemainderBelow(i, size.range);
      assert i == i / size.range * size.range + i % size.range;
    }
  }

  lemma {:induction false} RemainderBelow(i: int, range: nat)
    requires range > 0
    ensures 0 <= i % range < range
  {
  }

  /** The first of a task's polls that finds its wait over. */
  function FirstWake(t: Target, polls: seq<int>, due: int): nat
    requires Sound(t)
  {
    if polls == [] || !Pending(t, polls[0], due) then 0 else 1 + FirstWake(t, polls[1..], due)
  }

  ghost predicate ClockRuns(polls: seq<int>, from: int) {
    forall j, k | 0 <= j <= k < |polls| :: from <= polls[j] <= polls[k]
  }

  /** The first poll after a wait has run out does not come too late. */
  ghost predicate PolledInTime(t: Target, polls: seq<int>, due: int) {
    polls != [] ==>
      if polls[0] < due then PolledInTime(t, polls[1..], due) else NotTooLate(t, polls[0], due)
  }

  /** However often the counter wraps, a wait that fits in half of it and is
      polled in time ends at the same poll as with a clock that never wraps. */
  lemma {:induction false} SameWake(t: Target, start: int, ms: int, polls: seq<int>)
    requires Sound(t) && NotTooSoon(t, start, start + ms) && ms >= 0
    requires ClockRuns(polls, start)
    requires PolledInTime(t, polls, start + ms)
    ensures FirstWake(t, polls, Due(t, start, ms)) == FirstWake(MicroBit, polls, Due(MicroBit, start, ms))
    decreases |polls|
  {
    hide Pending, Word;
    if polls != [] {
      var due := start + ms;
      assert start <= polls[0];
      PendingPlainly(polls[0], due);
      if polls[0] < due {
        SameWake(t, start, ms, polls[1..]);
        ShortOfDue(t, start, polls[0], due);
      } else {
        PastDue(t, polls[0], due);
      }
      WrappedPending(t, polls[0], due);
    }
  }

  lemma {:induction false} PendingPlainly(now: int, due: int)
    ensures Pending(MicroBit, now, due) <==> now < due
    ensures Word(MicroBit, due) == due
  {
  }

  lemma {:induction false} ShortOfDue(t: Target, start: int, now: int, due: int)
    requires Sound(t) && NotTooSoon(t, start, due) && start <= now < due
    ensures NotTooSoon(t, now, due) && NotTooLate(t, now, due)
  {
  }

  lemma {:induction false} PastDue(t: Target, now: int, due: int)
    requires Sound(t) && due <= now
    ensures NotTooSoon(t, now, due)
  {
  }

  // ---- generators ---------------------------------------------------------

  predicate CountFits(t: Target, i: int) {
    t.C? ==> 0 <= i < t.size.range
  }

  /** What is asked of the steps of a run on a clock that never wraps. `InReach`:
      every REPEAT count fits the target's counter, and every poll is within its
      reach of the deadline. `InTime`: the counts fit, no wait is longer than that
      reach, and none is polled too late. `Modest`: the counts fit, and no wait is
      longer than that reach, or negative. */
  datatype Demand = InReach | InTime | Modest

  ghost predicate StepMeets(d: Demand, m: Machine, t: Target, c: Config) {
    c.Go? && c.code != [] ==>
      match c.code[0]
      case ForRange(n, _) => CountFits(t, Number(m, n, c.world).0)
      case ForFrom(_, n, _) => CountFits(t, Number(m, n, c.world).0)
      case SetDeadline(n) =>
        var (now, w) := Clock(m, c.world);
        var ms := Number(m, n, w).0;
        (d.InReach? || NotTooSoon(t, now, now + ms)) && (d.Modest? ==> ms >= 0)
      case WhilePending(_) =>
        var now := Clock(m, c.world).0;
        (d.Modest? || NotTooLate(t, now, c.due)) && (d.InReach? ==> NotTooSoon(t, now, c.due))
      case _ => true
  }

  ghost predicate Meets(d: Demand, m: Machine, t: Target, n: nat, c: Config) {
    n == 0 || (StepMeets(d, m, t, c) && Meets(d, m, t, n - 1, Step(MicroBit, m, c)))
  }

  /** The same place, with the deadline kept in a word. */
  function Wrapped(t: Target, c: Config): Config
    requires Sound(t)
  {
    match c
    case Go(code, due, w) => Go(code, Word(t, due), w)
    case Paused(code, due, w) => Paused(code, Word(t, due), w)
    case Over(w) => c
  }

  lemma {:induction false} WrappedStep(m: Machine, t: Target, c: Config)
    requires Sound(t) && StepMeets(InReach, m, t, c)
    ensures Step(t, m, Wrapped(t, c)) == Wrapped(t, Step(MicroBit, m, c))
  {
    hide Pending, Word, Latch, NotTooSoon, NotTooLate, CountFits;
    if c.Go? && c.code != [] {
      match c.code[0]
      case ForRange(n, _) => FittingLatch(t, Number(m, n, c.world).0);
      case ForFrom(_, n, _) => FittingLatch(t, Number(m, n, c.world).0);
      case WhilePending(_) => WrappedPending(t, Clock(m, c.world).0, c.due);
      case SetDeadline(n) =>
        var (now, w) := Clock(m, c.world);
        PendingPlainly(now, now + Number(m, n, w).0);
      case _ =>
    }
  }

  lemma {:induction false} FittingLatch(t: Target, i: int)
    requires Sound(t) && CountFits(t, i)
    ensures Latch(t, i) == Latch(MicroBit, i)
  {
  }

  lemma {:induction false} WrappedSteps(m: Machine, t: Target, n: nat, c: Config)
    requires Sound(t) && Meets(InReach, m, t, n, c)
    ensures Steps(t, m, n, Wrapped(t, c)) == Wrapped(t, Steps(MicroBit, m, n, c))
    decreases n
  {
    hide Step, StepMeets, Wrapped;
    if n > 0 {
      WrappedStep(m, t, c);
      WrappedSteps(m, t, n - 1, Step(MicroBit, m, c));
    }
  }

  // ---- schedulers ---------------------------------------------------------

  ghost predicate TurnMeets(d: Demand, m: Machine, t: Target, budget: nat, gen: Gen, w: World) {
    gen.Alive? ==> Meets(d, m, t, budget, Go(gen.code, gen.due, w))
  }

  /** The system after one generator's turn. */
  function AfterTurn(p: PySystem, i: nat, gen: Gen, w: World): PySystem
    requires i < |p.gens|
  {
    PySystem(if gen.Finished? then Remove(p.tasks, i) else p.tasks, p.gens[i := gen], w)
  }

  ghost predicate PassMeets(d: Demand, m: Machine, t: Target, budget: nat, snapshot: seq<nat>, p: PySystem)
    requires forall k | 0 <= k < |snapshot| :: snapshot[k] < |p.gens|
    decreases |snapshot|
  {
    snapshot != [] ==>
      var i := snapshot[0];
      var (gen, w) := Resume(MicroBit, m, budget, p.gens[i], p.world);
      && TurnMeets(d, m, t, budget, p.gens[i], p.world)
      && PassMeets(d, m, t, budget, snapshot[1..], AfterTurn(p, i, gen, w))
  }

  /** Every step of the run meets the demand. */
  ghost predicate RunMeets(d: Demand, m: Machine, t: Target, budget: nat, passes: nat, p: PySystem) {
    passes > 0 ==>
      && RunMeets(d, m, t, budget, passes - 1, p)
      && var q := PyRun(MicroBit, m, budget, passes - 1, p);
         InList(q) ==> PassMeets(d, m, t, budget, q.tasks, q)
  }

  function WrapGen(t: Target, gen: Gen): Gen
    requires Sound(t)
  {
    match gen
    case Alive(code, due) => Alive(code, Word(t, due))
    case Finished => Finished
  }

  ghost predicate WrappedSystem(t: Target, py: PySystem, p: PySystem)
    requires Sound(t)
  {
    && p.tasks == py.tasks && p.world == py.world && |p.gens| == |py.gens|
    && forall i | 0 <= i < |py.gens| :: p.gens[i] == WrapGen(t, py.gens[i])
  }

  lemma {:induction false} WrappedTurn(m: Machine, t: Target, budget: nat, gen: Gen, w: World)
    requires Sound(t) && TurnMeets(InReach, m, t, budget, gen, w)
    ensures var (py, w1) := Resume(MicroBit, m, budget, gen, w);
            Resume(t, m, budget, WrapGen(t, gen), w) == (WrapGen(t, py), w1)
  {
    hide Word, Steps, Meets;
    if gen.Alive? {
      WrappedSteps(m, t, budget, Go(gen.code, gen.due, w));
    }
  }

  lemma {:induction false} WrappedPass(m: Machine, t: Target, budget: nat, snapshot: seq<nat>, py: PySystem,
                                       p: PySystem)
    requires Sound(t)
    requires forall k | 0 <= k < |snapshot| :: snapshot[k] < |py.gens|
    requires PassMeets(InReach, m, t, budget, snapshot, py) && WrappedSystem(t, py, p)
    ensures WrappedSystem(t, PyPass(MicroBit, m, budget, snapshot, py), PyPass(t, m, budget, snapshot, p))
    decreases |snapshot|
  {
    hide Resume, Remove, TurnMeets;
    if snapshot != [] {
      var i := snapshot[0];
      WrappedTurn(m, t, budget, py.gens[i], py.world);
      var (gen, w) := Resume(MicroBit, m, budget, py.gens[i], py.world);
      var (genT, wT) := Resume(t, m, budget, p.gens[i], p.world);
      WrappedPass(m, t, budget, snapshot[1..], AfterTurn(py, i, gen, w), AfterTurn(p, i, genT, wT));
    }
  }

  lemma {:induction false} WrappedStart(t: Target, p: PySystem)
    requires Sound(t)
    requires forall i | 0 <= i < |p.gens| :: p.gens[i].Alive? ==> p.gens[i].due == 0
    ensures WrappedSystem(t, p, p)
  {
    forall i | 0 <= i < |p.gens| ensures p.gens[i] == WrapGen(t, p.gens[i]) {
      if p.gens[i].Alive? && !t.MicroBit? {
        ModSmall(0, Period(t));
      }
    }
  }

  lemma {:induction false} WrappedRun(m: Machine, t: Target, budget: nat, passes: nat, p: PySystem)
    requires Sound(t)
    requires RunMeets(InReach, m, t, budget, passes, p)
    requires forall i | 0 <= i < |p.gens| :: p.gens[i].Alive? ==> p.gens[i].due == 0
    ensures WrappedSystem(t, PyRun(MicroBit, m, budget, passes, p), PyRun(t, m, budget, passes, p))
    decreases passes
  {
    hide PyPass, PassMeets;
    if passes == 0 {
      WrappedStart(t, p);
    } else {
      WrappedRun(m, t, budget, passes - 1, p);
      var q, r := PyRun(MicroBit, m, budget, passes - 1, p), PyRun(t, m, budget, passes - 1, p);
      if InList(q) {
        WrappedPass(m, t, budget, q.tasks, q, r);
      }
    }
  }

  /** The whole contract: any number of started scripts, any number of passes,
      the C program and the MicroPython program, on either board, leave the same
      globals, have had the same effects in the same order, and used up the same
      readings. */
  lemma {:induction false} BackEndsAgree(m: Machine, c: Target, py: Target, whens: seq<seq<Stmt>>, v: nat,
                                         budget: nat, passes: nat, w: World)
    requires c.C? && Sound(c) && !py.C? && Sound(py)
    requires Fits(whens, budget)
    requires RunMeets(InReach, m, c, budget, passes, PyStart(whens, w))
    requires RunMeets(InReach, m, py, budget, passes, PyStart(whens, w))
    ensures CRun(c, m, whens, v, passes, w).world == PyRun(py, m, budget, passes, PyStart(whens, w)).world
  {
    SameRun(c, m, whens, v, budget, passes, w);
    WrappedRun(m, c, budget, passes, PyStart(whens, w));
    WrappedRun(m, py, budget, passes, PyStart(whens, w));
  }
}
