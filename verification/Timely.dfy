/** From what a caller can tell before a run to what the wrapped clocks need of
    every step of it. */
module Timely {
  import opened Script
  import opened Machine
  import opened Structured
  import opened TaskCode
  import opened Generator
  import opened Simulation
  import opened Scheduler
  import opened Targets

  function Now(m: Machine, e: Env): int {
    m.clock(e).0
  }

  /** Nothing that moves the environment on sets the clock back. */
  ghost predicate Forward(m: Machine) {
    && (forall e :: Now(m, e) <= Now(m, m.clock(e).1))
    && (forall a, g, e :: Now(m, e) <= Now(m, m.act(a, g, e).1))
    && (forall c, g, e :: Now(m, e) <= Now(m, m.test(c, g, e).1))
    && (forall n, g, e :: Now(m, e) <= Now(m, m.number(n, g, e).1))
  }

  lemma {:induction false} ClockOn(m: Machine, e: Env)
    requires Forward(m)
    ensures Now(m, e) <= Now(m, m.clock(e).1)
  {
  }

  lemma {:induction false} ActOn(m: Machine, a: nat, g: Globals, e: Env)
    requires Forward(m)
    ensures Now(m, e) <= Now(m, m.act(a, g, e).1)
  {
  }

  lemma {:induction false} TestOn(m: Machine, c: nat, g: Globals, e: Env)
    requires Forward(m)
    ensures Now(m, e) <= Now(m, m.test(c, g, e).1)
  {
  }

  lemma {:induction false} NumberOn(m: Machine, n: nat, g: Globals, e: Env)
    requires Forward(m)
    ensures Now(m, e) <= Now(m, m.number(n, g, e).1)
  {
  }

  /** What time it is where a run stands. */
  function TimeOf(m: Machine, c: Config): int {
    Now(m, c.world.env)
  }

  lemma {:induction false} StepForward(m: Machine, c: Config)
    requires Forward(m)
    ensures TimeOf(m, c) <= TimeOf(m, Step(MicroBit, m, c))
  {
    hide Forward, Now, Latch, Pending, Word;
    if c.Go? && c.code != [] {
      var w := c.world;
      match c.code[0]
      case Do(a) => ActOn(m, a, w.globals, w.env);
      case SetDeadline(n) =>
        ClockOn(m, w.env);
        NumberOn(m, n, w.globals, m.clock(w.env).1);
      case WhilePending(_) => ClockOn(m, w.env);
      case While(cond, _, _) => TestOn(m, cond, w.globals, w.env);
      case ForRange(n, _) => NumberOn(m, n, w.globals, w.env);
      case Branch(cond, _, _) => TestOn(m, cond, w.globals, w.env);
      case Delay(n) => NumberOn(m, n, w.globals, w.env);
      case ForFrom(_, n, _) => NumberOn(m, n, w.globals, w.env);
      case _ =>
    }
  }

  lemma {:induction false} StepsForward(m: Machine, n: nat, c: Config)
    requires Forward(m)
    ensures TimeOf(m, c) <= TimeOf(m, Steps(MicroBit, m, n, c))
    decreases n
  {
    hide Forward, Now, Step;
    if n > 0 {
      StepForward(m, c);
      StepsForward(m, n - 1, Step(MicroBit, m, c));
    }
  }

  lemma {:induction false} TurnForward(m: Machine, budget: nat, gen: Gen, w: World)
    requires Forward(m)
    ensures Now(m, w.env) <= Now(m, Resume(MicroBit, m, budget, gen, w).1.env)
  {
    hide Forward, Now, Steps;
    if gen.Alive? {
      StepsForward(m, budget, Go(gen.code, gen.due, w));
    }
  }

  lemma {:induction false} PassForward(m: Machine, budget: nat, snapshot: seq<nat>, p: PySystem)
    requires forall k | 0 <= k < |snapshot| :: snapshot[k] < |p.gens|
    requires Forward(m)
    ensures Now(m, p.world.env) <= Now(m, PyPass(MicroBit, m, budget, snapshot, p).world.env)
    decreases |snapshot|
  {
    hide Forward, Now, Resume, Remove;
    if snapshot != [] {
      var i := snapshot[0];
      var (gen, w) := Resume(MicroBit, m, budget, p.gens[i], p.world);
      TurnForward(m, budget, p.gens[i], p.world);
      PassForward(m, budget, snapshot[1..], AfterTurn(p, i, gen, w));
    }
  }

  // ---- polled in time, so within reach ------------------------------------

  ghost predicate DueSoon(m: Machine, t: Target, c: Config) {
    c.Over? || NotTooSoon(t, TimeOf(m, c), c.due)
  }

  lemma {:induction false} LaterNotTooSoon(t: Target, now: int, later: int, due: int)
    requires NotTooSoon(t, now, due) && now <= later
    ensures NotTooSoon(t, later, due)
  {
  }

  /** The deadline, and the step that may have set it. */
  lemma {:induction false} StepDue(m: Machine, c: Config)
    requires c.Go? && !Step(MicroBit, m, c).Over?
    ensures Step(MicroBit, m, c).due ==
            if c.code != [] && c.code[0].SetDeadline?
            then Now(m, c.world.env) + Number(m, c.code[0].amount, Clock(m, c.world).1).0
            else c.due
  {
  }

  lemma {:induction false} InTimeStep(m: Machine, t: Target, c: Config)
    requires Forward(m) && StepMeets(InTime, m, t, c) && DueSoon(m, t, c)
    ensures StepMeets(InReach, m, t, c)
    ensures DueSoon(m, t, Step(MicroBit, m, c))
  {
    hide Forward, NotTooSoon, NotTooLate, CountFits, Enter;
    StepForward(m, c);
    var r := Step(MicroBit, m, c);
    if c.Go? && !r.Over? {
      StepDue(m, c);
      LaterNotTooSoon(t, TimeOf(m, c), TimeOf(m, r), r.due);
    }
  }

  lemma {:induction false} InTimeSteps(m: Machine, t: Target, n: nat, c: Config)
    requires Forward(m) && Meets(InTime, m, t, n, c) && DueSoon(m, t, c)
    ensures Meets(InReach, m, t, n, c)
    ensures DueSoon(m, t, Steps(MicroBit, m, n, c))
    decreases n
  {
    hide Forward, StepMeets, DueSoon, Step;
    if n > 0 {
      InTimeStep(m, t, c);
      InTimeSteps(m, t, n - 1, Step(MicroBit, m, c));
    }
  }

  ghost predicate GenDueSoon(m: Machine, t: Target, gen: Gen, w: World) {
    gen.Alive? ==> NotTooSoon(t, Now(m, w.env), gen.due)
  }

  lemma {:induction false} InTimeTurn(m: Machine, t: Target, budget: nat, gen: Gen, w: World)
    requires Forward(m) && TurnMeets(InTime, m, t, budget, gen, w) && GenDueSoon(m, t, gen, w)
    ensures TurnMeets(InReach, m, t, budget, gen, w)
    ensures var (gen1, w1) := Resume(MicroBit, m, budget, gen, w); GenDueSoon(m, t, gen1, w1)
  {
    hide Forward, NotTooSoon, Meets, Steps, Now;
    if gen.Alive? {
      InTimeSteps(m, t, budget, Go(gen.code, gen.due, w));
    }
  }

  ghost predicate AllDueSoon(m: Machine, t: Target, p: PySystem) {
    forall i | 0 <= i < |p.gens| :: GenDueSoon(m, t, p.gens[i], p.world)
  }

  lemma {:induction false} StillDueSoon(m: Machine, t: Target, gen: Gen, w: World, w1: World)
    requires GenDueSoon(m, t, gen, w) && Now(m, w.env) <= Now(m, w1.env)
    ensures GenDueSoon(m, t, gen, w1)
  {
  }

  lemma {:induction false} InTimePass(m: Machine, t: Target, budget: nat, snapshot: seq<nat>, p: PySystem)
    requires forall k | 0 <= k < |snapshot| :: snapshot[k] < |p.gens|
    requires Forward(m) && PassMeets(InTime, m, t, budget, snapshot, p) && AllDueSoon(m, t, p)
    ensures PassMeets(InReach, m, t, budget, snapshot, p)
    ensures AllDueSoon(m, t, PyPass(MicroBit, m, budget, snapshot, p))
    decreases |snapshot|
  {
    hide Forward, TurnMeets, Resume, Remove, GenDueSoon, Now;
    if snapshot != [] {
      var i := snapshot[0];
      var (gen, w) := Resume(MicroBit, m, budget, p.gens[i], p.world);
      InTimeTurn(m, t, budget, p.gens[i], p.world);
      TurnForward(m, budget, p.gens[i], p.world);
      forall j | 0 <= j < |p.gens| && j != i ensures GenDueSoon(m, t, p.gens[j], w) {
        StillDueSoon(m, t, p.gens[j], p.world, w);
      }
      InTimePass(m, t, budget, snapshot[1..], AfterTurn(p, i, gen, w));
    }
  }

  /** On a clock that is not set back, a run in which no wait is longer than half
      the counter and no wait is polled half a counter after its end stays within
      reach throughout. */
  lemma {:induction false} InTimeRun(m: Machine, t: Target, budget: nat, passes: nat, p: PySystem)
    requires Forward(m) && RunMeets(InTime, m, t, budget, passes, p) && AllDueSoon(m, t, p)
    ensures RunMeets(InReach, m, t, budget, passes, p)
    ensures AllDueSoon(m, t, PyRun(MicroBit, m, budget, passes, p))
    decreases passes
  {
    hide Forward, PassMeets, PyPass, AllDueSoon;
    if passes > 0 {
      InTimeRun(m, t, budget, passes - 1, p);
      var q := PyRun(MicroBit, m, budget, passes - 1, p);
      if InList(q) {
        InTimePass(m, t, budget, q.tasks, q);
      }
    }
  }
}
